/** What a whole history of gets and sets promises about the next get. */
module CacheRuns {
  import opened Basics
  import opened Cache

  datatype Op<V> = Get(key: string, at: int) | Set(key: string, value: V, at: int)

  ghost predicate InOrder<V(!new)>(ops: seq<Op<V>>) {
    forall i, j | 0 <= i <= j < |ops| :: ops[i].at <= ops[j].at
  }

  /** The latest write of each key, for ever. */
  function Writes<V>(ops: seq<Op<V>>): map<string, Entry<V>> {
    if ops == [] then map[]
    else
      var e := ops[|ops| - 1];
      if e.Set? then Writes(ops[..|ops| - 1])[e.key := Entry(e.value, e.at)] else Writes(ops[..|ops| - 1])
  }

  lemma {:induction false} WritesAreBefore<V(!new)>(ops: seq<Op<V>>, key: string, now: int)
    requires InOrder(ops) && (ops != [] ==> ops[|ops| - 1].at <= now) && key in Writes(ops)
    ensures Writes(ops)[key].at <= now
  {
    var front := ops[..|ops| - 1];
    if !(ops[|ops| - 1].Set? && ops[|ops| - 1].key == key) {
      assert front != [] ==> front[|front| - 1] == ops[|ops| - 2];
      WritesAreBefore(front, key, now);
    }
  }

  // ---------------------------------------------------------------- the first level, exactly

  /** The distinct other names touched since `key` was last touched. */
  function SinceTouched(touches: seq<string>, key: string): Option<set<string>> {
    if touches == [] then None
    else
      var last, before := touches[|touches| - 1], SinceTouched(touches[..|touches| - 1], key);
      if last == key then Some({}) else if before.Some? then Some(before.value + {last}) else None
  }

  /** Fewer than `capacity` other names have been touched since the key was. */
  predicate Survives(touches: seq<string>, key: string, capacity: nat) {
    var s := SinceTouched(touches, key);
    s.Some? && |s.value| < capacity
  }

  /** What a get should find in an LRU with a time to live, judged by the history alone. */
  function Due<V>(capacity: nat, ttl: nat, ops: seq<Op<V>>, key: string, now: int): Option<V>
    decreases |ops|, 1
  {
    var w := Writes(ops);
    if key in w && now - w[key].at <= ttl && Survives(Touches(capacity, ttl, ops), key, capacity) then
      Some(w[key].value)
    else None
  }

  /** Sets touch their key, and so do gets that hit. */
  function Touches<V>(capacity: nat, ttl: nat, ops: seq<Op<V>>): seq<string>
    decreases |ops|, 0
  {
    if ops == [] then []
    else
      var front, e := ops[..|ops| - 1], ops[|ops| - 1];
      Touches(capacity, ttl, front) + if e.Set? || Due(capacity, ttl, front, e.key, e.at).Some? then [e.key] else []
  }

  function LruAfter<V>(capacity: nat, ttl: nat, ops: seq<Op<V>>): Lru<V> {
    if ops == [] then Lru(map[], [])
    else
      var c := LruAfter(capacity, ttl, ops[..|ops| - 1]);
      match ops[|ops| - 1]
      case Get(key, at) => LruGet(c, ttl, key, at).0
      case Set(key, value, at) => LruSet(c, capacity, key, value, at)
  }

  /** Behind the name at `i` stand exactly the names touched since. */
  ghost predicate RankAt(names: seq<string>, touches: seq<string>, i: nat)
    requires i < |names|
  {
    SinceTouched(touches, names[i]) == Some(SetOf(names[i + 1..]))
  }

  /** Whoever is not listed any more has seen a full list of others go by. */
  ghost predicate Displaced(names: seq<string>, touches: seq<string>, capacity: nat, k: string) {
    var s := SinceTouched(touches, k);
    s.Some? ==> |names| == capacity && SetOf(names) <= s.value
  }

  ghost predicate Ranked(names: seq<string>, touches: seq<string>, capacity: nat) {
    && Distinct(names) && |names| <= capacity
    && (forall i | 0 <= i < |names| :: RankAt(names, touches, i))
    && (forall k | k !in names :: Displaced(names, touches, capacity, k))
  }

  lemma RankedMeansSurvives(names: seq<string>, touches: seq<string>, capacity: nat, key: string)
    requires Ranked(names, touches, capacity)
    ensures key in names <==> Survives(touches, key, capacity)
  {
    if key in names {
      var i :| 0 <= i < |names| && names[i] == key;
      assert RankAt(names, touches, i);
      TailSize(names, i + 1);
    } else if SinceTouched(touches, key).Some? {
      assert Displaced(names, touches, capacity, key);
      DistinctSize(names);
      SubsetSize(SetOf(names), SinceTouched(touches, key).value);
    }
  }

  lemma TailSize(names: seq<string>, i: nat)
    requires Distinct(names) && i <= |names|
    ensures |SetOf(names[i..])| == |names| - i
  {
    DistinctSize(names[i..]);
  }

  lemma {:induction false} WithoutMiddle(a: seq<string>, key: string, b: seq<string>)
    requires key !in a && key !in b
    ensures Without(a + [key] + b, key) == a + b
  {
    if b == [] {
      WithoutAbsent(a, key);
      assert (a + [key] + b)[..|a|] == a;
      assert a + b == a;
    } else {
      var all := a + [key] + b;
      assert all[..|all| - 1] == a + [key] + b[..|b| - 1];
      WithoutMiddle(a, key, b[..|b| - 1]);
      assert a + b == a + b[..|b| - 1] + [b[|b| - 1]];
    }
  }

  lemma {:induction false} WithoutAbsent(names: seq<string>, key: string)
    requires key !in names
    ensures Without(names, key) == names
  {
    if names != [] {
      WithoutAbsent(names[..|names| - 1], key);
    }
  }

  lemma SinceOneMore(touches: seq<string>, key: string, k: string)
    ensures SinceTouched(touches + [key], k)
         == if k == key then Some({})
            else if SinceTouched(touches, k).Some? then Some(SinceTouched(touches, k).value + {key}) else None
  {
    assert (touches + [key])[..|touches|] == touches;
  }

  lemma SetOfParts(a: seq<string>, b: seq<string>)
    ensures SetOf(a + b) == SetOf(a) + SetOf(b)
  {
  }

  /** Moving a name to the end, seen from a name that stays in front of it: `rest` were behind it,
      `rest'` are behind it now. */
  lemma RankMoves(names: seq<string>, names': seq<string>, touches: seq<string>, key: string, i: nat, i': nat)
    requires i < |names| && i' < |names'| && names[i] == names'[i'] != key && RankAt(names, touches, i)
    requires SetOf(names'[i' + 1..]) == SetOf(names[i + 1..]) + {key}
    ensures RankAt(names', touches + [key], i')
  {
    SinceOneMore(touches, key, names[i]);
  }

  lemma RankLast(names: seq<string>, touches: seq<string>, key: string)
    requires names != [] && names[|names| - 1] == key
    ensures RankAt(names, touches + [key], |names| - 1)
  {
    SinceOneMore(touches, key, key);
    assert names[|names| - 1 + 1..] == [];
    assert SetOf([]) == {};
  }

  lemma TouchRanksNew(names: seq<string>, touches: seq<string>, key: string, capacity: nat, drop: nat)
    requires Ranked(names, touches, capacity) && key !in names && drop == if |names| < capacity then 0 else 1
    ensures Ranked((names + [key])[drop..], touches + [key], capacity)
  {
    var names' := (names + [key])[drop..];
    if capacity == 0 {
      assert names' == [];
      forall k ensures Displaced(names', touches + [key], 0, k) {}
    } else {
      NewRanks(names, touches, key, drop);
      NewDisplaces(names, touches, key, capacity, drop);
      assert names' == names[drop..] + [key];
    }
  }

  lemma NewRanks(names: seq<string>, touches: seq<string>, key: string, drop: nat)
    requires Distinct(names) && key !in names && drop <= |names|
    requires forall i | 0 <= i < |names| :: RankAt(names, touches, i)
    ensures Distinct(names[drop..] + [key])
    ensures forall i | 0 <= i <= |names| - drop :: RankAt(names[drop..] + [key], touches + [key], i)
  {
    var names' := names[drop..] + [key];
    forall i | 0 <= i <= |names| - drop ensures RankAt(names', touches + [key], i) {
      if i + drop < |names| {
        assert RankAt(names, touches, i + drop);
        assert names'[i + 1..] == names[i + drop + 1..] + [key];
        SetOfParts(names[i + drop + 1..], [key]);
        RankMoves(names, names', touches, key, i + drop, i);
      } else {
        RankLast(names', touches, key);
      }
    }
  }

  lemma NewDisplaces(names: seq<string>, touches: seq<string>, key: string, capacity: nat, drop: nat)
    requires Ranked(names, touches, capacity) && key !in names && capacity > 0
    requires drop == if |names| < capacity then 0 else 1
    ensures forall k | k !in names[drop..] + [key] :: Displaced(names[drop..] + [key], touches + [key], capacity, k)
  {
    var names' := names[drop..] + [key];
    SetOfParts(names[drop..], [key]);
    assert names == names[..drop] + names[drop..];
    forall k | k !in names' ensures Displaced(names', touches + [key], capacity, k) {
      assert k != key by { assert names'[|names'| - 1] == key; }
      SinceOneMore(touches, key, k);
      if k in names {
        assert k in names[..drop];
        assert RankAt(names, touches, 0);
      } else {
        assert Displaced(names, touches, capacity, k);
      }
    }
  }

  lemma MovedDistinct(a: seq<string>, key: string, b: seq<string>)
    requires Distinct(a + [key] + b)
    ensures Distinct(a + b + [key]) && key !in a && key !in b
  {
    var names, names' := a + [key] + b, a + b + [key];
    forall i | 0 <= i < |names| && i != |a| ensures names[i] != key {
      assert names[|a|] == key;
      if i < |a| { assert names[i] != names[|a|]; } else { assert names[|a|] != names[i]; }
    }
    forall i | 0 <= i < |a| ensures a[i] != key { assert names[i] == a[i]; }
    forall i | 0 <= i < |b| ensures b[i] != key { assert names[|a| + 1 + i] == b[i]; }
    forall i, j | 0 <= i < j < |names'| ensures names'[i] != names'[j] {
      var i', j' := if i < |a| then i else i + 1, if j < |a| then j else j + 1;
      if j + 1 < |names'| { assert names'[i] == names[i'] && names'[j] == names[j']; }
      else { assert names'[i] == names[i'] && i' != |a|; }
    }
  }

  lemma TouchRanksOld(a: seq<string>, key: string, b: seq<string>, touches: seq<string>, capacity: nat)
    requires Ranked(a + [key] + b, touches, capacity)
    ensures Ranked(a + b + [key], touches + [key], capacity)
  {
    var names, names' := a + [key] + b, a + b + [key];
    MovedDistinct(a, key, b);
    forall i | 0 <= i < |names'| ensures RankAt(names', touches + [key], i) {
      if i < |a| {
        assert RankAt(names, touches, i);
        assert names[i + 1..] == a[i + 1..] + [key] + b && names'[i + 1..] == a[i + 1..] + b + [key];
        RankMoves(names, names', touches, key, i, i);
      } else if i + 1 < |names'| {
        assert RankAt(names, touches, i + 1);
        assert names'[i + 1..] == names[i + 2..] + [key];
        SetOfParts(names[i + 2..], [key]);
        RankMoves(names, names', touches, key, i + 1, i);
      } else {
        RankLast(names', touches, key);
      }
    }
    assert SetOf(names') == SetOf(names);
    forall k | k !in names' ensures Displaced(names', touches + [key], capacity, k) {
      assert Displaced(names, touches, capacity, k);
      SinceOneMore(touches, key, k);
    }
  }

  /** The entries are the latest writes of listed names; a listed name without one has expired. */
  ghost predicate Backed<V(!new)>(c: Lru<V>, writes: map<string, Entry<V>>, ttl: nat, now: int) {
    && (forall k | k in c.entries :: k in c.names && k in writes && c.entries[k] == writes[k])
    && (forall k | k in c.names && k !in c.entries :: k in writes && now - writes[k].at > ttl)
  }

  lemma BackedLater<V(!new)>(c: Lru<V>, writes: map<string, Entry<V>>, ttl: nat, now: int, later: int)
    requires Backed(c, writes, ttl, now) && now <= later
    ensures Backed(c, writes, ttl, later)
  {
  }

  /** How a touch changes the list: the name moves to the end; the oldest name of a full list falls off. */
  lemma TouchRanks(names: seq<string>, touches: seq<string>, key: string, capacity: nat)
    returns (moved: seq<string>, drop: nat)
    requires Ranked(names, touches, capacity)
    ensures moved == Without(names, key) + [key] && |moved| == MinNat(|moved|, capacity) + drop && drop <= 1
    ensures forall n :: n in moved <==> n in names || n == key
    ensures Distinct(moved) && Ranked(moved[drop..], touches + [key], capacity)
    ensures key in names ==> drop == 0
  {
    if key in names {
      var p :| 0 <= p < |names| && names[p] == key;
      assert names == names[..p] + [key] + names[p + 1..];
      WithoutMiddle(names[..p], key, names[p + 1..]);
      TouchRanksOld(names[..p], key, names[p + 1..], touches, capacity);
      drop := 0;
      moved := names[..p] + names[p + 1..] + [key];
      assert moved[drop..] == moved;
    } else {
      WithoutAbsent(names, key);
      drop := if |names| < capacity then 0 else 1;
      moved := names + [key];
      TouchRanksNew(names, touches, key, capacity, drop);
    }
  }

  lemma TrimOnce<V(!new)>(c: Lru<V>, capacity: nat, drop: nat)
    requires |c.names| == MinNat(|c.names|, capacity) + drop && drop <= 1
    ensures Trim(c, capacity) == Lru(if drop == 0 then c.entries else c.entries - {c.names[0]}, c.names[drop..])
  {
    if drop == 1 {
      assert Trim(Lru(c.entries - {c.names[0]}, c.names[1..]), capacity) == Lru(c.entries - {c.names[0]}, c.names[1..]);
    }
  }

  lemma SetKeeps<V(!new)>(c: Lru<V>, touches: seq<string>, writes: map<string, Entry<V>>, capacity: nat, ttl: nat,
                          key: string, value: V, now: int)
    requires Ranked(c.names, touches, capacity) && Backed(c, writes, ttl, now)
    ensures var c' := LruSet(c, capacity, key, value, now);
            Ranked(c'.names, touches + [key], capacity) && Backed(c', writes[key := Entry(value, now)], ttl, now)
  {
    var moved, drop := TouchRanks(c.names, touches, key, capacity);
    var entries := c.entries[key := Entry(value, now)];
    TrimOnce(Lru(entries, moved), capacity, drop);
    TrimBacked(entries, moved, writes[key := Entry(value, now)], drop, ttl, now);
  }

  lemma TrimBacked<V(!new)>(entries: map<string, Entry<V>>, moved: seq<string>, writes: map<string, Entry<V>>,
                            drop: nat, ttl: nat, now: int)
    requires Backed(Lru(entries, moved), writes, ttl, now) && Distinct(moved) && drop <= 1 && drop <= |moved|
    ensures Backed(Lru(if drop == 0 then entries else entries - {moved[0]}, moved[drop..]), writes, ttl, now)
  {
    assert drop == 0 ==> moved[drop..] == moved;
    assert drop == 1 ==> moved == [moved[0]] + moved[1..];
  }

  /** A get answers what is due, and keeps the invariant. */
  lemma GetIsDue<V(!new)>(c: Lru<V>, touches: seq<string>, writes: map<string, Entry<V>>, capacity: nat, ttl: nat,
                          key: string, now: int)
    requires Ranked(c.names, touches, capacity) && Backed(c, writes, ttl, now)
    ensures var (c', r) := LruGet(c, ttl, key, now);
            && r == (if key in writes && now - writes[key].at <= ttl && Survives(touches, key, capacity)
                     then Some(writes[key].value) else None)
            && Ranked(c'.names, if r.Some? then touches + [key] else touches, capacity)
            && Backed(c', writes, ttl, now)
  {
    RankedMeansSurvives(c.names, touches, capacity, key);
    if key in c.entries && now - c.entries[key].at <= ttl {
      var moved, drop := TouchRanks(c.names, touches, key, capacity);
      assert moved[drop..] == moved;
    }
  }

  lemma {:induction false} LruInvariant<V(!new)>(capacity: nat, ttl: nat, ops: seq<Op<V>>, now: int)
    requires InOrder(ops) && (ops != [] ==> ops[|ops| - 1].at <= now)
    ensures var c := LruAfter(capacity, ttl, ops);
            Ranked(c.names, Touches(capacity, ttl, ops), capacity) && Backed(c, Writes(ops), ttl, now)
  {
    if ops != [] {
      var front, e := ops[..|ops| - 1], ops[|ops| - 1];
      assert front != [] ==> front[|front| - 1] == ops[|ops| - 2];
      LruInvariant(capacity, ttl, front, e.at);
      var c, touches := LruAfter(capacity, ttl, front), Touches(capacity, ttl, front);
      if e.Set? {
        SetKeeps(c, touches, Writes(front), capacity, ttl, e.key, e.value, e.at);
      } else {
        GetIsDue(c, touches, Writes(front), capacity, ttl, e.key, e.at);
        assert touches + [] == touches;
      }
      BackedLater(LruAfter(capacity, ttl, ops), Writes(ops), ttl, e.at, now);
    }
  }

  /** After any history in clock order, a get hits exactly when the key's latest write is no older
      than the time to live and fewer than `capacity` other keys have been touched since the key
      was, and then it returns that write. */
  lemma LruIsExact<V(!new)>(capacity: nat, ttl: nat, ops: seq<Op<V>>, key: string, now: int)
    requires InOrder(ops) && (ops != [] ==> ops[|ops| - 1].at <= now)
    ensures LruGet(LruAfter(capacity, ttl, ops), ttl, key, now).1 == Due(capacity, ttl, ops, key, now)
  {
    LruInvariant(capacity, ttl, ops, now);
    GetIsDue(LruAfter(capacity, ttl, ops), Touches(capacity, ttl, ops), Writes(ops), capacity, ttl, key, now);
  }

  // ---------------------------------------------------------------- both levels

  function LevelsAfter<V>(cfg: Config, ops: seq<Op<V>>): Levels<V> {
    if ops == [] then Levels(Lru(map[], []), map[])
    else
      var c := LevelsAfter(cfg, ops[..|ops| - 1]);
      match ops[|ops| - 1]
      case Get(key, at) => LevelsGet(c, cfg, key, at).0
      case Set(key, value, at) => LevelsSet(c, cfg, key, value, at)
  }

  /** Both levels hold latest values only. The second keeps each until it expires; an entry of the
      first was written or promoted no later than the second would have kept it. */
  ghost predicate Coherent<V(!new)>(c: Levels<V>, writes: map<string, Entry<V>>, cfg: Config, now: int) {
    && (forall k | k in c.l2 :: k in writes && c.l2[k] == writes[k])
    && (forall k | k in writes && k !in c.l2 :: now - writes[k].at > cfg.l2Ttl)
    && (forall k | k in c.l1.entries :: k in writes && c.l1.entries[k].value == writes[k].value
          && c.l1.entries[k].at <= writes[k].at + cfg.l2Ttl)
  }

  lemma {:induction false} TrimKeeps<V(!new)>(c: Lru<V>, capacity: nat)
    ensures forall k | k in Trim(c, capacity).entries :: k in c.entries && Trim(c, capacity).entries[k] == c.entries[k]
    decreases |c.names|
  {
    if |c.names| > capacity { TrimKeeps(Lru(c.entries - {c.names[0]}, c.names[1..]), capacity); }
  }

  lemma SetCoherent<V(!new)>(c: Levels<V>, writes: map<string, Entry<V>>, cfg: Config, key: string, value: V, now: int)
    requires Coherent(c, writes, cfg, now)
    ensures Coherent(LevelsSet(c, cfg, key, value, now), writes[key := Entry(value, now)], cfg, now)
  {
    TrimKeeps(Lru(c.l1.entries[key := Entry(value, now)], Without(c.l1.names, key) + [key]), cfg.l1Capacity);
  }

  lemma GetCoherent<V(!new)>(c: Levels<V>, writes: map<string, Entry<V>>, cfg: Config, key: string, now: int)
    requires Coherent(c, writes, cfg, now)
    ensures Coherent(LevelsGet(c, cfg, key, now).0, writes, cfg, now)
    ensures match LevelsGet(c, cfg, key, now).1
            case Some(v) => key in writes && v == writes[key].value && now - writes[key].at <= cfg.l1Ttl + cfg.l2Ttl
            case None => key in writes ==> now - writes[key].at > cfg.l2Ttl
  {
    var (l1, r1) := LruGet(c.l1, cfg.l1Ttl, key, now);
    var (l2, r2) := TtlGet(c.l2, cfg.l2Ttl, key, now);
    if r1.None? && r2.Some? {
      TrimKeeps(Lru(l1.entries[key := Entry(r2.value, now)], Without(l1.names, key) + [key]), cfg.l1Capacity);
    }
  }

  lemma CoherentLater<V(!new)>(c: Levels<V>, writes: map<string, Entry<V>>, cfg: Config, now: int, later: int)
    requires Coherent(c, writes, cfg, now) && now <= later
    ensures Coherent(c, writes, cfg, later)
  {
  }

  lemma {:induction false} LevelsCoherent<V(!new)>(cfg: Config, ops: seq<Op<V>>, now: int)
    requires InOrder(ops) && (ops != [] ==> ops[|ops| - 1].at <= now)
    ensures Coherent(LevelsAfter(cfg, ops), Writes(ops), cfg, now)
  {
    if ops != [] {
      var front, e := ops[..|ops| - 1], ops[|ops| - 1];
      assert front != [] ==> front[|front| - 1] == ops[|ops| - 2];
      LevelsCoherent(cfg, front, e.at);
      var c := LevelsAfter(cfg, front);
      match e
      case Set(key, value, at) => SetCoherent(c, Writes(front), cfg, key, value, at);
      case Get(key, at) => GetCoherent(c, Writes(front), cfg, key, at);
      CoherentLater(LevelsAfter(cfg, ops), Writes(ops), cfg, e.at, now);
    }
  }

  /** After any history in clock order, a hit is the latest value set for the key, set at most both
      times to live ago; and a value still within the second level's time to live is always found. */
  lemma LevelsRefineLatestWrites<V(!new)>(cfg: Config, ops: seq<Op<V>>, key: string, now: int)
    requires InOrder(ops) && (ops != [] ==> ops[|ops| - 1].at <= now)
    ensures var w := Writes(ops);
            match LevelsGet(LevelsAfter(cfg, ops), cfg, key, now).1
            case Some(v) => key in w && v == w[key].value && now - w[key].at <= cfg.l1Ttl + cfg.l2Ttl
            case None => key in w ==> now - w[key].at > cfg.l2Ttl
  {
    LevelsCoherent(cfg, ops, now);
    GetCoherent(LevelsAfter(cfg, ops), Writes(ops), cfg, key, now);
  }

  /** The age bound is reached: a value promoted in its last moment lives a whole first-level time
      to live longer. */
  lemma StalenessBoundIsReached<V(!new)>(cfg: Config, key: string, value: V)
    requires cfg.l1Capacity >= 1 && cfg.l1Ttl < cfg.l2Ttl
    ensures LevelsGet(LevelsAfter(cfg, [Set(key, value, 0), Get(key, cfg.l2Ttl)]), cfg, key, cfg.l1Ttl + cfg.l2Ttl).1
            == Some(value)
  {
    var first, both := [Set(key, value, 0)], [Set(key, value, 0), Get(key, cfg.l2Ttl)];
    var e := map[key := Entry(value, 0)];
    assert first[..|first| - 1] == [] && both[..|both| - 1] == first;
    assert LevelsAfter<V>(cfg, []) == Levels(Lru(map[], []), map[]);
    assert Without([], key) + [key] == [key];
    assert LevelsAfter(cfg, first) == Levels(Lru(e, [key]), e);
    var expired := LruGet(Lru(e, [key]), cfg.l1Ttl, key, cfg.l2Ttl);
    assert [key][..0] == [];
    assert Without([key], key) == [];
  }
}
