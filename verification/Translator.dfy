/** Tool calls across two chat protocols: an Anthropic conversation as OpenAI messages, and an
OpenAI answer as Anthropic content blocks.

A JSON object is modelled by the fields the translation reads or writes; a field may be absent.
*/
module Translator {
  import opened Basics
  import opened JsonValue
  import opened TextLines

  /** JSON text, and the id given to a tool call without one. */
  datatype Tools = Tools(render: Json -> string, parse: string -> Option<Json>, newId: Block -> string)

  datatype TranslationError = MessagesRequired | RoleRequired

  /** What the `type` of a block says; blocks without one are of another type. */
  datatype BlockType = TextType | ToolUseType | ToolResultType | OtherType(name: Option<string>)

  datatype Role = Assistant | User | System | Tool | OtherRole(name: string)

  /** A content block. */
  datatype Block = Block(ty: BlockType, text: Option<Json>, id: Option<Json>, name: Option<Json>, input: Option<Json>,
                         toolUseId: Option<Json>, content: Option<Json>)

  datatype Content = List(blocks: seq<Block>) | Value(v: Json)

  /** A message of the conversation as it comes in; the role may be missing or not a string. */
  datatype Turn = Turn(role: Option<Role>, content: Option<Content>)

  datatype Prompt = NoPrompt | PromptText(s: string) | PromptBlocks(blocks: seq<Block>)

  datatype Request = Request(system: Prompt, messages: Option<seq<Turn>>)

  datatype Call = Call(id: Json, name: Json, arguments: string)

  /** A message of the translated conversation. */
  datatype Message = Message(role: Role, content: Content, toolCalls: Option<seq<Call>>, toolCallId: Option<Json>)

  const EmptyObject: Json := Obj(map[])

  function OrElse<T>(v: Option<T>, default_: T): T { if v.Some? then v.value else default_ }

  // ---------------------------------------------------------------- blocks

  predicate IsUse(b: Block) { b.ty.ToolUseType? }
  predicate IsResult(b: Block) { b.ty.ToolResultType? }

  function UseIn(b: Block): seq<Block> { if IsUse(b) then [b] else [] }
  function ResultIn(b: Block): seq<Block> { if IsResult(b) then [b] else [] }
  function RestIn(b: Block): seq<Block> { if IsResult(b) then [] else [b] }

  /** The text of a block that is not a tool use. */
  function TextIn(b: Block): string { if !IsUse(b) && b.text.Some? && b.text.value.Str? then b.text.value.s else "" }

  function BlocksOf(c: Content): seq<Block> { if c.List? then c.blocks else [] }

  // ---------------------------------------------------------------- requests

  function ToolCall(t: Tools, b: Block): Call {
    Call(OrElse(b.id, Str(t.newId(b))), OrElse(b.name, Null), t.render(OrElse(b.input, EmptyObject)))
  }

  function CallOf(t: Tools): Block -> seq<Call> { b => [ToolCall(t, b)] }

  function AssistantMessage(t: Tools, content: Content): Message {
    var uses := Gather(UseIn, BlocksOf(content));
    if uses == [] then Message(Assistant, content, None, None)
    else Message(Assistant, Value(Str(Gather(TextIn, BlocksOf(content)))), Some(Gather(CallOf(t), uses)), None)
  }

  function ToolMessage(b: Block): Message {
    Message(Tool, Value(OrElse(b.content, Str(""))), None, Some(OrElse(b.toolUseId, Null)))
  }

  function ToolMessageOf(b: Block): seq<Message> { [ToolMessage(b)] }

  /** What is left of a user turn when its tool results have become messages of their own. */
  function UserRest(content: Content): Message {
    var rest := Gather(RestIn, BlocksOf(content));
    var left := if Gather(ResultIn, BlocksOf(content)) == [] then content
                else if rest == [] then Value(Str("")) else List(rest);
    Message(User, left, None, None)
  }

  function UserMessages(content: Content): seq<Message> {
    Gather(ToolMessageOf, Gather(ResultIn, BlocksOf(content))) + [UserRest(content)]
  }

  function Translate(t: Tools, role: Role, content: Content): seq<Message> {
    match role
    case Assistant => [AssistantMessage(t, content)]
    case User => UserMessages(content)
    case _ => [Message(role, content, None, None)]
  }

  function ContentOf(m: Turn): Content { OrElse(m.content, Value(Str(""))) }

  function TurnOf(t: Tools): Turn -> seq<Message> {
    (m: Turn) => if m.role.Some? then Translate(t, m.role.value, ContentOf(m)) else []
  }

  predicate HasRole(m: Turn) { m.role.Some? }

  ghost predicate HaveRoles(input: seq<Turn>, n: nat)
    requires n <= |input|
  {
    n > 0 ==> HaveRoles(input, n - 1) && HasRole(input[n - 1])
  }

  lemma {:induction false} RolesUpTo(input: seq<Turn>, i: nat, n: nat)
    requires i < n <= |input| && HaveRoles(input, n)
    ensures HasRole(input[i]) && HaveRoles(input, i + 1)
  {
    if i + 1 < n { RolesUpTo(input, i, n - 1); }
  }

  function TextValue(b: Block): seq<Json> { if b.text.Some? then [b.text.value] else [] }
  function StringIn(v: Json): seq<string> { if v.Str? then [v.s] else [] }

  /** The system prompt becomes a first message; prompt blocks without any text do not. */
  function SystemMessages(p: Prompt): seq<Message> {
    match p
    case NoPrompt => []
    case PromptText(s) => [Message(System, Value(Str(s)), None, None)]
    case PromptBlocks(blocks) =>
      var texts := Gather(TextValue, blocks);
      if texts == [] then [] else [Message(System, Value(Str(Join(Gather(StringIn, texts)))), None, None)]
  }

  ghost function Translated(t: Tools, body: Request): Result<seq<Message>, TranslationError> {
    if body.messages.None? then Err(MessagesRequired)
    else if !HaveRoles(body.messages.value, |body.messages.value|) then Err(RoleRequired)
    else Ok(SystemMessages(body.system) + Gather(TurnOf(t), body.messages.value))
  }

  /** An assistant's turn: its tool uses become calls, and then its text is run together. */
  method AssistantTurn(t: Tools, content: Content) returns (message: Message)
    ensures message == AssistantMessage(t, content)
  {
    message := Message(Assistant, content, None, None);
    if content.List? {
      var calls := ToolCalls(t, content.blocks);
      if calls != [] {
        message := message.(toolCalls := Some(calls));
        var text := "";
        for i := 0 to |content.blocks|
          invariant text == Gather(TextIn, content.blocks[..i])
        {
          GatherGrows(TextIn, content.blocks[..i], content.blocks[i], content.blocks[..i + 1]);
          text := text + TextIn(content.blocks[i]);
        }
        assert content.blocks[..|content.blocks|] == content.blocks;
        message := message.(content := Value(Str(text)));
      }
    }
  }

  method ToolCalls(t: Tools, blocks: seq<Block>) returns (calls: seq<Call>)
    ensures calls == Gather(CallOf(t), Gather(UseIn, blocks))
    ensures calls == [] <==> Gather(UseIn, blocks) == []
  {
    calls := [];
    ghost var uses: seq<Block> := [];
    for i := 0 to |blocks|
      invariant uses == Gather(UseIn, blocks[..i]) && calls == Gather(CallOf(t), uses) && (calls == [] <==> uses == [])
    {
      GatherGrows(UseIn, blocks[..i], blocks[i], blocks[..i + 1]);
      if IsUse(blocks[i]) {
        GatherGrows(CallOf(t), uses, blocks[i], uses + [blocks[i]]);
        calls := calls + [Call(OrElse(blocks[i].id, Str(t.newId(blocks[i]))), OrElse(blocks[i].name, Null),
                               t.render(OrElse(blocks[i].input, EmptyObject)))];
        uses := uses + [blocks[i]];
      }
    }
    assert blocks[..|blocks|] == blocks;
  }

  /** A user's turn: a message for each tool result, then what is left. */
  method UserTurn(content: Content) returns (messages: seq<Message>)
    ensures messages == UserMessages(content)
  {
    messages := [];
    var rest: seq<Block> := [];
    ghost var results: seq<Block> := [];
    var blocks := BlocksOf(content);
    for i := 0 to |blocks|
      invariant results == Gather(ResultIn, blocks[..i]) && rest == Gather(RestIn, blocks[..i])
      invariant messages == Gather(ToolMessageOf, results) && (messages == [] <==> results == [])
    {
      GatherGrows(ResultIn, blocks[..i], blocks[i], blocks[..i + 1]);
      GatherGrows(RestIn, blocks[..i], blocks[i], blocks[..i + 1]);
      if IsResult(blocks[i]) {
        GatherGrows(ToolMessageOf, results, blocks[i], results + [blocks[i]]);
        messages := messages + [Message(Tool, Value(OrElse(blocks[i].content, Str(""))), None,
                                        Some(OrElse(blocks[i].toolUseId, Null)))];
        results := results + [blocks[i]];
      } else {
        rest := rest + [blocks[i]];
      }
    }
    assert blocks[..|blocks|] == blocks;
    var left := content;
    if messages != [] {
      left := if rest == [] then Value(Str("")) else List(rest);
    }
    messages := messages + [Message(User, left, None, None)];
  }

  /** One turn; without a role there is none. */
  method TurnMessages(t: Tools, m: Turn) returns (complete: bool, messages: seq<Message>)
    ensures complete == HasRole(m) && messages == TurnOf(t)(m)
  {
    if m.role.None? {
      return false, [];
    }
    var role, content := m.role.value, ContentOf(m);
    complete := true;
    if role.User? {
      messages := UserTurn(content);
    } else if role.Assistant? {
      var message := AssistantTurn(t, content);
      messages := [message];
    } else {
      messages := [Message(role, content, None, None)];
    }
  }

  method ConversationMessages(t: Tools, input: seq<Turn>) returns (complete: bool, messages: seq<Message>)
    ensures complete == HaveRoles(input, |input|)
    ensures complete ==> messages == Gather(TurnOf(t), input)
  {
    messages := [];
    for i := 0 to |input|
      invariant HaveRoles(input, i) && messages == Gather(TurnOf(t), input[..i])
    {
      complete, messages := AppendTurn(t, input, i, messages);
      if !complete {
        if HaveRoles(input, |input|) { RolesUpTo(input, i, |input|); }
        return;
      }
    }
    assert input[..|input|] == input;
    complete := true;
  }

  method AppendTurn(t: Tools, input: seq<Turn>, i: nat, before: seq<Message>)
    returns (complete: bool, messages: seq<Message>)
    requires i < |input| && before == Gather(TurnOf(t), input[..i])
    ensures complete == HasRole(input[i]) && (complete ==> messages == Gather(TurnOf(t), input[..i + 1]))
  {
    var more;
    complete, more := TurnMessages(t, input[i]);
    messages := before + more;
    GatherNext(TurnOf(t), input, i, before, messages);
  }

  /** The messages of the translated request. */
  method AnthropicToOpenai(t: Tools, body: Request) returns (r: Result<seq<Message>, TranslationError>)
    ensures r == Translated(t, body)
  {
    var messages := SystemMessages(body.system);
    if body.messages.None? {
      return Err(MessagesRequired);
    }
    var complete, more := ConversationMessages(t, body.messages.value);
    r := if complete then Ok(messages + more) else Err(RoleRequired);
  }

  // ---------------------------------------------------------------- the conversation survives

  /** A tool call that a message answers, and with what. */
  datatype Answered = Answered(id: Json, content: Content)

  /** The calls that a message makes, the calls that it answers, and what it says itself. */
  function CallsIn(m: Message): seq<Call> { if m.toolCalls.Some? then m.toolCalls.value else [] }
  function AnswersIn(m: Message): seq<Answered> {
    if m.toolCallId.Some? then [Answered(m.toolCallId.value, m.content)] else []
  }
  function SaidIn(m: Message): string { if m.toolCallId.Some? then "" else TextOf(m.content) }

  function TextOf(c: Content): string { if c.List? then Gather(TextIn, c.blocks) else if c.v.Str? then c.v.s else "" }

  /** The tool uses of an assistant's turn, the tool results of a user's, and what a turn says besides. */
  function UsesIn(role: Role, content: Content): seq<Block> {
    if role.Assistant? then Gather(UseIn, BlocksOf(content)) else []
  }
  function ResultsIn(role: Role, content: Content): seq<Block> {
    if role.User? then Gather(ResultIn, BlocksOf(content)) else []
  }
  function Says(role: Role, content: Content): string {
    if role.User? && content.List? then Gather(TextIn, Gather(RestIn, content.blocks)) else TextOf(content)
  }

  function UsesInTurn(m: Turn): seq<Block> { if m.role.Some? then UsesIn(m.role.value, ContentOf(m)) else [] }
  function ResultsInTurn(m: Turn): seq<Block> { if m.role.Some? then ResultsIn(m.role.value, ContentOf(m)) else [] }
  function SaysInTurn(m: Turn): string { if m.role.Some? then Says(m.role.value, ContentOf(m)) else "" }

  function AnsweredBy(b: Block): Answered { Answered(OrElse(b.toolUseId, Null), Value(OrElse(b.content, Str("")))) }
  function AnswerOf(b: Block): seq<Answered> { [AnsweredBy(b)] }

  function CallsOfUses(t: Tools): Turn -> seq<Call> { m => Gather(CallOf(t), UsesInTurn(m)) }
  function AnswersOfResults(m: Turn): seq<Answered> { Gather(AnswerOf, ResultsInTurn(m)) }

  /** The calls that messages make, the answers that they give and what they say, in order. */
  datatype Gist = Gist(calls: seq<Call>, answers: seq<Answered>, said: string)

  function GistOf(ms: seq<Message>): Gist { Gist(Gather(CallsIn, ms), Gather(AnswersIn, ms), Gather(SaidIn, ms)) }

  ghost predicate Keeps(ms: seq<Message>, calls: seq<Call>, answers: seq<Answered>, said: string) {
    GistOf(ms) == Gist(calls, answers, said)
  }

  lemma OneMessage(m: Message)
    ensures Keeps([m], CallsIn(m), AnswersIn(m), SaidIn(m))
  {
    GatherOne(CallsIn, m);
    GatherOne(AnswersIn, m);
    GatherOne(SaidIn, m);
  }

  lemma KeepsJoin(a: seq<Message>, b: seq<Message>)
    ensures Keeps(a + b, Gather(CallsIn, a) + Gather(CallsIn, b), Gather(AnswersIn, a) + Gather(AnswersIn, b),
                  Gather(SaidIn, a) + Gather(SaidIn, b))
  {
    GatherJoin(CallsIn, a, b);
    GatherJoin(AnswersIn, a, b);
    GatherJoin(SaidIn, a, b);
  }

  lemma {:induction false} NothingGathered<A, B>(f: A -> seq<B>, xs: seq<A>)
    requires forall i | 0 <= i < |xs| :: f(xs[i]) == []
    ensures Gather(f, xs) == []
  {
    if xs != [] { NothingGathered(f, xs[..|xs| - 1]); }
  }

  lemma ToolMessagesKeep(results: seq<Block>)
    ensures Keeps(Gather(ToolMessageOf, results), [], Gather(AnswerOf, results), "")
    ensures |Gather(ToolMessageOf, results)| == |results|
  {
    forall i | 0 <= i < |results| ensures Gather(AnswersIn, ToolMessageOf(results[i])) == AnswerOf(results[i]) {
      GatherOne(AnswersIn, ToolMessage(results[i]));
    }
    GatherThrough(ToolMessageOf, AnswersIn, AnswerOf, results);
    GatherUnits(ToolMessageOf, ToolMessage, results);
    NothingGathered(CallsIn, Gather(ToolMessageOf, results));
    NothingGathered(SaidIn, Gather(ToolMessageOf, results));
  }

  lemma {:induction false} AllAreRest(blocks: seq<Block>)
    ensures Gather(ResultIn, blocks) == [] ==> Gather(RestIn, blocks) == blocks
  {
    if blocks != [] { AllAreRest(blocks[..|blocks| - 1]); }
  }

  lemma RestSays(content: Content)
    ensures SaidIn(UserRest(content)) == Says(User, content)
  {
    if content.List? {
      AllAreRest(content.blocks);
      assert Gather(TextIn, []) == "";
    }
  }

  lemma UserKeeps(content: Content)
    ensures Keeps(UserMessages(content), [], Gather(AnswerOf, ResultsIn(User, content)), Says(User, content))
    ensures |UserMessages(content)| == 1 + |ResultsIn(User, content)|
  {
    var results, rest := ResultsIn(User, content), UserRest(content);
    ToolMessagesKeep(results);
    OneMessage(rest);
    KeepsJoin(Gather(ToolMessageOf, results), [rest]);
    RestSays(content);
    assert Gather(AnswerOf, results) + [] == Gather(AnswerOf, results)
           && "" + Says(User, content) == Says(User, content);
  }

  lemma AssistantKeeps(t: Tools, content: Content)
    ensures Keeps([AssistantMessage(t, content)], Gather(CallOf(t), UsesIn(Assistant, content)), [],
                  Says(Assistant, content))
  {
    OneMessage(AssistantMessage(t, content));
    assert Gather(CallOf(t), []) == [];
  }

  lemma TurnKeeps(t: Tools, role: Role, content: Content)
    ensures Keeps(Translate(t, role, content), Gather(CallOf(t), UsesIn(role, content)),
                  Gather(AnswerOf, ResultsIn(role, content)), Says(role, content))
    ensures |Translate(t, role, content)| == 1 + |ResultsIn(role, content)|
  {
    assert Gather(CallOf(t), []) == [] && Gather(AnswerOf, []) == [];
    match role
    case Assistant => AssistantKeeps(t, content);
    case User => UserKeeps(content);
    case _ => OneMessage(Message(role, content, None, None));
  }

  lemma ConversationKeeps(t: Tools, input: seq<Turn>)
    requires HaveRoles(input, |input|)
    ensures Keeps(Gather(TurnOf(t), input), Gather(CallOf(t), Gather(UsesInTurn, input)),
                  Gather(AnswerOf, Gather(ResultsInTurn, input)),
                  Gather(SaysInTurn, input))
    ensures |Gather(TurnOf(t), input)| == |input| + |Gather(ResultsInTurn, input)|
  {
    forall i | 0 <= i < |input|
      ensures Keeps(TurnOf(t)(input[i]), CallsOfUses(t)(input[i]), AnswersOfResults(input[i]), SaysInTurn(input[i]))
      ensures |TurnOf(t)(input[i])| == 1 + |ResultsInTurn(input[i])|
    {
      RolesUpTo(input, i, |input|);
      TurnKeeps(t, input[i].role.value, ContentOf(input[i]));
    }
    GatherThrough(TurnOf(t), CallsIn, CallsOfUses(t), input);
    GatherThrough(UsesInTurn, CallOf(t), CallsOfUses(t), input);
    GatherThrough(TurnOf(t), AnswersIn, AnswersOfResults, input);
    GatherThrough(ResultsInTurn, AnswerOf, AnswersOfResults, input);
    GatherThrough(TurnOf(t), SaidIn, SaysInTurn, input);
    GatherLength(TurnOf(t), ResultsInTurn, input);
  }

  /** A translated conversation makes the calls of its tool uses, in order, with their names and
      arguments, answers with its tool results, in order, and says what its turns say, after the
      system prompt. It has one message for each message of the request, one more for each tool result
      and one for a system prompt. */
  lemma TranslationKeepsConversation(t: Tools, body: Request)
    requires Translated(t, body).Ok?
    ensures var out, input, system := Translated(t, body).value, body.messages.value, SystemMessages(body.system);
            && Keeps(out, Gather(CallOf(t), Gather(UsesInTurn, input)), Gather(AnswerOf, Gather(ResultsInTurn, input)),
                     Gather(SaidIn, system) + Gather(SaysInTurn, input))
            && |out| == |input| + |Gather(ResultsInTurn, input)| + |system| && |system| <= 1
  {
    var input, system := body.messages.value, SystemMessages(body.system);
    var messages := Gather(TurnOf(t), input);
    ConversationKeeps(t, input);
    KeepsJoin(system, messages);
    SystemCallsNothing(body.system);
    assert [] + Gather(CallsIn, messages) == Gather(CallsIn, messages)
           && [] + Gather(AnswersIn, messages) == Gather(AnswersIn, messages);
  }

  lemma SystemCallsNothing(p: Prompt)
    ensures Gather(CallsIn, SystemMessages(p)) == [] && Gather(AnswersIn, SystemMessages(p)) == []
            && |SystemMessages(p)| <= 1
  {
    if SystemMessages(p) != [] { OneMessage(SystemMessages(p)[0]); }
  }

  function IdOf(c: Call): seq<Json> { [c.id] }
  function AnsweredId(a: Answered): seq<Json> { [a.id] }
  function UseId(t: Tools): Block -> seq<Json> { (b: Block) => [OrElse(b.id, Str(t.newId(b)))] }
  function ResultId(b: Block): seq<Json> { [OrElse(b.toolUseId, Null)] }

  /** The ids alone: each tool use keeps its own, or gets a new one, and so does each tool result. */
  lemma TranslationKeepsIds(t: Tools, body: Request)
    requires Translated(t, body).Ok?
    ensures var out, input := Translated(t, body).value, body.messages.value;
            && Gather(IdOf, Gather(CallsIn, out)) == Gather(UseId(t), Gather(UsesInTurn, input))
            && Gather(AnsweredId, Gather(AnswersIn, out)) == Gather(ResultId, Gather(ResultsInTurn, input))
  {
    var uses, results := Gather(UsesInTurn, body.messages.value), Gather(ResultsInTurn, body.messages.value);
    TranslationKeepsConversation(t, body);
    forall i | 0 <= i < |uses|
      ensures Gather(IdOf, CallOf(t)(uses[i])) == UseId(t)(uses[i])
    {
      GatherOne(IdOf, ToolCall(t, uses[i]));
    }
    GatherThrough(CallOf(t), IdOf, UseId(t), uses);
    forall i | 0 <= i < |results|
      ensures Gather(AnsweredId, AnswerOf(results[i])) == ResultId(results[i])
    {
      GatherOne(AnsweredId, AnsweredBy(results[i]));
    }
    GatherThrough(AnswerOf, AnsweredId, ResultId, results);
  }

  // ---------------------------------------------------------------- whose words they are

  function StringText(b: Block): seq<string> { if b.text.Some? && b.text.value.Str? then [b.text.value.s] else [] }

  ghost predicate AnyText(blocks: seq<Block>) { exists b | b in blocks :: b.text.Some? }

  /** What a system prompt says, if it says anything: its text, or those texts of its blocks that are
      strings, line by line. */
  ghost function SystemText(p: Prompt): Option<string> {
    match p
    case NoPrompt => None
    case PromptText(s) => Some(s)
    case PromptBlocks(blocks) => if AnyText(blocks) then Some(Join(Gather(StringText, blocks))) else None
  }

  lemma {:induction false} SomeTextGathered(blocks: seq<Block>)
    ensures Gather(TextValue, blocks) != [] <==> AnyText(blocks)
  {
    if blocks != [] {
      var front, last := blocks[..|blocks| - 1], blocks[|blocks| - 1];
      SomeTextGathered(front);
      assert blocks == front + [last];
    }
  }

  lemma SystemSays(p: Prompt)
    ensures SystemMessages(p)
         == if SystemText(p).Some? then [Message(System, Value(Str(SystemText(p).value)), None, None)] else []
  {
    if p.PromptBlocks? {
      SomeTextGathered(p.blocks);
      forall i | 0 <= i < |p.blocks| ensures Gather(StringIn, TextValue(p.blocks[i])) == StringText(p.blocks[i]) {
        if p.blocks[i].text.Some? { GatherOne(StringIn, p.blocks[i].text.value); }
      }
      GatherThrough(TextValue, StringIn, StringText, p.blocks);
    }
  }

  function RoleIn(m: Message): seq<Role> { [m.role] }
  function ToolRole(b: Block): seq<Role> { [Tool] }

  /** A turn's tool results are the tool's words, and what is left of it its own. */
  function RolesInTurn(m: Turn): seq<Role> {
    Gather(ToolRole, ResultsInTurn(m)) + if m.role.Some? then [m.role.value] else []
  }

  lemma TurnKeepsRoles(t: Tools, m: Turn)
    requires HasRole(m)
    ensures Gather(RoleIn, TurnOf(t)(m)) == RolesInTurn(m)
  {
    var content, results := ContentOf(m), ResultsInTurn(m);
    match m.role.value
    case User =>
      forall i | 0 <= i < |results| ensures Gather(RoleIn, ToolMessageOf(results[i])) == ToolRole(results[i]) {
        GatherOne(RoleIn, ToolMessage(results[i]));
      }
      GatherThrough(ToolMessageOf, RoleIn, ToolRole, results);
      GatherOne(RoleIn, UserRest(content));
      GatherJoin(RoleIn, Gather(ToolMessageOf, results), [UserRest(content)]);
    case Assistant => GatherOne(RoleIn, AssistantMessage(t, content));
    case _ => GatherOne(RoleIn, Message(m.role.value, content, None, None));
  }

  /** A translated conversation begins with the system prompt, if it says anything, and goes on turn by
      turn: each tool result is a message of the tool, and then the turn keeps its role. */
  lemma TranslationKeepsRoles(t: Tools, body: Request)
    requires Translated(t, body).Ok?
    ensures var out, input, system := Translated(t, body).value, body.messages.value, SystemText(body.system);
            && Gather(RoleIn, out) == (if system.Some? then [System] else []) + Gather(RolesInTurn, input)
            && (system.Some? ==> out != [] && out[0] == Message(System, Value(Str(system.value)), None, None))
  {
    var input, system := body.messages.value, SystemMessages(body.system);
    forall i | 0 <= i < |input| ensures Gather(RoleIn, TurnOf(t)(input[i])) == RolesInTurn(input[i]) {
      RolesUpTo(input, i, |input|);
      TurnKeepsRoles(t, input[i]);
    }
    GatherThrough(TurnOf(t), RoleIn, RolesInTurn, input);
    GatherJoin(RoleIn, system, Gather(TurnOf(t), input));
    SystemSays(body.system);
    if system != [] { GatherOne(RoleIn, system[0]); }
  }

  /** Whatever the blocks of a user's turn hold, those that are no tool results stay, in order; and
      without tool uses an assistant's turn stays as it is. */
  lemma BlocksStay(t: Tools, content: Content)
    ensures BlocksOf(UserRest(content).content) == Gather(RestIn, BlocksOf(content))
    ensures Gather(ResultIn, BlocksOf(content)) == [] ==> UserRest(content).content == content
    ensures Gather(UseIn, BlocksOf(content)) == [] ==> AssistantMessage(t, content).content == content
  {
    AllAreRest(BlocksOf(content));
  }

  // ---------------------------------------------------------------- answers and back

  /** A tool call of an answer; `arguments` should be JSON text. */
  datatype AnswerCall = AnswerCall(id: Option<Json>, name: Option<Json>, arguments: Option<Json>)

  /** The message of the first choice. */
  datatype Answer = Answer(content: Option<Json>, calls: seq<AnswerCall>)

  function Bare(ty: BlockType): Block { Block(ty, None, None, None, None, None, None) }

  function TextBlock(content: Json): Block { Bare(TextType).(text := Some(content)) }

  /** The arguments as a value; unreadable ones become an empty object. */
  function Input(t: Tools, arguments: Option<Json>): Json {
    if arguments.None? then EmptyObject
    else OrElse(t.parse(if arguments.value.Str? then arguments.value.s else "{}"), EmptyObject)
  }

  function ToolUse(t: Tools, c: AnswerCall): Block {
    Bare(ToolUseType).(id := Some(OrElse(c.id, Null)), name := Some(OrElse(c.name, Null)),
                       input := Some(Input(t, c.arguments)))
  }

  function ToolUseOf(t: Tools): AnswerCall -> seq<Block> { c => [ToolUse(t, c)] }

  function TextBlocks(content: Option<Json>): seq<Block> {
    var c := OrElse(content, Str(""));
    if c == Null then [] else [TextBlock(c)]
  }

  function ContentBlocks(t: Tools, a: Answer): seq<Block> { TextBlocks(a.content) + Gather(ToolUseOf(t), a.calls) }

  /** The content blocks of the translated answer. */
  method OpenaiResponseToAnthropic(t: Tools, a: Answer) returns (blocks: seq<Block>)
    ensures blocks == ContentBlocks(t, a)
  {
    blocks := [];
    var content := OrElse(a.content, Str(""));
    if content != Null {
      blocks := blocks + [TextBlock(content)];
    }
    for i := 0 to |a.calls|
      invariant blocks == TextBlocks(a.content) + Gather(ToolUseOf(t), a.calls[..i])
    {
      GatherGrows(ToolUseOf(t), a.calls[..i], a.calls[i], a.calls[..i + 1]);
      blocks := blocks + [ToolUse(t, a.calls[i])];
    }
    assert a.calls[..|a.calls|] == a.calls;
  }

  /** What the arguments of a call become: the value of their JSON text, and an empty object if there
      are none, if the text is no JSON, or if they are not text. */
  lemma ArgumentsBecome(t: Tools, c: AnswerCall, v: Json)
    requires t.parse("{}") == Some(EmptyObject)
    ensures ToolUse(t, c).input == Some(v)
       <==> if exists s :: c.arguments == Some(Str(s)) && t.parse(s).Some?
            then exists s :: c.arguments == Some(Str(s)) && t.parse(s) == Some(v)
            else v == Obj(map[])
  {
    if c.arguments.Some? && c.arguments.value.Str? { assert c.arguments == Some(Str(c.arguments.value.s)); }
  }

  /** A call with its arguments parsed and printed. */
  function Reprinted(t: Tools): AnswerCall -> Call {
    (c: AnswerCall) => Call(OrElse(c.id, Null), OrElse(c.name, Null), t.render(Input(t, c.arguments)))
  }

  function ReprintedOf(t: Tools): AnswerCall -> seq<Call> { c => [Reprinted(t)(c)] }

  /** The tool uses of an answer's blocks are its calls, and their text is its text. */
  lemma UsesComeBack(t: Tools, a: Answer)
    ensures Gather(UseIn, ContentBlocks(t, a)) == Gather(ToolUseOf(t), a.calls)
    ensures Gather(TextIn, ContentBlocks(t, a)) == AnswerText(a)
  {
    var text, uses := TextBlocks(a.content), Gather(ToolUseOf(t), a.calls);
    GatherJoin(UseIn, text, uses);
    GatherJoin(TextIn, text, uses);
    TextComesBack(a);
    CallsComeBack(t, a.calls);
    assert [] + uses == uses && AnswerText(a) + "" == AnswerText(a);
  }

  lemma CallsComeBack(t: Tools, calls: seq<AnswerCall>)
    ensures Gather(UseIn, Gather(ToolUseOf(t), calls)) == Gather(ToolUseOf(t), calls)
    ensures Gather(TextIn, Gather(ToolUseOf(t), calls)) == "" && |Gather(ToolUseOf(t), calls)| == |calls|
  {
    forall i | 0 <= i < |calls|
      ensures Gather(UseIn, ToolUseOf(t)(calls[i])) == ToolUseOf(t)(calls[i])
    {
      GatherOne(UseIn, ToolUse(t, calls[i]));
    }
    GatherThrough(ToolUseOf(t), UseIn, ToolUseOf(t), calls);
    var use := (c: AnswerCall) => ToolUse(t, c);
    GatherUnits(ToolUseOf(t), use, calls);
    forall i | 0 <= i < |calls|
      ensures TextIn(Gather(ToolUseOf(t), calls)[i]) == ""
    {
      assert Gather(ToolUseOf(t), calls)[i] == use(calls[i]);
    }
    NothingGathered(TextIn, Gather(ToolUseOf(t), calls));
  }

  lemma TextComesBack(a: Answer)
    ensures Gather(UseIn, TextBlocks(a.content)) == [] && Gather(TextIn, TextBlocks(a.content)) == AnswerText(a)
  {
    var text := TextBlocks(a.content);
    if text != [] {
      GatherOne(UseIn, text[0]);
      GatherOne(TextIn, text[0]);
    }
  }

  function AnswerText(a: Answer): string { if a.content.Some? && a.content.value.Str? then a.content.value.s else "" }

  /** An answer fed back as an assistant turn restores its text and its calls in order, arguments
      equal up to parsing and printing; without calls it comes back as the blocks it was. Content
      that is neither a string nor null is lost when there are calls. */
  lemma AnswerComesBack(t: Tools, a: Answer)
    ensures var blocks := ContentBlocks(t, a);
            var back := AssistantMessage(t, List(blocks));
            && back.role == Assistant && back.toolCallId.None?
            && Gather(TextIn, blocks) == AnswerText(a)
            && (a.calls == [] ==> back.toolCalls.None? && back.content == List(blocks))
            && (a.calls != [] ==>
                && back.content == Value(Str(AnswerText(a)))
                && back.toolCalls.Some? && |back.toolCalls.value| == |a.calls|
                && forall i | 0 <= i < |a.calls| :: back.toolCalls.value[i] == Reprinted(t)(a.calls[i]))
  {
    UsesComeBack(t, a);
    forall i | 0 <= i < |a.calls| ensures Gather(CallOf(t), ToolUseOf(t)(a.calls[i])) == ReprintedOf(t)(a.calls[i]) {
      GatherOne(CallOf(t), ToolUse(t, a.calls[i]));
      assert ToolCall(t, ToolUse(t, a.calls[i])) == Reprinted(t)(a.calls[i]);
    }
    GatherThrough(ToolUseOf(t), CallOf(t), ReprintedOf(t), a.calls);
    GatherUnits(ReprintedOf(t), Reprinted(t), a.calls);
    CallsComeBack(t, a.calls);
  }
}
