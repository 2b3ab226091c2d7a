/** Replies of a model and messages to it, in the router's own dialect. */
module Wire {
  import opened Common
  import Text

  /** The decoded arguments of a tool call: a JSON object, known by the canonical text
      between its braces. Nothing modelled here looks inside. */
  datatype Arguments = Arguments(canonical: string)

  /** Any JSON value: an object, or something else. */
  datatype Json = JObject(fields: Arguments) | JOther(canonical: string)

  /** A chunk of a model's reply (core/llm.py:107-134). */
  datatype ReplyBlock = TextBlock(text: string) | ToolUseBlock(id: string, name: string, input: Arguments)

  /** One reply of a model (core/llm.py:137-148). */
  datatype Reply = Reply(blocks: seq<ReplyBlock>, stopReason: Option<string>)

  /** A content block of a message. */
  datatype Block =
    | Prose(text: string)
    | ToolUse(id: string, name: string, input: Arguments)
    | ToolResult(toolUseId: string, content: string, isError: bool)

  /** A message's content is a plain string or a list of blocks. */
  datatype Content = Plain(text: string) | Blocks(blocks: seq<Block>)

  datatype Message = Message(role: Role, content: Content)

  /** The tool invocations of a reply, in order. */
  function ToolUses(blocks: seq<ReplyBlock>): (r: seq<ReplyBlock>)
    ensures forall i :: 0 <= i < |r| ==> r[i].ToolUseBlock?
  {
    if blocks == [] then [] else
    var rest := ToolUses(blocks[1..]);
    if blocks[0].ToolUseBlock? then [blocks[0]] + rest else rest
  }

  function Texts(blocks: seq<ReplyBlock>): seq<string> {
    if blocks == [] then [] else
    var rest := Texts(blocks[1..]);
    if blocks[0].TextBlock? then [blocks[0].text] + rest else rest
  }

  /** The prose of a reply, as the router reads it. */
  function ReplyText(reply: Reply): string {
    Text.Strip(Text.Join("\n\n", Texts(reply.blocks)))
  }

  // What these three say of a reply

  predicate AllTools(blocks: seq<ReplyBlock>) {
    forall i :: 0 <= i < |blocks| ==> blocks[i].ToolUseBlock?
  }

  /** The calls and the texts of a reply are those of its parts, in order. */
  lemma PartsOfReply(a: seq<ReplyBlock>, b: seq<ReplyBlock>)
    ensures ToolUses(a + b) == ToolUses(a) + ToolUses(b) && Texts(a + b) == Texts(a) + Texts(b)
  {
    ToolUsesSplit(a, b);
    TextsSplit(a, b);
  }

  lemma {:induction false} ToolUsesSplit(a: seq<ReplyBlock>, b: seq<ReplyBlock>)
    ensures ToolUses(a + b) == ToolUses(a) + ToolUses(b)
  {
    if a == [] {
      assert a + b == b;
    } else {
      ToolUsesSplit(a[1..], b);
      assert (a + b)[0] == a[0] && (a + b)[1..] == a[1..] + b;
      Concat([a[0]], ToolUses(a[1..]), ToolUses(b));
    }
  }

  lemma {:induction false} TextsSplit(a: seq<ReplyBlock>, b: seq<ReplyBlock>)
    ensures Texts(a + b) == Texts(a) + Texts(b)
  {
    if a == [] {
      assert a + b == b;
    } else {
      TextsSplit(a[1..], b);
      assert (a + b)[0] == a[0] && (a + b)[1..] == a[1..] + b;
      Concat([if a[0].TextBlock? then a[0].text else ""], Texts(a[1..]), Texts(b));
    }
  }

  lemma {:induction false} OnlyTools(blocks: seq<ReplyBlock>)
    requires AllTools(blocks)
    ensures ToolUses(blocks) == blocks && Texts(blocks) == []
  {
    if blocks != [] { OnlyTools(blocks[1..]); }
  }

  /** Tool blocks add nothing to what is said, wherever they stand. */
  lemma ToolsAreSilent(a: seq<ReplyBlock>, tools: seq<ReplyBlock>, b: seq<ReplyBlock>, stop: Option<string>)
    requires AllTools(tools)
    ensures ReplyText(Reply(a + tools + b, stop)) == ReplyText(Reply(a + b, stop))
  {
    PartsOfReply(a + tools, b);
    PartsOfReply(a, tools);
    PartsOfReply(a, b);
    OnlyTools(tools);
    ConcatNil(Texts(a));
  }

  /** A reply with one text says that text, without the white space around it. */
  lemma OneText(before: seq<ReplyBlock>, left: string, t: string, right: string, after: seq<ReplyBlock>,
                stop: Option<string>)
    requires AllTools(before) && AllTools(after)
    requires Text.Blank(left) && Text.Blank(right) && Text.Trimmed(t)
    ensures ReplyText(Reply(before + [TextBlock(left + t + right)] + after, stop)) == t
  {
    var said := [TextBlock(left + t + right)];
    PartsOfReply(before + said, after);
    PartsOfReply(before, said);
    OnlyTools(before);
    OnlyTools(after);
    assert Texts(before + said + after) == [left + t + right];
    Text.StripIs(left, t, right);
  }

  /** Every text of these blocks is something, with no white space at its ends. */
  predicate TrimTexts(blocks: seq<ReplyBlock>) {
    forall i :: 0 <= i < |blocks| && blocks[i].TextBlock? ==> blocks[i].text != "" && Text.Trimmed(blocks[i].text)
  }

  lemma {:induction false} TrimTextsAre(blocks: seq<ReplyBlock>)
    requires TrimTexts(blocks)
    ensures forall i :: 0 <= i < |Texts(blocks)| ==> Texts(blocks)[i] != "" && Text.Trimmed(Texts(blocks)[i])
  {
    if blocks != [] { TrimTextsAre(blocks[1..]); }
  }

  /** A further text is said after a blank line. */
  lemma OneMoreText(blocks: seq<ReplyBlock>, t: string, stop: Option<string>)
    requires TrimTexts(blocks) && t != "" && Text.Trimmed(t)
    requires exists i :: 0 <= i < |blocks| && blocks[i].TextBlock?
    ensures ReplyText(Reply(blocks + [TextBlock(t)], stop)) == ReplyText(Reply(blocks, stop)) + "\n\n" + t
  {
    var i :| 0 <= i < |blocks| && blocks[i].TextBlock?;
    SomeText(blocks, i);
    TrimTextsAre(blocks);
    TextsSplit(blocks, [TextBlock(t)]);
    assert Texts([TextBlock(t)]) == [t];
    Text.JoinOneMore("\n\n", Texts(blocks), t);
  }

  lemma {:induction false} SomeText(blocks: seq<ReplyBlock>, i: nat)
    requires i < |blocks| && blocks[i].TextBlock?
    ensures blocks[i].text in Texts(blocks)
  {
    if i > 0 { SomeText(blocks[1..], i - 1); }
  }

  /** In any reply, nothing but white space at the two ends is lost of its texts joined by blank lines. */
  lemma ReplyTextKeeps(reply: Reply) returns (left: string, right: string)
    ensures left + ReplyText(reply) + right == Text.Join("\n\n", Texts(reply.blocks))
    ensures Text.Blank(left) && Text.Blank(right) && Text.Trimmed(ReplyText(reply))
  {
    left, right := Text.StripCuts(Text.Join("\n\n", Texts(reply.blocks)));
    Text.StripTrims(Text.Join("\n\n", Texts(reply.blocks)));
  }

  predicate BlankTexts(blocks: seq<ReplyBlock>) {
    forall i :: 0 <= i < |blocks| && blocks[i].TextBlock? ==> Text.Blank(blocks[i].text)
  }

  /** A reply says nothing exactly when all its texts are blank. */
  lemma ReplyTextEmptyIff(reply: Reply)
    ensures ReplyText(reply) == "" <==> BlankTexts(reply.blocks)
  {
    Text.StripKeepsWords(Text.Join("\n\n", Texts(reply.blocks)));
    Text.JoinBlank("\n\n", Texts(reply.blocks));
    TextsBlank(reply.blocks);
  }

  lemma {:induction false} TextsBlank(blocks: seq<ReplyBlock>)
    ensures Text.AllBlank(Texts(blocks)) <==> BlankTexts(blocks)
  {
    if blocks != [] {
      TextsBlank(blocks[1..]);
      BlankTextsHead(blocks);
      if blocks[0].TextBlock? { Text.AllBlankHead(blocks[0].text, Texts(blocks[1..])); }
    }
  }

  lemma BlankTextsHead(blocks: seq<ReplyBlock>)
    requires blocks != []
    ensures BlankTexts(blocks) <==> (blocks[0].TextBlock? ==> Text.Blank(blocks[0].text)) && BlankTexts(blocks[1..])
  {
    assert forall i :: 0 < i < |blocks| ==> blocks[i] == blocks[1..][i - 1];
  }

  function ToBlock(b: ReplyBlock): Block {
    match b
    case TextBlock(text) => Prose(text)
    case ToolUseBlock(id, name, input) => ToolUse(id, name, input)
  }

  function ToBlocks(blocks: seq<ReplyBlock>): (r: seq<Block>)
    ensures |r| == |blocks|
    ensures forall i :: 0 <= i < |r| ==> r[i] == ToBlock(blocks[i])
  {
    seq(|blocks|, i requires 0 <= i < |blocks| => ToBlock(blocks[i]))
  }

  lemma ToBlocksCons(first: ReplyBlock, rest: seq<ReplyBlock>)
    ensures ToBlocks([first] + rest) == [ToBlock(first)] + ToBlocks(rest)
  {
  }

  /** Replay a reply verbatim, tool blocks included. */
  method ToAssistantMessage(reply: Reply) returns (m: Message)
    ensures m == Message(Assistant, Blocks(ToBlocks(reply.blocks)))
  {
    var content: seq<Block> := [];
    for i := 0 to |reply.blocks|
      invariant content == ToBlocks(reply.blocks)[..i]
    {
      content := content + [match reply.blocks[i]
                            case TextBlock(text) => Prose(text)
                            case ToolUseBlock(id, name, input) => ToolUse(id, name, input)];
    }
    assert content == ToBlocks(reply.blocks);
    m := Message(Assistant, Blocks(content));
  }

  /** The tool calls among the blocks of a message, in order. */
  function Calls(blocks: seq<Block>): (r: seq<Block>)
    ensures forall i :: 0 <= i < |r| ==> r[i].ToolUse?
  {
    if blocks == [] then [] else
    var rest := Calls(blocks[1..]);
    if blocks[0].ToolUse? then [blocks[0]] + rest else rest
  }

  /** Replaying a reply keeps its calls. */
  lemma {:induction false} CallsOfReply(blocks: seq<ReplyBlock>)
    ensures Calls(ToBlocks(blocks)) == ToBlocks(ToolUses(blocks))
    decreases |blocks|
  {
    if blocks != [] {
      CallsOfReply(blocks[1..]);
      assert ToBlocks(blocks)[1..] == ToBlocks(blocks[1..]);
    }
  }

  // Transcripts

  /** The k-th result answers the k-th call, one each. */
  predicate Answers(results: seq<Block>, calls: seq<Block>)
    requires forall i :: 0 <= i < |calls| ==> calls[i].ToolUse?
  {
    && |results| == |calls|
    && forall i :: 0 <= i < |calls| ==> results[i].ToolResult? && results[i].toolUseId == calls[i].id
  }

  /** An assistant message that calls tools, and the user message that answers it. */
  predicate IsRound(asked: Message, answered: Message) {
    && asked.role == Assistant && asked.content.Blocks? && Calls(asked.content.blocks) != []
    && answered.role == User && answered.content.Blocks?
    && Answers(answered.content.blocks, Calls(asked.content.blocks))
  }

  predicate AreRounds(messages: seq<Message>) {
    messages == [] ||
    (|messages| >= 2 && IsRound(messages[0], messages[1]) && AreRounds(messages[2..]))
  }

  lemma {:induction false} RoundsGrow(messages: seq<Message>, asked: Message, answered: Message)
    requires AreRounds(messages) && IsRound(asked, answered)
    ensures AreRounds(messages + [asked, answered])
  {
    var longer := messages + [asked, answered];
    if messages == [] {
      assert longer[0] == asked && longer[1] == answered && longer[2..] == [];
    } else {
      RoundsGrow(messages[2..], asked, answered);
      assert longer[0] == messages[0] && longer[1] == messages[1];
      assert longer[2..] == messages[2..] + [asked, answered];
    }
  }

  function PlainMessages(h: seq<StoredMessage>): (r: seq<Message>)
    ensures |r| == |h|
    ensures forall i :: 0 <= i < |h| ==> r[i] == Message(h[i].role, Plain(h[i].content))
  {
    seq(|h|, i requires 0 <= i < |h| => Message(h[i].role, Plain(h[i].content)))
  }

  /** What a model may be shown: the history, the question, then answered rounds. */
  predicate IsTranscript(h: seq<StoredMessage>, question: string, rounds: nat, messages: seq<Message>) {
    var opening := PlainMessages(h) + [Message(User, Plain(question))];
    && |messages| == |opening| + 2 * rounds
    && opening == messages[..|opening|]
    && AreRounds(messages[|opening|..])
  }
}
