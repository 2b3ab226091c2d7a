/** The Groq dialect: translating transcripts out, replies in, and reading both back. */
module Groq {
  import opened Common
  import opened Wire
  import Text

  /** A tool call as Groq carries it: the arguments are a JSON text, if there at all. */
  datatype GroqCall = GroqCall(id: string, name: string, arguments: Option<string>)

  datatype GroqMessage =
    | GSystem(content: string)
    | GUser(content: string)
    | GAssistant(text: Option<string>, calls: seq<GroqCall>)
    | GTool(toolCallId: string, content: string)

  /** `json.dumps` and `json.loads`; the latter fails on a text that is not JSON. */
  datatype Codec = Codec(dumps: Arguments -> string, loads: string -> Option<Json>)

  /** Decoding inverts encoding on objects (section 4 of RFC 8259), and no text is empty. */
  ghost predicate Faithful(codec: Codec) {
    && (forall o: Arguments :: codec.loads(codec.dumps(o)) == Some(JObject(o)) && codec.dumps(o) != "")
    && codec.loads("{}") == Some(JObject(NO_ARGUMENTS))
  }

  const NO_ARGUMENTS: Arguments := Arguments("")

  /** The hypothesis on the codec can be met. */
  lemma FaithfulCodecsExist()
    ensures exists codec :: Faithful(codec)
  {
    var codec := Codec((o: Arguments) => "{" + o.canonical + "}",
                       (s: string) => if |s| < 2 then None else Some(JObject(Arguments(s[1..|s| - 1]))));
    forall o: Arguments ensures codec.loads(codec.dumps(o)) == Some(JObject(o)) && codec.dumps(o) != "" {
      assert ("{" + o.canonical + "}")[1..|o.canonical| + 1] == o.canonical;
    }
    assert "{}"[1..1] == "";
    assert Faithful(codec);
  }

  // Outbound

  function TextsOf(blocks: seq<Block>): seq<string> {
    if blocks == [] then [] else
    var rest := TextsOf(blocks[1..]);
    if blocks[0].Prose? then [blocks[0].text] + rest else rest
  }

  function TextOf(blocks: seq<Block>): string {
    Text.Join("\n\n", TextsOf(blocks))
  }

  function ResultsOf(blocks: seq<Block>): (r: seq<Block>)
    ensures forall i :: 0 <= i < |r| ==> r[i].ToolResult?
  {
    if blocks == [] then [] else
    var rest := ResultsOf(blocks[1..]);
    if blocks[0].ToolResult? then [blocks[0]] + rest else rest
  }

  lemma {:induction false} TextsOfSplit(a: seq<Block>, b: seq<Block>)
    ensures TextsOf(a + b) == TextsOf(a) + TextsOf(b)
  {
    if a == [] {
      assert a + b == b;
    } else {
      TextsOfSplit(a[1..], b);
      assert (a + b)[0] == a[0] && (a + b)[1..] == a[1..] + b;
      Concat([if a[0].Prose? then a[0].text else ""], TextsOf(a[1..]), TextsOf(b));
    }
  }

  lemma {:induction false} ResultsOfSplit(a: seq<Block>, b: seq<Block>)
    ensures ResultsOf(a + b) == ResultsOf(a) + ResultsOf(b)
  {
    if a == [] {
      assert a + b == b;
    } else {
      ResultsOfSplit(a[1..], b);
      assert (a + b)[0] == a[0] && (a + b)[1..] == a[1..] + b;
      Concat([a[0]], ResultsOf(a[1..]), ResultsOf(b));
    }
  }

  /** The prose of a message is that of its parts, with a blank line between; no other block adds any. */
  lemma ProseOfParts(a: seq<Block>, b: seq<Block>)
    ensures (exists i :: 0 <= i < |a| && a[i].Prose?) && (exists i :: 0 <= i < |b| && b[i].Prose?) ==>
              TextOf(a + b) == TextOf(a) + "\n\n" + TextOf(b)
    ensures (forall i :: 0 <= i < |a| ==> !a[i].Prose?) ==> TextOf(a + b) == TextOf(b)
    ensures (forall i :: 0 <= i < |b| ==> !b[i].Prose?) ==> TextOf(a + b) == TextOf(a)
  {
    TextsOfSplit(a, b);
    NoProse(a);
    NoProse(b);
    ConcatNil(TextsOf(a));
    ConcatNil(TextsOf(b));
    if TextsOf(a) != [] && TextsOf(b) != [] { Text.JoinSplit("\n\n", TextsOf(a), TextsOf(b)); }
  }

  lemma OneProse(text: string)
    ensures TextOf([Prose(text)]) == text
  {
    assert TextsOf([Prose(text)]) == [text];
  }

  lemma {:induction false} NoProse(blocks: seq<Block>)
    ensures TextsOf(blocks) == [] <==> forall i :: 0 <= i < |blocks| ==> !blocks[i].Prose?
  {
    if blocks != [] {
      NoProse(blocks[1..]);
      assert forall i :: 0 < i < |blocks| ==> blocks[i] == blocks[1..][i - 1];
    }
  }

  function NonEmpty(s: string): Option<string> {
    if s == "" then None else Some(s)
  }

  function OutCalls(codec: Codec, uses: seq<Block>): (r: seq<GroqCall>)
    requires forall i :: 0 <= i < |uses| ==> uses[i].ToolUse?
    ensures |r| == |uses|
    ensures forall i :: 0 <= i < |r| ==> r[i] == GroqCall(uses[i].id, uses[i].name, Some(codec.dumps(uses[i].input)))
  {
    seq(|uses|, i requires 0 <= i < |uses| => GroqCall(uses[i].id, uses[i].name, Some(codec.dumps(uses[i].input))))
  }

  function OutResults(results: seq<Block>): (r: seq<GroqMessage>)
    requires forall i :: 0 <= i < |results| ==> results[i].ToolResult?
    ensures |r| == |results|
    ensures forall i :: 0 <= i < |r| ==> r[i] == GTool(results[i].toolUseId, results[i].content)
  {
    seq(|results|, i requires 0 <= i < |results| => GTool(results[i].toolUseId, results[i].content))
  }

  /** The prose of a user message, in one message of its own, if there is any. */
  function ProseOut(blocks: seq<Block>): seq<GroqMessage> {
    if TextsOf(blocks) == [] then [] else [GUser(TextOf(blocks))]
  }

  /** A user message's blocks: results first, one message each, then the prose beside them. */
  function UserOut(blocks: seq<Block>): seq<GroqMessage> {
    OutResults(ResultsOf(blocks)) + ProseOut(blocks)
  }

  /** What one message becomes. */
  function Out(codec: Codec, m: Message): seq<GroqMessage> {
    match m.content
    case Plain(text) => if m.role == User then [GUser(text)] else [GAssistant(Some(text), [])]
    case Blocks(blocks) =>
      if m.role == Assistant then [GAssistant(NonEmpty(TextOf(blocks)), OutCalls(codec, Calls(blocks)))]
      else UserOut(blocks)
  }

  function Outs(codec: Codec, messages: seq<Message>): (parts: seq<seq<GroqMessage>>)
    ensures |parts| == |messages|
  {
    seq(|messages|, i requires 0 <= i < |messages| => Out(codec, messages[i]))
  }

  /** What a conversation becomes: each message in its turn. */
  function OutAll(codec: Codec, messages: seq<Message>): seq<GroqMessage> {
    Flatten(Outs(codec, messages))
  }

  lemma OutAllPush(codec: Codec, messages: seq<Message>, m: Message)
    ensures OutAll(codec, messages + [m]) == OutAll(codec, messages) + Out(codec, m)
  {
    FlattenPush(Outs(codec, messages), Out(codec, m));
    assert Outs(codec, messages + [m]) == Outs(codec, messages) + [Out(codec, m)];
  }

  lemma OutAllCons(codec: Codec, m: Message, rest: seq<Message>)
    ensures OutAll(codec, [m] + rest) == Out(codec, m) + OutAll(codec, rest)
  {
    FlattenCons(Out(codec, m), Outs(codec, rest));
    assert Outs(codec, [m] + rest) == [Out(codec, m)] + Outs(codec, rest);
  }

  /** The user's side of a translation: results at once, prose kept for the end. */
  method AppendUserBlocks(out: seq<GroqMessage>, blocks: seq<Block>) returns (r: seq<GroqMessage>)
    ensures r == out + UserOut(blocks)
  {
    r := out;
    var prose: seq<string> := [];
    for i := 0 to |blocks|
      invariant prose + TextsOf(blocks[i..]) == TextsOf(blocks)
      invariant r + OutResults(ResultsOf(blocks[i..])) == out + OutResults(ResultsOf(blocks))
    {
      assert blocks[i..][1..] == blocks[i + 1..];
      match blocks[i] {
        case ToolResult(id, content, _) =>
          OutResultsUnfold(blocks[i], ResultsOf(blocks[i + 1..]));
          r := r + [GTool(id, content)];
        case Prose(text) => prose := prose + [text];
        case ToolUse(_, _, _) =>
      }
    }
    assert TextsOf(blocks[|blocks|..]) == [] && OutResults(ResultsOf(blocks[|blocks|..])) == [];
    assert prose == TextsOf(blocks) && r == out + OutResults(ResultsOf(blocks));
    Concat(out, OutResults(ResultsOf(blocks)), ProseOut(blocks));
    ConcatNil(r);
    if prose != [] {
      r := r + [GUser(Text.Join("\n\n", prose))];
    }
  }

  lemma OutResultsUnfold(first: Block, rest: seq<Block>)
    requires first.ToolResult? && forall i :: 0 <= i < |rest| ==> rest[i].ToolResult?
    ensures OutResults([first] + rest) == [GTool(first.toolUseId, first.content)] + OutResults(rest)
  {
  }

  method AppendMessage(codec: Codec, out: seq<GroqMessage>, message: Message) returns (r: seq<GroqMessage>)
    ensures r == out + Out(codec, message)
  {
    match message.content {
      case Plain(text) =>
        r := out + [if message.role == User then GUser(text) else GAssistant(Some(text), [])];
      case Blocks(blocks) =>
        if message.role == Assistant {
          r := out + [GAssistant(NonEmpty(TextOf(blocks)), OutCalls(codec, Calls(blocks)))];
        } else {
          r := AppendUserBlocks(out, blocks);
        }
    }
  }

  /** Translate a conversation, message by message, behind the system prompt. */
  method ToGroqMessages(codec: Codec, system: string, messages: seq<Message>) returns (out: seq<GroqMessage>)
    ensures out == [GSystem(system)] + OutAll(codec, messages)
  {
    out := [GSystem(system)];
    for i := 0 to |messages|
      invariant out == [GSystem(system)] + OutAll(codec, messages[..i])
    {
      OutAllPush(codec, messages[..i], messages[i]);
      assert messages[..i] + [messages[i]] == messages[..i + 1];
      Concat([GSystem(system)], OutAll(codec, messages[..i]), Out(codec, messages[i]));
      out := AppendMessage(codec, out, messages[i]);
    }
    assert messages[..|messages|] == messages;
  }

  // Pairing

  /** The first messages answer these calls, one each and in order. */
  predicate Follow(calls: seq<GroqCall>, messages: seq<GroqMessage>) {
    && |calls| <= |messages|
    && forall i :: 0 <= i < |calls| ==> messages[i].GTool? && messages[i].toolCallId == calls[i].id
  }

  /**
   * Every assistant message with k calls is followed at once by exactly k tool messages with the
   * same ids in order, and tool messages occur nowhere else.
   */
  predicate Paired(messages: seq<GroqMessage>)
    decreases |messages|
  {
    if messages == [] then true
    else if messages[0].GTool? then false
    else if messages[0].GAssistant? then
      && Follow(messages[0].calls, messages[1..])
      && Paired(messages[1 + |messages[0].calls|..])
    else Paired(messages[1..])
  }

  /** A message that neither calls a tool nor answers a call. */
  predicate Lone(m: Message) {
    m.content.Plain? ||
    if m.role == User then ResultsOf(m.content.blocks) == [] else Calls(m.content.blocks) == []
  }

  /** A message that calls tools, and one that answers it, with or without prose beside the results. */
  predicate IsExchange(asked: Message, answered: Message) {
    && asked.role == Assistant && asked.content.Blocks? && Calls(asked.content.blocks) != []
    && answered.role == User && answered.content.Blocks?
    && Answers(ResultsOf(answered.content.blocks), Calls(asked.content.blocks))
  }

  /** Calls and results are paired in the router's own dialect. */
  predicate WellPaired(messages: seq<Message>)
    decreases |messages|
  {
    || messages == []
    || (Lone(messages[0]) && WellPaired(messages[1..]))
    || (|messages| >= 2 && IsExchange(messages[0], messages[1]) && WellPaired(messages[2..]))
  }

  lemma PlainKeepsPaired(m: GroqMessage, rest: seq<GroqMessage>)
    requires !m.GTool? && (m.GAssistant? ==> m.calls == []) && Paired(rest)
    ensures Paired([m] + rest)
  {
    assert ([m] + rest)[1..] == rest;
  }

  lemma CallKeepsPaired(asked: GroqMessage, results: seq<GroqMessage>, rest: seq<GroqMessage>)
    requires asked.GAssistant? && Follow(asked.calls, results) && |asked.calls| == |results| && Paired(rest)
    ensures Paired([asked] + (results + rest))
  {
    var whole := [asked] + (results + rest);
    assert whole[1..] == results + rest;
    assert whole[1 + |results|..] == rest;
  }

  lemma ProseKeepsPaired(blocks: seq<Block>, rest: seq<GroqMessage>)
    requires Paired(rest)
    ensures Paired(ProseOut(blocks) + rest)
  {
    ConcatNil(rest);
    PlainKeepsPaired(GUser(TextOf(blocks)), rest);
  }

  lemma LoneKeepsPaired(codec: Codec, m: Message, rest: seq<GroqMessage>)
    requires Lone(m) && Paired(rest)
    ensures Paired(Out(codec, m) + rest)
  {
    match m.content
    case Plain(text) => PlainKeepsPaired(Out(codec, m)[0], rest);
    case Blocks(blocks) =>
      if m.role == Assistant {
        PlainKeepsPaired(Out(codec, m)[0], rest);
      } else {
        ConcatNil(ProseOut(blocks));
        ProseKeepsPaired(blocks, rest);
      }
  }

  lemma ExchangeKeepsPaired(codec: Codec, asked: Message, answered: Message, rest: seq<GroqMessage>)
    requires IsExchange(asked, answered) && Paired(rest)
    ensures Paired(Out(codec, asked) + (Out(codec, answered) + rest))
  {
    var blocks := answered.content.blocks;
    var results, prose := OutResults(ResultsOf(blocks)), ProseOut(blocks);
    ProseKeepsPaired(blocks, rest);
    Concat(results, prose, rest);
    CallKeepsPaired(Out(codec, asked)[0], results, prose + rest);
  }

  /** The translation of any well-paired conversation is paired. */
  lemma {:induction false} TranslationPaired(codec: Codec, messages: seq<Message>)
    requires WellPaired(messages)
    ensures Paired(OutAll(codec, messages))
    decreases |messages|
  {
    if messages != [] {
      var m, rest := messages[0], messages[1..];
      assert messages == [m] + rest;
      OutAllCons(codec, m, rest);
      if Lone(m) && WellPaired(rest) {
        TranslationPaired(codec, rest);
        LoneKeepsPaired(codec, m, OutAll(codec, rest));
      } else {
        var tail := messages[2..];
        assert rest == [messages[1]] + tail;
        OutAllCons(codec, messages[1], tail);
        TranslationPaired(codec, tail);
        ExchangeKeepsPaired(codec, m, messages[1], OutAll(codec, tail));
      }
    }
  }

  lemma {:induction false} AllResults(blocks: seq<Block>)
    requires forall i :: 0 <= i < |blocks| ==> blocks[i].ToolResult?
    ensures ResultsOf(blocks) == blocks && TextsOf(blocks) == []
  {
    if blocks != [] {
      AllResults(blocks[1..]);
    }
  }

  lemma {:induction false} RoundsWellPaired(rounds: seq<Message>)
    requires AreRounds(rounds)
    ensures WellPaired(rounds)
    decreases |rounds|
  {
    if rounds != [] {
      RoundsWellPaired(rounds[2..]);
      AllResults(rounds[1].content.blocks);
      assert IsExchange(rounds[0], rounds[1]);
    }
  }

  lemma {:induction false} OpeningWellPaired(opening: seq<Message>, rounds: seq<Message>)
    requires forall i :: 0 <= i < |opening| ==> opening[i].content.Plain?
    requires AreRounds(rounds)
    ensures WellPaired(opening + rounds)
  {
    if opening == [] {
      assert opening + rounds == rounds;
      RoundsWellPaired(rounds);
    } else {
      OpeningWellPaired(opening[1..], rounds);
      assert (opening + rounds)[1..] == opening[1..] + rounds;
    }
  }

  /** Every transcript the router builds is well paired. */
  lemma TranscriptWellPaired(h: seq<StoredMessage>, question: string, rounds: nat, messages: seq<Message>)
    requires IsTranscript(h, question, rounds, messages)
    ensures WellPaired(messages)
  {
    var opening := PlainMessages(h) + [Message(User, Plain(question))];
    OpeningWellPaired(opening, messages[|opening|..]);
    assert opening + messages[|opening|..] == messages;
  }

  /** Whatever transcript the router builds, its translation keeps every call with its result. */
  lemma TranscriptPaired(codec: Codec, system: string, h: seq<StoredMessage>, question: string, rounds: nat,
                         messages: seq<Message>)
    requires IsTranscript(h, question, rounds, messages)
    ensures Paired([GSystem(system)] + OutAll(codec, messages))
  {
    TranscriptWellPaired(h, question, rounds, messages);
    TranslationPaired(codec, messages);
    PlainKeepsPaired(GSystem(system), OutAll(codec, messages));
  }

  // Reading a translation back

  datatype Call = Call(id: string, name: string, input: Arguments)

  /** A message up to what the translation does not keep: block boundaries, null versus empty, is_error. */
  datatype Meaning =
    | UserSaid(text: string)
    | AssistantSaid(text: string, calls: seq<Call>)
    | ToolsAnswered(results: seq<(string, string)>)

  function MeaningCalls(uses: seq<Block>): (r: seq<Call>)
    requires forall i :: 0 <= i < |uses| ==> uses[i].ToolUse?
    ensures |r| == |uses|
    ensures forall i :: 0 <= i < |r| ==> r[i] == Call(uses[i].id, uses[i].name, uses[i].input)
  {
    seq(|uses|, i requires 0 <= i < |uses| => Call(uses[i].id, uses[i].name, uses[i].input))
  }

  function MeaningResults(results: seq<Block>): (r: seq<(string, string)>)
    requires forall i :: 0 <= i < |results| ==> results[i].ToolResult?
    ensures |r| == |results|
    ensures forall i :: 0 <= i < |r| ==> r[i] == (results[i].toolUseId, results[i].content)
  {
    seq(|results|, i requires 0 <= i < |results| => (results[i].toolUseId, results[i].content))
  }

  function ProseMeaning(blocks: seq<Block>): seq<Meaning> {
    if TextsOf(blocks) == [] then [] else [UserSaid(TextOf(blocks))]
  }

  function ResultsMeaning(blocks: seq<Block>): seq<Meaning> {
    if ResultsOf(blocks) == [] then [] else [ToolsAnswered(MeaningResults(ResultsOf(blocks)))]
  }

  function MeaningsOf(m: Message): seq<Meaning> {
    match m.content
    case Plain(text) => [if m.role == User then UserSaid(text) else AssistantSaid(text, [])]
    case Blocks(blocks) =>
      if m.role == Assistant then [AssistantSaid(TextOf(blocks), MeaningCalls(Calls(blocks)))]
      else ResultsMeaning(blocks) + ProseMeaning(blocks)
  }

  function MeaningParts(messages: seq<Message>): (parts: seq<seq<Meaning>>)
    ensures |parts| == |messages|
  {
    seq(|messages|, i requires 0 <= i < |messages| => MeaningsOf(messages[i]))
  }

  /** What a whole conversation says, in order. */
  function Meanings(messages: seq<Message>): seq<Meaning> {
    Flatten(MeaningParts(messages))
  }

  lemma MeaningsCons(m: Message, rest: seq<Message>)
    ensures Meanings([m] + rest) == MeaningsOf(m) + Meanings(rest)
  {
    FlattenCons(MeaningsOf(m), MeaningParts(rest));
    assert MeaningParts([m] + rest) == [MeaningsOf(m)] + MeaningParts(rest);
  }

  function DecodeArguments(codec: Codec, arguments: Option<string>): Arguments {
    var raw := match arguments case Some(text) => (if text == "" then "{}" else text) case None => "{}";
    match codec.loads(raw)
    case Some(JObject(fields)) => fields
    case _ => NO_ARGUMENTS
  }

  function DecodeCalls(codec: Codec, calls: seq<GroqCall>): (r: seq<Call>)
    ensures |r| == |calls|
    ensures forall i :: 0 <= i < |r| ==>
              r[i] == Call(calls[i].id, calls[i].name, DecodeArguments(codec, calls[i].arguments))
  {
    seq(|calls|, i requires 0 <= i < |calls| =>
      Call(calls[i].id, calls[i].name, DecodeArguments(codec, calls[i].arguments)))
  }

  /** How many tool messages stand at the front. */
  function ToolRun(messages: seq<GroqMessage>): (n: nat)
    ensures n <= |messages| && forall i :: 0 <= i < n ==> messages[i].GTool?
    ensures n == |messages| || !messages[n].GTool?
  {
    if messages == [] || !messages[0].GTool? then 0 else 1 + ToolRun(messages[1..])
  }

  function ToolPairs(tools: seq<GroqMessage>): (r: seq<(string, string)>)
    requires forall i :: 0 <= i < |tools| ==> tools[i].GTool?
    ensures |r| == |tools| && forall i :: 0 <= i < |r| ==> r[i] == (tools[i].toolCallId, tools[i].content)
  {
    seq(|tools|, i requires 0 <= i < |tools| => (tools[i].toolCallId, tools[i].content))
  }

  /** Read a translated conversation back: a run of tool messages is one answer. */
  function Decode(codec: Codec, messages: seq<GroqMessage>): seq<Meaning>
    decreases |messages|
  {
    if messages == [] then []
    else match messages[0]
      case GTool(_, _) =>
        var n := ToolRun(messages);
        [ToolsAnswered(ToolPairs(messages[..n]))] + Decode(codec, messages[n..])
      case GAssistant(text, calls) =>
        [AssistantSaid(match text case Some(t) => t case None => "", DecodeCalls(codec, calls))]
        + Decode(codec, messages[1..])
      case GUser(content) => [UserSaid(content)] + Decode(codec, messages[1..])
      case GSystem(_) => Decode(codec, messages[1..])
  }

  /** No tool message stands at the front. */
  predicate NoToolFirst(messages: seq<GroqMessage>) {
    messages == [] || !messages[0].GTool?
  }

  lemma DecodeOneTool(codec: Codec, tools: seq<GroqMessage>, rest: seq<GroqMessage>)
    requires tools != [] && (forall i :: 0 <= i < |tools| ==> tools[i].GTool?) && NoToolFirst(rest)
    ensures Decode(codec, tools + rest) == [ToolsAnswered(ToolPairs(tools))] + Decode(codec, rest)
  {
    ToolRunOf(tools, rest);
    assert (tools + rest)[..|tools|] == tools && (tools + rest)[|tools|..] == rest;
  }

  lemma {:induction false} ToolRunOf(tools: seq<GroqMessage>, rest: seq<GroqMessage>)
    requires (forall i :: 0 <= i < |tools| ==> tools[i].GTool?) && NoToolFirst(rest)
    ensures ToolRun(tools + rest) == |tools|
  {
    if tools == [] {
      assert tools + rest == rest;
    } else {
      ToolRunOf(tools[1..], rest);
      assert (tools + rest)[1..] == tools[1..] + rest;
    }
  }

  lemma DecodeCons(codec: Codec, m: GroqMessage, rest: seq<GroqMessage>)
    requires m.GAssistant? || m.GUser?
    ensures Decode(codec, [m] + rest)
         == [if m.GUser? then UserSaid(m.content)
             else AssistantSaid(match m.text case Some(t) => t case None => "", DecodeCalls(codec, m.calls))]
            + Decode(codec, rest)
  {
    assert ([m] + rest)[1..] == rest;
  }

  /** Decoding the calls of a translated message gives back its calls. */
  lemma DecodeOutCalls(codec: Codec, uses: seq<Block>)
    requires Faithful(codec) && forall i :: 0 <= i < |uses| ==> uses[i].ToolUse?
    ensures DecodeCalls(codec, OutCalls(codec, uses)) == MeaningCalls(uses)
  {
    forall i | 0 <= i < |uses|
      ensures DecodeArguments(codec, OutCalls(codec, uses)[i].arguments) == uses[i].input
    {
      assert codec.loads(codec.dumps(uses[i].input)) == Some(JObject(uses[i].input));
    }
  }

  lemma ProseReadsBack(codec: Codec, blocks: seq<Block>, rest: seq<GroqMessage>)
    requires NoToolFirst(rest)
    ensures Decode(codec, ProseOut(blocks) + rest) == ProseMeaning(blocks) + Decode(codec, rest)
    ensures NoToolFirst(ProseOut(blocks) + rest)
  {
    ConcatNil(rest);
    ConcatNil(Decode(codec, rest));
    DecodeCons(codec, GUser(TextOf(blocks)), rest);
  }

  /** A message of the assistant, translated and read back, whatever comes after it. */
  lemma AssistantReadsBack(codec: Codec, m: Message, rest: seq<GroqMessage>)
    requires Faithful(codec) && m.role == Assistant
    ensures Decode(codec, Out(codec, m) + rest) == MeaningsOf(m) + Decode(codec, rest)
    ensures NoToolFirst(Out(codec, m) + rest)
  {
    match m.content
    case Plain(text) =>
      assert DecodeCalls(codec, []) == [];
      DecodeCons(codec, GAssistant(Some(text), []), rest);
    case Blocks(blocks) =>
      DecodeOutCalls(codec, Calls(blocks));
      DecodeCons(codec, GAssistant(NonEmpty(TextOf(blocks)), OutCalls(codec, Calls(blocks))), rest);
  }

  lemma LoneReadsBack(codec: Codec, m: Message, rest: seq<GroqMessage>)
    requires Faithful(codec) && Lone(m) && NoToolFirst(rest)
    ensures Decode(codec, Out(codec, m) + rest) == MeaningsOf(m) + Decode(codec, rest)
    ensures NoToolFirst(Out(codec, m) + rest)
  {
    if m.role == Assistant {
      AssistantReadsBack(codec, m, rest);
    } else {
      match m.content
      case Plain(text) => DecodeCons(codec, GUser(text), rest);
      case Blocks(blocks) =>
        ProseReadsBack(codec, blocks, rest);
        ConcatNil(ProseOut(blocks));
        ConcatNil(ProseMeaning(blocks));
    }
  }

  /** The answer to a call message, translated and read back. */
  lemma AnswerReadsBack(codec: Codec, asked: Message, answered: Message, rest: seq<GroqMessage>)
    requires IsExchange(asked, answered) && NoToolFirst(rest)
    ensures Decode(codec, Out(codec, answered) + rest) == MeaningsOf(answered) + Decode(codec, rest)
  {
    var blocks := answered.content.blocks;
    var results := OutResults(ResultsOf(blocks));
    ProseReadsBack(codec, blocks, rest);
    DecodeOneTool(codec, results, ProseOut(blocks) + rest);
    assert ToolPairs(results) == MeaningResults(ResultsOf(blocks));
    Concat(results, ProseOut(blocks), rest);
    Concat(ResultsMeaning(blocks), ProseMeaning(blocks), Decode(codec, rest));
  }

  /** Reading the translation of any well-paired conversation back gives what it said, in order. */
  lemma {:induction false} TranslationReadsBack(codec: Codec, messages: seq<Message>)
    requires Faithful(codec) && WellPaired(messages)
    ensures Decode(codec, OutAll(codec, messages)) == Meanings(messages) && NoToolFirst(OutAll(codec, messages))
    decreases |messages|
  {
    if messages != [] {
      var m, rest := messages[0], messages[1..];
      assert messages == [m] + rest;
      OutAllCons(codec, m, rest);
      MeaningsCons(m, rest);
      if Lone(m) && WellPaired(rest) {
        TranslationReadsBack(codec, rest);
        LoneReadsBack(codec, m, OutAll(codec, rest));
      } else {
        var answered, tail := messages[1], messages[2..];
        assert rest == [answered] + tail;
        OutAllCons(codec, answered, tail);
        MeaningsCons(answered, tail);
        TranslationReadsBack(codec, tail);
        AnswerReadsBack(codec, m, answered, OutAll(codec, tail));
        AssistantReadsBack(codec, m, Out(codec, answered) + OutAll(codec, tail));
      }
    }
  }

  /** Nothing said, asked or answered in a transcript is lost or reordered on its way to Groq. */
  lemma TranscriptReadsBack(codec: Codec, system: string, h: seq<StoredMessage>, question: string, rounds: nat,
                            messages: seq<Message>)
    requires Faithful(codec) && IsTranscript(h, question, rounds, messages)
    ensures Decode(codec, [GSystem(system)] + OutAll(codec, messages)) == Meanings(messages)
  {
    TranscriptWellPaired(h, question, rounds, messages);
    TranslationReadsBack(codec, messages);
    assert ([GSystem(system)] + OutAll(codec, messages))[1..] == OutAll(codec, messages);
  }

  // Inbound

  /** A reply as the SDK hands it over: absent and empty content are different here. */
  datatype GroqReply = GroqReply(content: Option<string>, calls: seq<GroqCall>, finishReason: Option<string>)

  function InBlocks(codec: Codec, calls: seq<GroqCall>): (r: seq<ReplyBlock>)
    ensures |r| == |calls|
    ensures forall i :: 0 <= i < |r| ==>
              r[i] == ToolUseBlock(calls[i].id, calls[i].name, DecodeArguments(codec, calls[i].arguments))
  {
    seq(|calls|, i requires 0 <= i < |calls| =>
      ToolUseBlock(calls[i].id, calls[i].name, DecodeArguments(codec, calls[i].arguments)))
  }

  /** The blocks of a reply: its text unless empty, then its calls, and never none at all. */
  function ReplyBlocks(codec: Codec, r: GroqReply): seq<ReplyBlock> {
    var tools := InBlocks(codec, r.calls);
    if r.content.Some? && r.content.value != "" then [TextBlock(r.content.value)] + tools
    else if tools == [] then [TextBlock("")] else tools
  }

  /**
   * The arguments of a call as a tool gets them, in terms of what the codec reads: the object that a
   * text holds, however it is spelled, and no arguments from anything that is not an object.
   */
  ghost predicate Given(codec: Codec, arguments: Option<string>, input: Arguments) {
    && (forall text, o :: arguments == Some(text) && text != "" && codec.loads(text) == Some(JObject(o)) ==> input == o)
    && (forall text :: arguments == Some(text) && text != "" && NoObject(codec, text) ==> input == NO_ARGUMENTS)
    && (arguments == None || arguments == Some("") ==>
          if NoObject(codec, "{}") then input == NO_ARGUMENTS else codec.loads("{}") == Some(JObject(input)))
  }

  /** The text is not JSON, or is JSON but no object. */
  predicate NoObject(codec: Codec, text: string) {
    codec.loads(text) == None || codec.loads(text).value.JOther?
  }

  lemma DecodedIsGiven(codec: Codec, arguments: Option<string>)
    ensures Given(codec, arguments, DecodeArguments(codec, arguments))
    ensures Faithful(codec) && (arguments == None || arguments == Some("")) ==>
              DecodeArguments(codec, arguments) == NO_ARGUMENTS
  {
  }

  /** How many blocks the text of a reply makes: an empty one makes none. */
  function TextBlocks(r: GroqReply): nat {
    if r.content == None || r.content == Some("") then 0 else 1
  }

  /**
   * The blocks of a reply: the text first, unless it is empty; then a block for each call, in order,
   * with the arguments given; and one empty text rather than no block at all.
   */
  ghost predicate Built(codec: Codec, r: GroqReply, blocks: seq<ReplyBlock>) {
    && |blocks| == (if r.calls == [] then 1 else TextBlocks(r) + |r.calls|)
    && (r.calls == [] && TextBlocks(r) == 0 ==> blocks == [TextBlock("")])
    && (TextBlocks(r) == 1 ==> blocks[0] == TextBlock(r.content.value))
    && forall i :: 0 <= i < |r.calls| ==>
         && blocks[TextBlocks(r) + i].ToolUseBlock?
         && blocks[TextBlocks(r) + i].id == r.calls[i].id && blocks[TextBlocks(r) + i].name == r.calls[i].name
         && Given(codec, r.calls[i].arguments, blocks[TextBlocks(r) + i].input)
  }

  lemma ReplyBlocksBuilt(codec: Codec, r: GroqReply)
    ensures Built(codec, r, ReplyBlocks(codec, r))
  {
    var blocks := ReplyBlocks(codec, r);
    forall i | 0 <= i < |r.calls|
      ensures blocks[TextBlocks(r) + i] == InBlocks(codec, r.calls)[i]
      ensures Given(codec, r.calls[i].arguments, InBlocks(codec, r.calls)[i].input)
    {
      DecodedIsGiven(codec, r.calls[i].arguments);
    }
  }

  /** What cannot be read as an object counts as no arguments; the call itself stands. */
  method ParseArguments(codec: Codec, arguments: Option<string>) returns (input: Arguments)
    ensures input == DecodeArguments(codec, arguments) && Given(codec, arguments, input)
  {
    DecodedIsGiven(codec, arguments);
    var raw := match arguments
               case Some(given) => if given == "" then "{}" else given
               case None => "{}";
    input := match codec.loads(raw)
             case Some(JObject(fields)) => fields
             case _ => NO_ARGUMENTS;
  }

  method FromGroqMessage(codec: Codec, r: GroqReply) returns (reply: Reply)
    ensures reply.blocks == ReplyBlocks(codec, r) && Built(codec, r, reply.blocks)
    ensures reply.stopReason == if r.finishReason == Some("tool_calls") then Some("tool_use") else r.finishReason
  {
    var blocks: seq<ReplyBlock> := [];
    if r.content.Some? && r.content.value != "" {
      blocks := [TextBlock(r.content.value)];
    }
    ghost var text := blocks;
    for i := 0 to |r.calls|
      invariant blocks == text + InBlocks(codec, r.calls)[..i]
    {
      var arguments := ParseArguments(codec, r.calls[i].arguments);
      blocks := blocks + [ToolUseBlock(r.calls[i].id, r.calls[i].name, arguments)];
    }
    assert blocks == text + InBlocks(codec, r.calls);
    if blocks == [] {
      blocks := [TextBlock("")];
    }
    ReplyBlocksBuilt(codec, r);
    reply := Reply(blocks, if r.finishReason == Some("tool_calls") then Some("tool_use") else r.finishReason);
  }

  lemma {:induction false} UsesOfInBlocks(codec: Codec, calls: seq<GroqCall>)
    ensures Calls(ToBlocks(InBlocks(codec, calls))) == ToBlocks(InBlocks(codec, calls))
    ensures TextsOf(ToBlocks(InBlocks(codec, calls))) == []
    decreases |calls|
  {
    var blocks := ToBlocks(InBlocks(codec, calls));
    if calls != [] {
      UsesOfInBlocks(codec, calls[1..]);
      assert blocks[1..] == ToBlocks(InBlocks(codec, calls[1..]));
    }
  }

  /**
   * A reply turned into blocks, replayed as an assistant message and translated back is the same
   * reply: the same text (empty is null), the same calls in order, and arguments that decode to
   * what they decoded to before, malformed and non-object ones normalised to the empty object.
   */
  lemma ReplyRoundTrip(codec: Codec, r: GroqReply)
    requires Faithful(codec)
    ensures var back := Out(codec, Message(Assistant, Blocks(ToBlocks(ReplyBlocks(codec, r)))));
            && |back| == 1 && back[0].GAssistant?
            && back[0].text == (if r.content == Some("") then None else r.content)
            && |back[0].calls| == |r.calls|
            && (forall i :: 0 <= i < |r.calls| ==>
                  && back[0].calls[i].id == r.calls[i].id && back[0].calls[i].name == r.calls[i].name
                  && DecodeArguments(codec, back[0].calls[i].arguments) == DecodeArguments(codec, r.calls[i].arguments))
            && ReplyBlocks(codec, GroqReply(back[0].text, back[0].calls, r.finishReason)) == ReplyBlocks(codec, r)
  {
    var blocks := ToBlocks(ReplyBlocks(codec, r));
    var tools := ToBlocks(InBlocks(codec, r.calls));
    ReplyBlocksRead(codec, r);
    var back := Out(codec, Message(Assistant, Blocks(blocks)))[0];
    forall i | 0 <= i < |r.calls|
      ensures DecodeArguments(codec, back.calls[i].arguments) == DecodeArguments(codec, r.calls[i].arguments)
    {
      assert codec.loads(codec.dumps(tools[i].input)) == Some(JObject(tools[i].input));
    }
    assert InBlocks(codec, back.calls) == InBlocks(codec, r.calls);
  }

  /** The calls and the text of a reply can be read off its blocks. */
  lemma ReplyBlocksRead(codec: Codec, r: GroqReply)
    ensures var blocks := ToBlocks(ReplyBlocks(codec, r));
            && Calls(blocks) == ToBlocks(InBlocks(codec, r.calls))
            && NonEmpty(TextOf(blocks)) == if r.content == Some("") then None else r.content
  {
    var blocks := ToBlocks(ReplyBlocks(codec, r));
    var tools := ToBlocks(InBlocks(codec, r.calls));
    UsesOfInBlocks(codec, r.calls);
    if r.content.Some? && r.content.value != "" {
      ToBlocksCons(TextBlock(r.content.value), InBlocks(codec, r.calls));
      ProseFirst(r.content.value, tools);
    } else if r.calls == [] {
      ToBlocksCons(TextBlock(""), []);
      assert tools == [] && blocks == [Prose("")] + tools;
      ProseFirst("", tools);
    }
  }

  lemma ProseFirst(text: string, tools: seq<Block>)
    requires TextsOf(tools) == []
    ensures Calls([Prose(text)] + tools) == Calls(tools) && TextOf([Prose(text)] + tools) == text
  {
    var blocks := [Prose(text)] + tools;
    assert blocks[1..] == tools;
    assert TextsOf(blocks) == [text];
  }
}
