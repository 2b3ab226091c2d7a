/** The router: a bounded agentic loop around a model, tools, a gate and a store that may all fail. */
module Router {
  import opened Common
  import opened Wire
  import opened Window
  import opened ToolState
  import opened SqlStore
  import Simulation
  import Text

  // The world outside

  datatype ModelOutcome = Replied(reply: Reply) | QuotaExceeded(retryAfter: Option<real>) | Unavailable

  /** What a tool may do to the switch table; there is no other way to it than the store's two. */
  datatype TableOp = SwitchOff(name: string, reason: string, at: real) | SwitchOn(name: string)

  /** A tool returns a text or raises, after any number of operations on the switch table. */
  datatype ToolOutcome = ToolOutcome(switches: seq<TableOp>, output: Option<string>, error: string)

  /** An append is done, or raises: before its insert is committed, or in its pass, after so many deletes. */
  datatype WriteOutcome = Stored | Rejected | CutShort(deletes: nat)

  /** What the router was seen doing, in order. */
  datatype Event =
    | GateRead(answer: Option<set<string>>)
    | Asked(offered: Option<seq<string>>)
    | Ran(name: string, input: Arguments, off: set<string>, output: Option<string>, error: string)
    | Refused(name: string)
    | Unknown(name: string)

  /** Everything the router talks to. The n-th call gets the n-th outcome, whatever it asks. */
  class Environment {
    const model: nat -> ModelOutcome
    const tool: nat -> ToolOutcome
    const gateAnswers: nat -> bool
    const storeReads: nat -> bool
    const storeWrites: nat -> WriteOutcome
    const gate: ToolStateStore
    var calls: nat
    ghost var requests: seq<seq<Message>>
    ghost var outcomes: seq<ModelOutcome>
    ghost var events: seq<Event>

    constructor (model: nat -> ModelOutcome, tool: nat -> ToolOutcome, gateAnswers: nat -> bool,
                 storeReads: nat -> bool, storeWrites: nat -> WriteOutcome, gate: ToolStateStore)
      ensures this.model == model && this.tool == tool && this.gateAnswers == gateAnswers
      ensures this.storeReads == storeReads && this.storeWrites == storeWrites && this.gate == gate
      ensures requests == [] && outcomes == [] && events == []
    {
      this.model, this.tool, this.gateAnswers := model, tool, gateAnswers;
      this.storeReads, this.storeWrites, this.gate := storeReads, storeWrites, gate;
      calls, requests, outcomes, events := 0, [], [], [];
    }

    method Complete(messages: seq<Message>, offered: Option<seq<string>>) returns (outcome: ModelOutcome)
      modifies this
      ensures requests == old(requests) + [messages] && outcomes == old(outcomes) + [outcome]
      ensures events == old(events) + [Asked(offered)]
    {
      outcome := model(calls);
      requests, outcomes := requests + [messages], outcomes + [outcome];
      events, calls := events + [Asked(offered)], calls + 1;
    }

    /** The names that are off right now, or nothing when the gate cannot say. */
    method Disabled() returns (answer: Option<set<string>>)
      modifies this`events, this`calls
      ensures answer.Some? ==> answer.value == gate.table.Keys
      ensures events == old(events) + [GateRead(answer)]
    {
      if gateAnswers(calls) {
        var names := gate.Disabled();
        answer := Some(names);
      } else {
        answer := None;
      }
      events, calls := events + [GateRead(answer)], calls + 1;
    }

    method RunTool(name: string, input: Arguments) returns (output: Option<string>, error: string)
      requires gate.Valid()
      modifies this`events, this`calls, gate
      ensures gate.Valid()
      ensures events == old(events) + [Ran(name, input, old(gate.table.Keys), output, error)]
    {
      var outcome := tool(calls);
      output, error := outcome.output, outcome.error;
      events, calls := events + [Ran(name, input, gate.table.Keys, output, error)], calls + 1;
      for i := 0 to |outcome.switches|
        invariant gate.Valid() && events == old(events) + [Ran(name, input, old(gate.table.Keys), output, error)]
      {
        match outcome.switches[i] {
          case SwitchOff(tool, reason, at) => var _ := gate.Disable(tool, reason, at);
          case SwitchOn(tool) => var _ := gate.Enable(tool);
        }
      }
    }

    ghost method Note(e: Event)
      modifies this`events
      ensures events == old(events) + [e]
    {
      events := events + [e];
    }

    method StoreReadable() returns (ok: bool)
      modifies this`calls
      ensures ok == storeReads(old(calls))
    {
      ok := storeReads(calls);
      calls := calls + 1;
    }

    method NextWrite() returns (outcome: WriteOutcome)
      modifies this`calls
      ensures outcome == storeWrites(old(calls)) && calls == old(calls) + 1
    {
      outcome := storeWrites(calls);
      calls := calls + 1;
    }
  }

  // What the gate guarantees

  function Without(tools: seq<string>, off: set<string>): (r: seq<string>) {
    if tools == [] then [] else
    var last, before := tools[|tools| - 1], Without(tools[..|tools| - 1], off);
    if last in off then before else before + [last]
  }

  /** The tools that are on, each as often as it is registered and in the order of registration. */
  lemma {:induction false} WithoutIs(tools: seq<string>, off: set<string>)
    ensures InOrder(Without(tools, off), tools)
    ensures forall name :: multiset(Without(tools, off))[name] == if name in off then 0 else multiset(tools)[name]
  {
    if tools != [] {
      var n := |tools| - 1;
      WithoutIs(tools[..n], off);
      assert tools == tools[..n] + [tools[n]];
    }
  }

  lemma WithoutMember(tools: seq<string>, off: set<string>, name: string)
    ensures name in Without(tools, off) <==> name in tools && name !in off
  {
    WithoutIs(tools, off);
    assert name in Without(tools, off) <==> multiset(Without(tools, off))[name] > 0;
    assert name in tools <==> multiset(tools)[name] > 0;
  }

  /** The declarations for the model: none at all rather than an empty list. */
  function Offer(tools: seq<string>, off: set<string>): Option<seq<string>> {
    var offered := Without(tools, off);
    if offered == [] then None else Some(offered)
  }

  /** What the router takes a gate read to mean. */
  function SwitchedOffNames(read: Event): set<string>
    requires read.GateRead?
  {
    match read.answer case Some(names) => names case None => {}
  }

  /**
   * What must be true of the i-th event. A tool body runs only right after a gate read, and if the
   * read succeeded its name is not in the table at that moment. What is offered is what the read
   * just before left, and a protected tool is always among it and never refused.
   */
  predicate SafeAt(tools: seq<string>, gated: bool, events: seq<Event>, i: nat)
    requires i < |events|
  {
    match events[i]
    case GateRead(answer) => answer.Some? ==> answer.value !! PROTECTED
    case Asked(offered) =>
      && (gated ==> i > 0 && events[i - 1].GateRead? && offered == Offer(tools, SwitchedOffNames(events[i - 1])))
      && (!gated ==> offered == Offer(tools, {}))
      && (forall name :: name in PROTECTED && name in tools ==> offered.Some? && name in offered.value)
    case Ran(name, _, off, _, _) =>
      && name in tools
      && (gated ==> i > 0 && events[i - 1].GateRead? && (events[i - 1].answer.Some? ==> name !in off))
    case Refused(name) =>
      && gated && i > 0 && events[i - 1].GateRead? && name in SwitchedOffNames(events[i - 1])
      && name !in PROTECTED
    case Unknown(name) => name !in tools
  }

  ghost predicate AllSafe(tools: seq<string>, gated: bool, events: seq<Event>) {
    forall i :: 0 <= i < |events| ==> SafeAt(tools, gated, events, i)
  }

  lemma SafeGrows(tools: seq<string>, gated: bool, events: seq<Event>, e: Event)
    requires AllSafe(tools, gated, events) && SafeAt(tools, gated, events + [e], |events|)
    ensures AllSafe(tools, gated, events + [e])
  {
    forall i | 0 <= i < |events| ensures SafeAt(tools, gated, events + [e], i) {
      assert SafeAt(tools, gated, events, i);
    }
  }

  lemma ProtectedIsOffered(tools: seq<string>, off: set<string>)
    requires off !! PROTECTED
    ensures forall name :: name in PROTECTED && name in tools ==>
              Offer(tools, off).Some? && name in Offer(tools, off).value
  {
    forall name | name in PROTECTED && name in tools
      ensures Offer(tools, off).Some? && name in Offer(tools, off).value
    {
      WithoutMember(tools, off, name);
    }
  }

  /** A tool call was dealt with: run, refused or unknown. */
  predicate IsDeal(e: Event) {
    e.Ran? || e.Refused? || e.Unknown?
  }

  /** The tool calls dealt with so far, and what became of each, in order. */
  function Deals(events: seq<Event>): (r: seq<Event>)
    ensures forall i :: 0 <= i < |r| ==> IsDeal(r[i])
  {
    if events == [] then [] else
    var last, before := events[|events| - 1], Deals(events[..|events| - 1]);
    if IsDeal(last) then before + [last] else before
  }

  lemma DealsPush(events: seq<Event>, e: Event)
    ensures Deals(events + [e]) == if IsDeal(e) then Deals(events) + [e] else Deals(events)
  {
  }

  // Turns

  datatype Reason = QuotaExhausted | ModelUnreachable | EmptyAnswer | ToolLoopCeiling

  /** A turn's end: a genuine answer, or a fallback and why. */
  datatype Answer = Answer(text: string) | Degraded(reason: Reason)

  /** What one outcome of the model means for the turn; None when it asks for tools. */
  function Verdict(outcome: ModelOutcome): Option<Answer> {
    match outcome
    case QuotaExceeded(_) => Some(Degraded(QuotaExhausted))
    case Unavailable => Some(Degraded(ModelUnreachable))
    case Replied(reply) =>
      if reply.stopReason == Some("tool_use") && ToolUses(reply.blocks) != [] then None
      else if ReplyText(reply) == "" then Some(Degraded(EmptyAnswer))
      else Some(Answer(ReplyText(reply)))
  }

  /** Whether the model has to be asked again, with the answers to its calls. */
  predicate WantsTools(reply: Reply) {
    reply.stopReason == Some("tool_use") && exists i :: 0 <= i < |reply.blocks| && reply.blocks[i].ToolUseBlock?
  }

  /** Each kind of verdict, by what leads to it and nothing else does. */
  lemma VerdictIff(o: ModelOutcome)
    ensures Verdict(o) == Some(Degraded(QuotaExhausted)) <==> o.QuotaExceeded?
    ensures Verdict(o) == Some(Degraded(ModelUnreachable)) <==> o.Unavailable?
    ensures Verdict(o) == None <==> o.Replied? && WantsTools(o.reply)
    ensures Verdict(o) == Some(Degraded(EmptyAnswer)) <==>
            o.Replied? && !WantsTools(o.reply) && BlankTexts(o.reply.blocks)
    ensures o.Replied? && !WantsTools(o.reply) && !BlankTexts(o.reply.blocks) ==>
              Verdict(o) == Some(Answer(ReplyText(o.reply)))
    ensures Verdict(o) != Some(Degraded(ToolLoopCeiling))
  {
    if o.Replied? {
      ReplyTextEmptyIff(o.reply);
      SomeToolUses(o.reply.blocks);
    }
  }

  lemma {:induction false} SomeToolUses(blocks: seq<ReplyBlock>)
    ensures ToolUses(blocks) != [] <==> exists i :: 0 <= i < |blocks| && blocks[i].ToolUseBlock?
  {
    if blocks != [] {
      SomeToolUses(blocks[1..]);
      assert forall i :: 0 < i < |blocks| ==> blocks[i] == blocks[1..][i - 1];
    }
  }

  /** A reply that says one thing, and does not stop for a tool, is answered with it and nothing else. */
  lemma OneTextIsTheAnswer(before: seq<ReplyBlock>, left: string, t: string, right: string, after: seq<ReplyBlock>,
                           stop: Option<string>)
    requires AllTools(before) && AllTools(after)
    requires !WantsTools(Reply(before + [TextBlock(left + t + right)] + after, stop))
    requires Text.Blank(left) && Text.Blank(right) && Text.Trimmed(t) && t != ""
    ensures Verdict(Replied(Reply(before + [TextBlock(left + t + right)] + after, stop))) == Some(Answer(t))
  {
    OneText(before, left, t, right, after, stop);
    SomeToolUses(before + [TextBlock(left + t + right)] + after);
  }

  /** The last outcome decides the turn, and only tool requests come before it. */
  predicate Decides(outcomes: seq<ModelOutcome>, base: nat, max: int, answer: Answer) {
    && base <= |outcomes|
    && (forall i :: base <= i < |outcomes| - 1 ==> Verdict(outcomes[i]).None?)
    && if base < |outcomes| && Verdict(outcomes[|outcomes| - 1]).Some?
       then answer == Verdict(outcomes[|outcomes| - 1]).value
       else answer == Degraded(ToolLoopCeiling) && |outcomes| - base == if max > 0 then max else 0
  }

  datatype Turn = Turn(conv: string, question: string, answer: Answer)

  /** The exchanges of one conversation that ended in a genuine answer, in order. */
  function Exchanges(turns: seq<Turn>, conv: string): seq<Exchange> {
    if turns == [] then [] else
    var last, before := turns[|turns| - 1], Exchanges(turns[..|turns| - 1], conv);
    if last.conv == conv && last.answer.Answer?
    then before + [Exchange(last.question, last.answer.text)] else before
  }

  function DegradedCount(turns: seq<Turn>): nat {
    if turns == [] then 0 else
    DegradedCount(turns[..|turns| - 1]) + if turns[|turns| - 1].answer.Degraded? then 1 else 0
  }

  function LastReason(turns: seq<Turn>): Option<Reason> {
    if turns == [] then None else
    match turns[|turns| - 1].answer
    case Degraded(reason) => Some(reason)
    case Answer(_) => LastReason(turns[..|turns| - 1])
  }

  /** One for each turn that ended in a fallback. */
  lemma {:induction false} DegradedCounts(turns: seq<Turn>)
    ensures DegradedCount(turns) == |set i | 0 <= i < |turns| && turns[i].answer.Degraded?|
  {
    var those := set i | 0 <= i < |turns| && turns[i].answer.Degraded?;
    if turns != [] {
      var n := |turns| - 1;
      var before := set i | 0 <= i < n && turns[..n][i].answer.Degraded?;
      DegradedCounts(turns[..n]);
      assert those == before + (if turns[n].answer.Degraded? then {n} else {});
    }
  }

  /** The reason is that of the latest turn that ended in one. */
  lemma {:induction false} LastReasonIs(turns: seq<Turn>, i: nat)
    requires i < |turns| && turns[i].answer.Degraded? && forall j :: i < j < |turns| ==> turns[j].answer.Answer?
    ensures LastReason(turns) == Some(turns[i].answer.reason)
  {
    if i < |turns| - 1 { LastReasonIs(turns[..|turns| - 1], i); }
  }

  class TurnStats {
    var turns: nat
    var degraded: nat
    var lastReason: Option<Reason>

    /** The counts are those of these turns. */
    ghost predicate Tallies(all: seq<Turn>)
      reads this
    {
      turns == |all| && degraded == DegradedCount(all) && lastReason == LastReason(all)
    }

    constructor ()
      ensures turns == 0 && degraded == 0 && lastReason == None
    {
      turns, degraded, lastReason := 0, 0, None;
    }

    /** Bring the tallies up to date with one more turn. */
    method Record(reason: Option<Reason>, ghost before: seq<Turn>, ghost t: Turn)
      requires Tallies(before) && reason == (match t.answer case Degraded(why) => Some(why) case Answer(_) => None)
      modifies this
      ensures Tallies(before + [t])
    {
      TallyPush(before, t);
      turns := turns + 1;
      if reason.None? { return; }
      degraded := degraded + 1;
      lastReason := reason;
    }
  }

  class Router {
    const tools: seq<string>
    const gated: bool
    const maxToolIterations: int
    const env: Environment
    const memory: SqliteConversationMemory
    const stats: TurnStats
    /** The table the router started with, whatever an earlier process left in it. */
    ghost const start: Table
    /** Every turn handled so far. */
    ghost var turns: seq<Turn>
    /** Whether an append has raised in any of them. */
    ghost var writeFailed: bool
    /** Whether no pass has stopped half-way, over a table that was in order at the start. */
    ghost var orderly: bool

    ghost predicate Valid()
      reads this, env`events, env`requests, env`outcomes, env.gate, memory, stats
    {
      && Guarded() && |env.outcomes| == |env.requests|
      && memory.Valid() && stats.Tallies(turns) && Keeps(turns)
    }

    /** The table is in order, and remembers these turns, unless a failing append is in the way. */
    ghost predicate Keeps(all: seq<Turn>)
      reads this`orderly, this`writeFailed, memory`table
    {
      && (orderly ==> AllUserFirst(memory.table))
      && (!writeFailed ==> Remembers(memory.maxMessages, start, memory.table, all))
    }

    constructor (tools: seq<string>, gated: bool, maxToolIterations: int,
                 env: Environment, memory: SqliteConversationMemory)
      requires env.gate.Valid() && env.events == [] && env.requests == [] && env.outcomes == [] && memory.Valid()
      ensures Valid() && turns == [] && !writeFailed && (orderly <==> AllUserFirst(memory.table))
      ensures this.tools == tools && this.gated == gated && this.maxToolIterations == maxToolIterations
      ensures this.env == env && this.memory == memory && start == memory.table
    {
      this.tools, this.gated, this.maxToolIterations := tools, gated, maxToolIterations;
      this.env, this.memory, start := env, memory, memory.table;
      stats := new TurnStats();
      turns, writeFailed, orderly := [], false, AllUserFirst(memory.table);
    }

    /** The gate has been respected so far. */
    ghost predicate Guarded()
      reads this, env`events, env.gate
    {
      env.gate.Valid() && AllSafe(tools, gated, env.events)
    }

    /** What is off, with a gate that cannot answer taken to mean that nothing is. */
    method SwitchedOff() returns (off: set<string>)
      requires Guarded()
      modifies env`events, env`calls
      ensures Guarded() && Deals(env.events) == Deals(old(env.events))
      ensures off !! PROTECTED
      ensures !gated ==> off == {} && env.events == old(env.events)
      ensures gated ==>
                && |env.events| == |old(env.events)| + 1
                && env.events[|env.events| - 1].GateRead?
                && off == SwitchedOffNames(env.events[|env.events| - 1])
                && off == if env.events[|env.events| - 1].answer.Some? then env.gate.table.Keys else {}
    {
      if !gated {
        return {};
      }
      var answer := env.Disabled();
      SafeGrows(tools, gated, old(env.events), GateRead(answer));
      DealsPush(old(env.events), GateRead(answer));
      off := match answer case Some(names) => names case None => {};
    }

    /** Refuse, run or fail to find what one call names; the answer goes under the id of that call. */
    method ExecuteTool(callId: string, name: string, input: Arguments) returns (result: Block, ghost deal: Event)
      requires Guarded()
      modifies env`events, env`calls, env.gate
      ensures Guarded() && Deals(env.events) == Deals(old(env.events)) + [deal]
      ensures result.ToolResult? && result.toolUseId == callId && ResultOf(deal, name, input, result)
    {
      var off := SwitchedOff();
      ghost var events, table := env.events, env.gate.table.Keys;
      if name in off {
        env.Note(Refused(name));
        result := ToolResult(callId, SwitchedOffText(name), true);
      } else if name !in tools {
        env.Note(Unknown(name));
        result := ToolResult(callId, "unknown tool: " + name, true);
      } else {
        var output, error := env.RunTool(name, input);
        result := match output
                  case Some(text) => ToolResult(callId, text, false)
                  case None => ToolResult(callId, "tool error: " + error, true);
      }
      deal := env.events[|events|];
      assert env.events == events + [deal];
      SafeGrows(tools, gated, events, deal);
      DealsPush(events, deal);
    }

    /** Deal with every call of a reply once, in order, and answer it with what became of it. */
    method ExecuteAll(uses: seq<ReplyBlock>) returns (results: seq<Block>, ghost deals: seq<Event>)
      requires Guarded()
      requires forall i :: 0 <= i < |uses| ==> uses[i].ToolUseBlock?
      modifies env`events, env`calls, env.gate
      ensures Guarded() && Deals(env.events) == Deals(old(env.events)) + deals
      ensures Tells(deals, uses, results)
    {
      results, deals := [], [];
      ConcatNil(Deals(env.events));
      for i := 0 to |uses|
        invariant Guarded() && Deals(env.events) == Deals(old(env.events)) + deals
        invariant Tells(deals, uses[..i], results)
      {
        var result, deal := ExecuteTool(uses[i].id, uses[i].name, uses[i].input);
        Concat(Deals(old(env.events)), deals, [deal]);
        TellsPush(deals, uses, results, i, deal, result);
        results, deals := results + [result], deals + [deal];
      }
      assert uses[..|uses|] == uses;
    }

    /** Put the messages to the model, with the tools that are not switched off right now. */
    method Ask(messages: seq<Message>) returns (outcome: ModelOutcome)
      requires Guarded()
      modifies env
      ensures Guarded() && Deals(env.events) == Deals(old(env.events))
      ensures env.requests == old(env.requests) + [messages] && env.outcomes == old(env.outcomes) + [outcome]
    {
      var off := SwitchedOff();
      var offered := Offer(tools, off);
      ghost var events := env.events;
      outcome := env.Complete(messages, offered);
      ProtectedIsOffered(tools, off);
      SafeGrows(tools, gated, events, Asked(offered));
      DealsPush(events, Asked(offered));
    }

    /** Replay a reply that asks for tools, and answer it with what became of each call. */
    method RunTools(reply: Reply) returns (asked: Message, answered: Message, ghost deals: seq<Event>)
      requires Guarded() && ToolUses(reply.blocks) != []
      modifies env`events, env`calls, env.gate
      ensures Guarded() && Deals(env.events) == Deals(old(env.events)) + deals
      ensures asked == Message(Assistant, Blocks(ToBlocks(reply.blocks))) && IsRound(asked, answered)
      ensures AnswersWith(deals, reply, answered)
    {
      asked := ToAssistantMessage(reply);
      var results;
      results, deals := ExecuteAll(ToolUses(reply.blocks));
      answered := Message(User, Blocks(results));
      TellsAnswers(deals, ToolUses(reply.blocks), results);
      CallsOfReply(reply.blocks);
    }

    /** One round: ask, and either the turn is decided, or the calls are dealt with and answered. */
    method Round(ghost h: History, ghost question: string, ghost base: nat, ghost earlier: seq<seq<Event>>,
                 messages: seq<Message>)
      returns (verdict: Option<Answer>, next: seq<Message>, ghost rounds: seq<seq<Event>>)
      requires Guarded() && InTurn(h, question, base, env.requests, env.outcomes, earlier, messages)
      modifies env, env.gate
      ensures Guarded() && env.requests == old(env.requests) + [messages]
      ensures |env.outcomes| == |env.requests| && verdict == Verdict(env.outcomes[|env.outcomes| - 1])
      ensures forall i :: base <= i < |env.outcomes| - 1 ==> Verdict(env.outcomes[i]).None?
      ensures Shown(h, question, base, env.requests) && Replayed(base, env.requests, env.outcomes, rounds)
      ensures verdict.Some? ==> rounds == earlier && Deals(env.events) == Deals(old(env.events))
      ensures verdict.None? ==>
                && InTurn(h, question, base, env.requests, env.outcomes, rounds, next)
                && |rounds| == |earlier| + 1 && rounds == earlier + [rounds[|earlier|]]
                && Deals(env.events) == Deals(old(env.events)) + rounds[|earlier|]
    {
      ghost var requests, outcomes := env.requests, env.outcomes;
      next, rounds := messages, earlier;
      var outcome := Ask(messages);
      AskingShows(h, question, base, requests, outcomes, earlier, messages, outcome);
      match outcome {
        case QuotaExceeded(_) => verdict := Some(Degraded(QuotaExhausted));
        case Unavailable => verdict := Some(Degraded(ModelUnreachable));
        case Replied(reply) =>
          if reply.stopReason != Some("tool_use") || ToolUses(reply.blocks) == [] {
            var text := ReplyText(reply);
            verdict := Some(if text == "" then Degraded(EmptyAnswer) else Answer(text));
          } else {
            var asked, answered, deals := RunTools(reply);
            RoundContinues(h, question, base, requests, outcomes, earlier, messages, outcome, asked, answered, deals);
            verdict, next, rounds := None, messages + [asked] + [answered], earlier + [deals];
          }
      }
    }

    /** Rounds of asking the model and answering its calls, up to the ceiling. */
    method RunAgenticLoop(ghost h: History, ghost question: string, opening: seq<Message>)
      returns (answer: Answer, ghost rounds: seq<seq<Event>>)
      requires Guarded() && |env.outcomes| == |env.requests|
      requires IsTranscript(h, question, 0, opening)
      modifies env, env.gate
      ensures Guarded() && |env.outcomes| == |env.requests|
      ensures old(env.requests) <= env.requests
      ensures |env.requests| - |old(env.requests)| <= if maxToolIterations > 0 then maxToolIterations else 0
      ensures Shown(h, question, |old(env.requests)|, env.requests)
      ensures Replayed(|old(env.requests)|, env.requests, env.outcomes, rounds)
      ensures Deals(env.events) == Deals(old(env.events)) + Flatten(rounds)
      ensures Decides(env.outcomes, |old(env.outcomes)|, maxToolIterations, answer)
    {
      ghost var base := |env.requests|;
      var messages := opening;
      var iteration := 0;
      rounds := [];
      ConcatNil(Deals(env.events));
      while iteration < maxToolIterations
        invariant Guarded()
        invariant 0 <= iteration && (iteration == 0 || iteration <= maxToolIterations)
        invariant |env.requests| == base + iteration && old(env.requests) <= env.requests
        invariant InTurn(h, question, base, env.requests, env.outcomes, rounds, messages)
        invariant Deals(env.events) == Deals(old(env.events)) + Flatten(rounds)
        decreases maxToolIterations - iteration
      {
        ghost var dealt := rounds;
        var verdict;
        verdict, messages, rounds := Round(h, question, base, rounds, messages);
        if verdict.Some? { return verdict.value, rounds; }
        FlattenPush(dealt, rounds[|dealt|]);
        Concat(Deals(old(env.events)), Flatten(dealt), rounds[|dealt|]);
        iteration := iteration + 1;
      }
      return Degraded(ToolLoopCeiling), rounds;
    }

    /** Read what is remembered, if the store lets us, and put the question to the model. */
    method Consult(conv: string, question: string)
      returns (answer: Answer, ghost h: History, ghost rounds: seq<seq<Event>>)
      requires Guarded() && |env.outcomes| == |env.requests| && memory.Valid()
      modifies env, env.gate
      ensures Guarded() && old(env.requests) <= env.requests
      ensures Consulted(h, question, |old(env.requests)|, env.requests, env.outcomes, rounds,
                        maxToolIterations, answer)
      ensures Deals(env.events) == Deals(old(env.events)) + Flatten(rounds)
      ensures h == HistoryOf(memory.table, conv) || h == []
      ensures (forall n :: env.storeReads(n)) ==> h == HistoryOf(memory.table, conv)
    {
      var history := [];
      var readable := env.StoreReadable();
      if readable {
        ghost var rows;
        history, rows := memory.GetHistory(conv);
      }
      h := history;
      var messages := PlainMessages(history) + [Message(User, Plain(question))];
      OpeningIsTranscript(h, question);
      ghost var base := |env.requests|;
      answer, rounds := RunAgenticLoop(h, question, messages);
      ShownOpensWithUser(h, question, base, env.requests);
    }

    /** Run one full turn; a failing store costs memory, never the answer. */
    method Handle(conv: string, question: string)
      returns (answer: Answer, ghost h: History, ghost rounds: seq<seq<Event>>, ghost at: nat)
      requires Valid()
      modifies this, env, env.gate, memory, stats
      ensures Valid()
      ensures turns == old(turns) + [Turn(conv, question, answer)]
      // every message list shown to the model in this turn, and what the turn made of the replies
      ensures old(env.requests) <= env.requests
      ensures Consulted(h, question, |old(env.requests)|, env.requests, env.outcomes, rounds,
                        maxToolIterations, answer)
      ensures Deals(env.events) == Deals(old(env.events)) + Flatten(rounds)
      ensures h == HistoryOf(old(memory.table), conv) || h == []
      ensures (forall n :: env.storeReads(n)) ==> h == HistoryOf(old(memory.table), conv)
      // they open with a user message, crashes of earlier processes and failing writes of this one included
      ensures old(orderly) ==> UserFirst(h)
      ensures (forall n :: Whole(env.storeWrites(n))) ==> orderly == old(orderly)
      // a degraded turn leaves no trace in the memory
      ensures answer.Degraded? ==> memory.table == old(memory.table)
      // an answered one is filed whole, or cut short where an append raises
      ensures answer.Answer? ==> FiledFrom(old(memory.table), Turn(conv, question, answer), at)
      ensures answer.Degraded? || (forall n :: env.storeWrites(n).Stored?) ==> writeFailed == old(writeFailed)
    {
      answer, h, rounds := Consult(conv, question);
      at := env.calls;
      Settle(Turn(conv, question, answer));
    }

    /** The table is what filing the turn makes of `before`, with the outcomes the two appends get from `at` on. */
    ghost predicate FiledFrom(before: Table, t: Turn, at: nat)
      requires t.answer.Answer?
      reads memory`table
    {
      memory.table == Filed(memory.maxMessages, before, t.conv, t.question, t.answer.text,
                            env.storeWrites(at), env.storeWrites(at + 1))
    }

    /** Count a finished turn, and remember it if it ended in an answer. */
    method Settle(t: Turn)
      requires memory.Valid() && stats.Tallies(turns) && Keeps(turns)
      modifies this, env`calls, memory, stats
      ensures turns == old(turns) + [t]
      ensures memory.Valid() && stats.Tallies(turns) && Keeps(turns)
      ensures (forall n :: Whole(env.storeWrites(n))) ==> orderly == old(orderly)
      ensures t.answer.Degraded? ==> memory.table == old(memory.table)
      ensures t.answer.Answer? ==> FiledFrom(old(memory.table), t, old(env.calls))
      ensures t.answer.Degraded? || (forall n :: env.storeWrites(n).Stored?) ==> writeFailed == old(writeFailed)
    {
      ghost var before := turns;
      turns := turns + [t];
      match t.answer {
        case Degraded(reason) =>
          stats.Record(Some(reason), before, t);
          DegradedKeepsMemory(memory.maxMessages, start, memory.table, before, t);
        case Answer(_) =>
          stats.Record(None, before, t);
          Remember(t, before);
      }
    }

    /** File an answered exchange, and note what a failing append costs. */
    method Remember(t: Turn, ghost before: seq<Turn>)
      requires t.answer.Answer? && memory.Valid() && Keeps(before)
      modifies this`orderly, this`writeFailed, env`calls, memory
      ensures memory.Valid() && Keeps(before + [t])
      ensures FiledFrom(old(memory.table), t, old(env.calls))
      ensures (forall n :: Whole(env.storeWrites(n))) ==> orderly == old(orderly)
      ensures (forall n :: env.storeWrites(n).Stored?) ==> writeFailed == old(writeFailed)
    {
      ghost var table, first, second := memory.table, env.storeWrites(env.calls), env.storeWrites(env.calls + 1);
      var stored := AppendBoth(t.conv, t.question, t.answer.text);
      orderly := orderly && Whole(first) && Whole(second);
      writeFailed := writeFailed || !stored;
      if orderly { FiledKeepsOrder(memory.maxMessages, table, t.conv, t.question, t.answer.text, first, second); }
      if !writeFailed { AnswerExtendsMemory(memory.maxMessages, start, table, before, t); }
    }

    /** Two appends, either of which may raise. */
    method AppendBoth(conv: string, question: string, text: string) returns (stored: bool)
      requires memory.Valid()
      modifies env`calls, memory
      ensures memory.Valid()
      ensures stored <==> env.storeWrites(old(env.calls)).Stored? && env.storeWrites(old(env.calls) + 1).Stored?
      ensures memory.table == Filed(memory.maxMessages, old(memory.table), conv, question, text,
                                    env.storeWrites(old(env.calls)), env.storeWrites(old(env.calls) + 1))
    {
      stored := Append(conv, StoredMessage(User, question));
      if stored {
        stored := Append(conv, StoredMessage(Assistant, text));
      }
    }

    /** One append, with what becomes of it. */
    method Append(conv: string, message: StoredMessage) returns (stored: bool)
      requires memory.Valid()
      modifies env`calls, memory
      ensures memory.Valid() && env.calls == old(env.calls) + 1
      ensures stored <==> env.storeWrites(old(env.calls)).Stored?
      ensures memory.table
           == Appended(memory.maxMessages, old(memory.table), conv, message, env.storeWrites(old(env.calls)))
    {
      var outcome := env.NextWrite();
      stored := outcome.Stored?;
      match outcome {
        case Stored => memory.Append(conv, message);
        case Rejected =>
        case CutShort(deletes) => memory.AppendCut(conv, message, deletes);
      }
    }
  }

  // What a turn leaves in the store

  /** No pass of the store stopped half-way. */
  predicate Whole(outcome: WriteOutcome) {
    outcome.CutShort? ==> outcome.deletes == 0
  }

  /** The table after an append with this outcome; what the store does is what `Simulation` says. */
  function Appended(max: nat, t: Table, conv: string, message: StoredMessage, outcome: WriteOutcome): Table {
    match outcome
    case Stored => Simulation.SqlStep(max, t, Simulation.Append(conv, message))
    case Rejected => t
    case CutShort(deletes) => Simulation.SqlStep(max, t, Simulation.AppendCut(conv, message, deletes))
  }

  /** The question is appended, and the answer after it unless that raised. */
  function Filed(max: nat, t: Table, conv: string, question: string, text: string,
                 first: WriteOutcome, second: WriteOutcome): Table {
    var asked := Appended(max, t, conv, StoredMessage(User, question), first);
    if first.Stored? then Appended(max, asked, conv, StoredMessage(Assistant, text), second) else asked
  }

  /** The model could be shown every history in the table. */
  ghost predicate AllUserFirst(t: Table) {
    forall conv :: UserFirst(HistoryOf(t, conv))
  }

  /** What an append makes of its conversation's history. */
  function AppendedHistory(max: nat, h: History, message: StoredMessage, outcome: WriteOutcome): History {
    match outcome
    case Stored => Prune(max, h + [message])
    case Rejected => h
    case CutShort(deletes) => Tear(max, h + [message], deletes)
  }

  lemma AppendedTouchesOne(max: nat, t: Table, conv: string, message: StoredMessage, outcome: WriteOutcome)
    requires WellFormed(t)
    ensures var t' := Appended(max, t, conv, message, outcome);
            && WellFormed(t')
            && HistoryOf(t', conv) == AppendedHistory(max, HistoryOf(t, conv), message, outcome)
            && forall other :: other != conv ==> HistoryOf(t', other) == HistoryOf(t, other)
  {
    if !outcome.Rejected? {
      var e := if outcome.Stored? then Simulation.Append(conv, message)
               else Simulation.AppendCut(conv, message, outcome.deletes);
      Simulation.StepIsHeard(max, t, e);
      forall other | other != conv
        ensures HistoryOf(Appended(max, t, conv, message, outcome), other) == HistoryOf(t, other)
      {
        Simulation.StepIsLocal(max, t, e, other);
      }
      Simulation.StepIsLocal(max, t, e, conv);
    }
  }

  /** A question in front of an answer: whatever raises, a user message stays in front of the history. */
  lemma FiledHistory(max: nat, h: History, question: string, text: string, first: WriteOutcome, second: WriteOutcome)
    requires 1 <= max && UserFirst(h) && Whole(first) && Whole(second)
    ensures var asked := AppendedHistory(max, h, StoredMessage(User, question), first);
            && UserFirst(asked)
            && (first.Stored? ==> UserFirst(AppendedHistory(max, asked, StoredMessage(Assistant, text), second)))
  {
    if first.Stored? { Simulation.PruneKeepsQuestion(max, h + [StoredMessage(User, question)]); }
  }

  lemma AppendedKeepsOrder(max: nat, t: Table, conv: string, message: StoredMessage, outcome: WriteOutcome)
    requires WellFormed(t) && AllUserFirst(t)
    requires UserFirst(AppendedHistory(max, HistoryOf(t, conv), message, outcome))
    ensures AllUserFirst(Appended(max, t, conv, message, outcome))
  {
    AppendedTouchesOne(max, t, conv, message, outcome);
    var t' := Appended(max, t, conv, message, outcome);
    forall other ensures UserFirst(HistoryOf(t', other)) {
      assert UserFirst(HistoryOf(t, other));
    }
  }

  lemma FiledKeepsOrder(max: nat, t: Table, conv: string, question: string, text: string,
                        first: WriteOutcome, second: WriteOutcome)
    requires 1 <= max && WellFormed(t) && AllUserFirst(t) && Whole(first) && Whole(second)
    ensures AllUserFirst(Filed(max, t, conv, question, text, first, second))
  {
    var ask, reply := StoredMessage(User, question), StoredMessage(Assistant, text);
    FiledHistory(max, HistoryOf(t, conv), question, text, first, second);
    AppendedKeepsOrder(max, t, conv, ask, first);
    if first.Stored? {
      AppendedTouchesOne(max, t, conv, ask, first);
      AppendedKeepsOrder(max, Appended(max, t, conv, ask, first), conv, reply, second);
    }
  }

  /** The requests from `base` on are the growing transcript of one turn. */
  ghost predicate Shown(h: History, question: string, base: nat, requests: seq<seq<Message>>) {
    base <= |requests| &&
    forall i :: base <= i < |requests| ==> IsTranscript(h, question, i - base, requests[i])
  }

  /** The next request is the last one, the reply it got replayed verbatim, and what became of its calls. */
  predicate Replays(request: seq<Message>, outcome: ModelOutcome, deals: seq<Event>, next: seq<Message>) {
    && outcome.Replied?
    && |next| == |request| + 2 && request <= next
    && next[|request|] == Message(Assistant, Blocks(ToBlocks(outcome.reply.blocks)))
    && AnswersWith(deals, outcome.reply, next[|request| + 1])
  }

  /** In each round these are the calls of the reply as they were dealt with, and the next request tells it. */
  ghost predicate Replayed(base: nat, requests: seq<seq<Message>>, outcomes: seq<ModelOutcome>, rounds: seq<seq<Event>>)
    requires base <= |requests| == |outcomes|
  {
    && |requests| - 1 - base <= |rounds| <= |requests| - base
    && (forall k :: 0 <= k < |rounds| ==> outcomes[base + k].Replied? && DealsWith(rounds[k], outcomes[base + k].reply))
    && (forall k :: 0 <= k < |requests| - 1 - base ==>
          Replays(requests[base + k], outcomes[base + k], rounds[k], requests[base + k + 1]))
  }

  /**
   * How one turn consulted the model: at most `max` times, each time with a transcript that extends
   * the last one by the reply it got and the answers to it. It opens with a user message if the
   * history read does, and only then.
   */
  ghost predicate Consulted(h: History, question: string, base: nat, requests: seq<seq<Message>>,
                            outcomes: seq<ModelOutcome>, rounds: seq<seq<Event>>, max: int, answer: Answer)
  {
    && base <= |requests| == |outcomes|
    && |requests| - base <= (if max > 0 then max else 0)
    && Shown(h, question, base, requests)
    && (forall i :: base <= i < |requests| ==> (OpensWithUser(requests[i]) <==> UserFirst(h)))
    && Replayed(base, requests, outcomes, rounds)
    && Decides(outcomes, base, max, answer)
  }

  /** Between two rounds: `messages` is what the model will be shown next. */
  ghost predicate InTurn(h: History, question: string, base: nat, requests: seq<seq<Message>>,
                         outcomes: seq<ModelOutcome>, rounds: seq<seq<Event>>, messages: seq<Message>)
  {
    && base <= |requests| == |outcomes| && |rounds| == |requests| - base
    && IsTranscript(h, question, |requests| - base, messages)
    && Shown(h, question, base, requests) && Replayed(base, requests, outcomes, rounds)
    && (base < |requests| ==>
          Replays(requests[|requests| - 1], outcomes[|requests| - 1], rounds[|rounds| - 1], messages))
    && (forall i :: base <= i < |outcomes| ==> Verdict(outcomes[i]).None?)
  }

  lemma AskingShows(h: History, question: string, base: nat, requests: seq<seq<Message>>,
                    outcomes: seq<ModelOutcome>, rounds: seq<seq<Event>>, messages: seq<Message>,
                    outcome: ModelOutcome)
    requires InTurn(h, question, base, requests, outcomes, rounds, messages)
    ensures Shown(h, question, base, requests + [messages])
    ensures Replayed(base, requests + [messages], outcomes + [outcome], rounds)
    ensures forall i :: base <= i < |outcomes| ==> Verdict((outcomes + [outcome])[i]).None?
  {
  }

  lemma RoundContinues(h: History, question: string, base: nat, requests: seq<seq<Message>>,
                       outcomes: seq<ModelOutcome>, rounds: seq<seq<Event>>, messages: seq<Message>,
                       outcome: ModelOutcome, asked: Message, answered: Message, deals: seq<Event>)
    requires InTurn(h, question, base, requests, outcomes, rounds, messages)
    requires Verdict(outcome).None? && IsRound(asked, answered)
    requires outcome.Replied? && asked == Message(Assistant, Blocks(ToBlocks(outcome.reply.blocks)))
    requires AnswersWith(deals, outcome.reply, answered)
    ensures InTurn(h, question, base, requests + [messages], outcomes + [outcome], rounds + [deals],
                   messages + [asked] + [answered])
  {
    AskingShows(h, question, base, requests, outcomes, rounds, messages, outcome);
    TranscriptGrows(h, question, |requests| - base, messages, asked, answered);
  }

  /** The event is of this call. */
  predicate DealOf(e: Event, name: string, input: Arguments) {
    match e
    case Ran(n, given, _, _, _) => n == name && given == input
    case Refused(n) => n == name
    case Unknown(n) => n == name
    case _ => false
  }

  function SwitchedOffText(name: string): string {
    "lo strumento " + name + " e' disattivato: non posso usarlo finche' non viene riattivato"
  }

  /** What the model is told of a call is what became of it. */
  predicate ResultOf(e: Event, name: string, input: Arguments, result: Block)
    requires result.ToolResult?
  {
    && DealOf(e, name, input)
    && match e
       case Ran(_, _, _, Some(output), _) => !result.isError && result.content == output
       case Ran(_, _, _, None, error) => result.isError && result.content == "tool error: " + error
       case Refused(_) => result.isError && result.content == SwitchedOffText(name)
       case _ => result.isError && result.content == "unknown tool: " + name
  }

  /** The k-th event is what became of the k-th call, and the k-th result tells it under the id of that call. */
  predicate Tells(deals: seq<Event>, uses: seq<ReplyBlock>, results: seq<Block>) {
    && |deals| == |uses| == |results|
    && forall k :: 0 <= k < |results| ==>
         && uses[k].ToolUseBlock? && results[k].ToolResult? && results[k].toolUseId == uses[k].id
         && ResultOf(deals[k], uses[k].name, uses[k].input, results[k])
  }

  predicate AnswersWith(deals: seq<Event>, reply: Reply, answered: Message) {
    && answered.role == User && answered.content.Blocks?
    && Tells(deals, ToolUses(reply.blocks), answered.content.blocks)
  }

  predicate DealsWith(deals: seq<Event>, reply: Reply) {
    var uses := ToolUses(reply.blocks);
    && |deals| == |uses|
    && forall k :: 0 <= k < |deals| ==> DealOf(deals[k], uses[k].name, uses[k].input)
  }

  lemma TellsPush(deals: seq<Event>, uses: seq<ReplyBlock>, results: seq<Block>, i: nat, deal: Event, result: Block)
    requires i < |uses| && uses[i].ToolUseBlock? && Tells(deals, uses[..i], results)
    requires result.ToolResult? && result.toolUseId == uses[i].id
    requires ResultOf(deal, uses[i].name, uses[i].input, result)
    ensures Tells(deals + [deal], uses[..i + 1], results + [result])
  {
  }

  lemma TellsAnswers(deals: seq<Event>, uses: seq<ReplyBlock>, results: seq<Block>)
    requires Tells(deals, uses, results)
    ensures forall i :: 0 <= i < |uses| ==> ToBlocks(uses)[i].ToolUse?
    ensures Answers(results, ToBlocks(uses))
  {
    forall i | 0 <= i < |uses| ensures ToBlocks(uses)[i].ToolUse? && ToBlocks(uses)[i].id == uses[i].id {
      assert ToBlocks(uses)[i] == ToBlock(uses[i]) && uses[i].ToolUseBlock?;
    }
  }

  predicate OpensWithUser(messages: seq<Message>) {
    messages != [] && messages[0].role == User
  }

  /** What a conversation holds that held `h` before these exchanges. */
  function Remembered(max: nat, h: History, exchanges: seq<Exchange>): History {
    if exchanges == [] then h else Prune(max, h + Spoken(exchanges))
  }

  /** Every conversation holds the window of what it held at the start and what was said in it since. */
  ghost predicate Remembers(max: nat, start: Table, t: Table, turns: seq<Turn>) {
    forall conv :: HistoryOf(t, conv) == Remembered(max, HistoryOf(start, conv), Exchanges(turns, conv))
  }

  lemma TallyPush(turns: seq<Turn>, t: Turn)
    ensures DegradedCount(turns + [t]) == DegradedCount(turns) + if t.answer.Degraded? then 1 else 0
    ensures LastReason(turns + [t]) == match t.answer
                                       case Degraded(reason) => Some(reason)
                                       case Answer(_) => LastReason(turns)
  {
  }

  lemma ExchangesPush(turns: seq<Turn>, t: Turn)
    ensures forall conv :: Exchanges(turns + [t], conv) ==
              if t.conv == conv && t.answer.Answer?
              then Exchanges(turns, conv) + [Exchange(t.question, t.answer.text)] else Exchanges(turns, conv)
  {
  }

  lemma DegradedKeepsMemory(max: nat, start: Table, table: Table, turns: seq<Turn>, t: Turn)
    requires t.answer.Degraded?
    ensures Remembers(max, start, table, turns) ==> Remembers(max, start, table, turns + [t])
  {
  }

  /** One more exchange, message by message. */
  lemma RememberedPush(max: nat, h: History, exchanges: seq<Exchange>, e: Exchange)
    ensures Prune(max, Prune(max, Remembered(max, h, exchanges) + [StoredMessage(User, e.question)])
                       + [StoredMessage(Assistant, e.answer)])
         == Remembered(max, h, exchanges + [e])
  {
    var ask, reply, spoken := [StoredMessage(User, e.question)], [StoredMessage(Assistant, e.answer)], Spoken(exchanges);
    var before := if exchanges == [] then h else h + spoken;
    SpokenPush(exchanges, e);
    assert h + Spoken(exchanges + [e]) == before + ask + reply;
    PruneComposes(max, before, ask);
    PruneComposes(max, before + ask, reply);
  }

  lemma AnswerExtendsMemory(max: nat, start: Table, table: Table, turns: seq<Turn>, t: Turn)
    requires WellFormed(table) && t.answer.Answer? && Remembers(max, start, table, turns)
    ensures Remembers(max, start, Filed(max, table, t.conv, t.question, t.answer.text, Stored, Stored), turns + [t])
  {
    var ask, reply := StoredMessage(User, t.question), StoredMessage(Assistant, t.answer.text);
    ExchangesPush(turns, t);
    AppendedTouchesOne(max, table, t.conv, ask, Stored);
    AppendedTouchesOne(max, Appended(max, table, t.conv, ask, Stored), t.conv, reply, Stored);
    RememberedPush(max, HistoryOf(start, t.conv), Exchanges(turns, t.conv), Exchange(t.question, t.answer.text));
  }

  lemma OpeningIsTranscript(h: History, question: string)
    ensures IsTranscript(h, question, 0, PlainMessages(h) + [Message(User, Plain(question))])
  {
  }

  lemma TranscriptGrows(h: History, question: string, rounds: nat, messages: seq<Message>,
                        asked: Message, answered: Message)
    requires IsTranscript(h, question, rounds, messages) && IsRound(asked, answered)
    ensures IsTranscript(h, question, rounds + 1, messages + [asked] + [answered])
  {
    var n := |h| + 1;
    RoundsGrow(messages[n..], asked, answered);
    assert (messages + [asked] + [answered])[n..] == messages[n..] + [asked, answered];
  }

  lemma ShownOpensWithUser(h: History, question: string, base: nat, requests: seq<seq<Message>>)
    requires Shown(h, question, base, requests)
    ensures forall i :: base <= i < |requests| ==> (OpensWithUser(requests[i]) <==> UserFirst(h))
  {
  }

  /** What was off for the i-th event, as far as the router could know. */
  function OffAt(gated: bool, events: seq<Event>, i: nat): set<string>
    requires i < |events| && (gated ==> i > 0 && events[i - 1].GateRead?)
  {
    if gated then SwitchedOffNames(events[i - 1]) else {}
  }

  /**
   * The declarations are of exactly the registered tools that are on, once for each registration and
   * in that order, and there are none at all, rather than an empty list, when no tool is on.
   */
  ghost predicate Offers(offered: Option<seq<string>>, tools: seq<string>, off: set<string>) {
    && (offered.None? <==> forall name :: name in tools ==> name in off)
    && (offered.Some? ==>
          && InOrder(offered.value, tools)
          && forall name :: multiset(offered.value)[name] == if name in off then 0 else multiset(tools)[name])
  }

  lemma OfferOffers(tools: seq<string>, off: set<string>)
    ensures Offers(Offer(tools, off), tools, off)
  {
    var offered := Without(tools, off);
    WithoutIs(tools, off);
    forall name ensures name in offered <==> name in tools && name !in off {
      WithoutMember(tools, off, name);
    }
    if offered != [] { assert offered[0] in tools && offered[0] !in off; }
  }

  /**
   * The gate, over all events of all turns. Each offer and each call is preceded at once by a read of
   * its own. The model is offered exactly the registered tools that read left on; a tool runs only if
   * it is registered and on, unless that very read failed; and no protected tool is ever withheld.
   */
  lemma GateRespected(r: Router, i: nat)
    requires r.Valid() && i < |r.env.events|
    ensures var events, gated := r.env.events, r.gated;
            match events[i]
            case Asked(offered) =>
              && (gated ==> i > 0 && events[i - 1].GateRead?)
              && Offers(offered, r.tools, OffAt(gated, events, i))
              && forall name :: name in PROTECTED && name in r.tools ==> offered.Some? && name in offered.value
            case Ran(name, _, off, _, _) =>
              && name in r.tools
              && (gated ==> i > 0 && events[i - 1].GateRead? && (name in off ==> events[i - 1].answer.None?))
            case Refused(name) =>
              gated && i > 0 && events[i - 1].GateRead? && name in OffAt(gated, events, i) && name !in PROTECTED
            case Unknown(name) => name !in r.tools
            case GateRead(answer) => answer.Some? ==> answer.value !! PROTECTED
  {
    var events := r.env.events;
    assert SafeAt(r.tools, r.gated, events, i);
    if events[i].Asked? { OfferOffers(r.tools, OffAt(r.gated, events, i)); }
  }

  /** With a gate that always answers, no tool ever runs while it is off. */
  lemma NothingOffRuns(r: Router)
    requires r.Valid() && r.gated
    requires forall i :: 0 <= i < |r.env.events| && r.env.events[i].GateRead? ==> r.env.events[i].answer.Some?
    ensures forall i :: 0 <= i < |r.env.events| && r.env.events[i].Ran? ==>
              r.env.events[i].name !in r.env.events[i].off
  {
    forall i | 0 <= i < |r.env.events| && r.env.events[i].Ran?
      ensures r.env.events[i].name !in r.env.events[i].off
    {
      GateRespected(r, i);
    }
  }

  /** While no append raises, a conversation that was empty is exactly its last answered exchanges, in order. */
  lemma HistoryIsLastExchanges(r: Router, conv: string)
    requires r.Valid() && !r.writeFailed && HistoryOf(r.start, conv) == []
    ensures HistoryOf(r.memory.table, conv)
         == Spoken(LastOf(r.memory.maxMessages / 2, Exchanges(r.turns, conv)))
  {
    ConcatNil(Spoken(Exchanges(r.turns, conv)));
    PruneKeepsWholeExchanges(r.memory.maxMessages, Exchanges(r.turns, conv));
  }
}
