/** `RemoveTool` and `EnableTool`: switched off first, removed only an hour later. */
module Removal {
  import opened Common
  import opened Tasks
  import opened ToolState
  import Text

  const OPENING := "rimuovere del tutto lo strumento "
  const CLOSING := " dalla codebase"
  const CLEAR_ROW := ". Togliere anche la sua riga dalla tabella tool_state."

  /** The opening words that mark a request as the removal of this tool. */
  function Marker(name: string): string {
    OPENING + name + CLOSING
  }

  function RemovalRequest(name: string, reason: string): string {
    Marker(name) + (if reason != "" then " (" + reason + ")" else "") + CLEAR_ROW
  }

  /** The request names the tool in the words a removal is found by, then gives the reason if there is one. */
  predicate Carries(request: string, name: string, reason: string) {
    && Marker(name) <= request
    && (reason != "" ==> Marker(name) + " (" + reason + ")" <= request)
    && OPENING + name <= request
  }

  predicate NoBlank(name: string) {
    forall i :: 0 <= i < |name| ==> name[i] != ' '
  }

  lemma ClosingBlank(k: nat)
    ensures 0 < k < |CLOSING| && CLOSING[k] == ' ' ==> k == 6
  {
  }

  /** The closing words never begin inside themselves: two of them in a text do not overlap. */
  lemma ClosingsApart(text: string, i: nat, j: nat)
    requires i < j && j + |CLOSING| <= |text|
    requires text[i..i + |CLOSING|] == CLOSING && text[j..j + |CLOSING|] == CLOSING
    ensures i + |CLOSING| <= j
  {
    var d := j - i;
    assert text[j..j + |CLOSING|][0] == text[j] && text[j..j + |CLOSING|][1] == text[j + 1];
    assert d < |CLOSING| ==> text[i..i + |CLOSING|][d] == text[j];
    assert d + 1 < |CLOSING| ==> text[i..i + |CLOSING|][d + 1] == text[j + 1];
    ClosingBlank(d);
  }

  lemma CancelPrefix(p: string, x: string, y: string)
    ensures p + x <= p + y <==> x <= y
  {
    if p + x <= p + y {
      assert forall i :: 0 <= i < |x| ==> (p + x)[|p| + i] == x[i] && (p + y)[|p| + i] == y[i];
    }
  }

  lemma ClosedShorter(a: string, b: string, rest: string)
    requires |a| < |b| && a + CLOSING <= b + CLOSING + rest
    ensures a + CLOSING <= b
  {
    var x, y, n := a + CLOSING, b + CLOSING + rest, |CLOSING|;
    assert y[|a|..|a| + n] == x[|a|..|a| + n] == CLOSING && y[|b|..|b| + n] == CLOSING;
    ClosingsApart(y, |a|, |b|);
    assert b == y[..|b|] && x == y[..|x|];
  }

  lemma ClosedLonger(a: string, b: string, rest: string)
    requires |b| < |a| && a + CLOSING <= b + CLOSING + rest
    ensures b + CLOSING <= a && a[|b + CLOSING|..] + CLOSING <= rest
  {
    var x, y, n := a + CLOSING, b + CLOSING + rest, |CLOSING|;
    assert y[|a|..|a| + n] == x[|a|..|a| + n] == CLOSING && y[|b|..|b| + n] == CLOSING;
    ClosingsApart(y, |b|, |a|);
    var front := b + CLOSING;
    assert a == x[..|a|] == y[..|a|] && front == y[..|front|];
    assert a == front + a[|front|..];
    Concat(front, a[|front|..], CLOSING);
    CancelPrefix(front, a[|front|..] + CLOSING, rest);
  }

  /**
   * When a request for the removal of `b`, whatever follows its opening words, opens like one for `a`:
   * for the same tool, if `b` contains `a` and the closing words, or if `a` contains `b`, the closing
   * words and the beginning of what follows them.
   */
  lemma MarkersClashIff(a: string, b: string, rest: string)
    ensures Marker(a) <= Marker(b) + rest <==>
            || a == b
            || a + CLOSING <= b
            || (b + CLOSING <= a && a[|b + CLOSING|..] + CLOSING <= rest)
  {
    Concat(OPENING, a, CLOSING);
    Concat(OPENING, b, CLOSING);
    Concat(OPENING, b + CLOSING, rest);
    CancelPrefix(OPENING, a + CLOSING, b + CLOSING + rest);
    ClosedClashIff(a, b, rest);
  }

  lemma ClosedClashIff(a: string, b: string, rest: string)
    ensures a + CLOSING <= b + CLOSING + rest <==>
            || a == b
            || a + CLOSING <= b
            || (b + CLOSING <= a && a[|b + CLOSING|..] + CLOSING <= rest)
  {
    if a + CLOSING <= b + CLOSING + rest {
      if |a| < |b| {
        ClosedShorter(a, b, rest);
      } else if |b| < |a| {
        ClosedLonger(a, b, rest);
      } else {
        assert a == (a + CLOSING)[..|a|] == (b + CLOSING + rest)[..|a|] == b;
      }
    }
    if b + CLOSING <= a && a[|b + CLOSING|..] + CLOSING <= rest {
      LongerClashes(b + CLOSING, a[|b + CLOSING|..], rest);
      assert a == b + CLOSING + a[|b + CLOSING|..];
    }
  }

  lemma LongerClashes(front: string, tail: string, rest: string)
    requires tail + CLOSING <= rest
    ensures front + tail + CLOSING <= front + rest
  {
    Concat(front, tail, CLOSING);
    CancelPrefix(front, tail + CLOSING, rest);
  }

  /** One tool's marker opens another tool's request only if they are the same tool. */
  lemma MarkersDiffer(a: string, b: string, rest: string)
    requires NoBlank(a) && NoBlank(b) && Marker(a) <= Marker(b) + rest
    ensures a == b
  {
    MarkersClashIff(a, b, rest);
    assert (a + CLOSING)[|a|] == ' ' && (b + CLOSING)[|b|] == ' ';
  }

  /** With blanks they can: the request for the second of these tools opens like one for the first. */
  lemma BlanksClash(name: string, more: string, reason: string)
    ensures var other := name + CLOSING + more;
            name != other && Marker(name) <= RemovalRequest(other, reason)
  {
    var other := name + CLOSING + more;
    var rest := RemovalRequest(other, reason)[|Marker(other)|..];
    assert RemovalRequest(other, reason) == Marker(other) + rest;
    MarkersClashIff(name, other, rest);
  }

  /** An open job for the removal of `name`. */
  predicate IsRemoval(t: Task, name: string) {
    IsOpen(t) && Marker(name) <= t.request
  }

  predicate NoOpenRemoval(rows: seq<Task>, name: string) {
    forall i :: 0 <= i < |rows| ==> !IsRemoval(rows[i], name)
  }

  /** At most one open removal job per tool. */
  predicate UniqueRemovals(rows: seq<Task>, names: set<string>) {
    forall name, i, j :: name in names && 0 <= i < j < |rows| ==>
      !(IsRemoval(rows[i], name) && IsRemoval(rows[j], name))
  }

  /** The operations that can put a second open removal job beside a first. */
  predicate Doubles(rows: seq<Task>, names: set<string>, op: Op) {
    match op
    case Create(request, _) =>
      exists name, i :: name in names && 0 <= i < |rows|
        && IsRemoval(rows[i], name) && Text.Strip(request) != "" && Marker(name) <= Text.Strip(request)
    case Advance(id, _, _, _) =>
      exists name, i, j :: name in names && 0 <= i < |rows| && 0 <= j < |rows|
        && IsRemoval(rows[i], name)
        && rows[j].id == id && !IsOpen(rows[j]) && Marker(name) <= rows[j].request
    case _ => false
  }

  /** Of all the operations on the queue, exactly those two kinds break uniqueness. */
  lemma UniqueKeptIff(q: Queue, names: set<string>, op: Op)
    requires WellFormed(q) && UniqueRemovals(q.rows, names)
    ensures UniqueRemovals(Apply(q, op).rows, names) <==> !Doubles(q.rows, names, op)
  {
    if op.Create? {
      CreateKeepsUniqueIff(q, names, op);
    } else if op.Advance? {
      AdvanceKeepsUniqueIff(q, names, op);
    } else {
      forall name, i | 0 <= i < |q.rows| && IsRemoval(Apply(q, op).rows[i], name)
        ensures IsRemoval(q.rows[i], name)
      {
      }
    }
  }

  lemma AdvanceKeepsUniqueIff(q: Queue, names: set<string>, op: Op)
    requires WellFormed(q) && UniqueRemovals(q.rows, names) && op.Advance?
    ensures UniqueRemovals(Apply(q, op).rows, names) <==> !Doubles(q.rows, names, op)
  {
  }

  lemma CreateKeepsUniqueIff(q: Queue, names: set<string>, op: Op)
    requires UniqueRemovals(q.rows, names) && op.Create?
    ensures UniqueRemovals(Apply(q, op).rows, names) <==> !Doubles(q.rows, names, op)
  {
    var after, n := Apply(q, op).rows, |q.rows|;
    assert forall i :: 0 <= i < n ==> after[i] == q.rows[i];
    if Text.Strip(op.request) != "" {
      assert forall name :: IsRemoval(after[n], name) <==> Marker(name) <= Text.Strip(op.request);
    }
  }

  /** At most one open removal job per tool, in every state the run passes through. */
  predicate UniqueThroughout(ops: seq<Op>, names: set<string>) {
    && UniqueRemovals(Run(EMPTY, ops).rows, names)
    && (ops == [] || UniqueThroughout(ops[..|ops| - 1], names))
  }

  predicate NeverDoubles(ops: seq<Op>, names: set<string>) {
    ops == [] ||
    (NeverDoubles(ops[..|ops| - 1], names)
     && !Doubles(Run(EMPTY, ops[..|ops| - 1]).rows, names, ops[|ops| - 1]))
  }

  /** Over every run: uniqueness holds all along exactly when no operation on the way breaks it. */
  lemma {:induction false} UniqueThroughoutIff(ops: seq<Op>, names: set<string>)
    ensures UniqueThroughout(ops, names) <==> NeverDoubles(ops, names)
  {
    if ops != [] {
      var front := ops[..|ops| - 1];
      UniqueThroughoutIff(front, names);
      RunPreserves(front, 0);
      if UniqueThroughout(front, names) {
        UniqueKeptIff(Run(EMPTY, front), names, ops[|ops| - 1]);
      }
    }
  }

  datatype Reply =
    | MissingName | NotWired | UnknownTool | ProtectedTool
    | TurnedOff | TooSoon(waited: real) | AlreadyFiled(job: nat) | Registered(job: nat)

  /** A removal job as it was filed, with every change to the switch table up to then. */
  datatype Filing = Filing(name: string, at: real, changes: seq<Switch>, job: nat)

  /** The tool had been off for an hour, without a break, when the job was filed. */
  ghost predicate Mature(f: Filing) {
    exists since :: OffWithoutBreak(f.changes, f.name, since) && f.at - since >= MIN_TIME_OFF_SECONDS
  }

  class RemoveTool {
    const state: ToolStateStore
    const tasks: TaskStore
    var names: set<string>
    ghost var filed: seq<Filing>

    ghost predicate Valid()
      reads this, state, tasks
    {
      && state.Valid() && tasks.Valid()
      && forall i :: 0 <= i < |filed| ==> Mature(filed[i]) && filed[i].changes <= state.log
    }

    constructor (state: ToolStateStore, tasks: TaskStore)
      requires state.Valid() && tasks.Valid()
      ensures Valid() && this.state == state && this.tasks == tasks && names == {} && filed == []
    {
      this.state, this.tasks := state, tasks;
      names, filed := {}, [];
    }

    /** Learn the names of all tools there are. */
    method Describes(tools: set<string>)
      requires Valid()
      modifies this`names
      ensures Valid() && names == tools
    {
      names := tools;
    }

    /** Among the open jobs, the first that is a removal of `name`. */
    method ExistingJob(name: string) returns (job: Option<nat>)
      ensures job.None? <==> NoOpenRemoval(tasks.queue.rows, name)
      ensures job.Some? ==> exists t :: t in tasks.queue.rows && IsRemoval(t, name) && t.id == job.value
    {
      var open := tasks.OpenTasks();
      OpenOnes(tasks.queue.rows, open);
      for i := 0 to |open|
        invariant forall j :: 0 <= j < i ==> !(Marker(name) <= open[j].request)
      {
        if Marker(name) <= open[i].request {
          assert IsRemoval(open[i], name);
          return Some(open[i].id);
        }
      }
      return None;
    }

    /** Stage one for a tool that is on, stage two for one that is off. */
    method Run(nameArgument: string, reasonArgument: string, offAt: real, now: real, filedAt: real)
      returns (reply: Reply)
      requires Valid()
      modifies this`filed, state, tasks
      ensures Valid()
      // every job it creates is a mature filing, recorded with the time it was checked at
      ensures reply.Registered? ==>
                && filed == old(filed) + [Filing(Text.Strip(nameArgument), now, state.log, reply.job)]
                && tasks.queue == Apply(old(tasks.queue),
                     Create(RemovalRequest(Text.Strip(nameArgument), Text.Strip(reasonArgument)), filedAt))
                && tasks.queue.lastId == reply.job == old(tasks.queue).lastId + 1
      // it opens with the words it is found by, and carries the reason
      ensures reply.Registered? ==>
                && |tasks.queue.rows| == |old(tasks.queue).rows| + 1
                && Carries(tasks.queue.rows[|old(tasks.queue).rows|].request, Text.Strip(nameArgument),
                           Text.Strip(reasonArgument))
      ensures !reply.Registered? ==> filed == old(filed) && tasks.queue == old(tasks.queue)
      // the table changes only when this call switched the tool off: a wait is never restarted
      ensures !reply.TurnedOff? ==> state.table == old(state.table) && state.log == old(state.log)
      ensures reply.TurnedOff? <==>
                && Text.Strip(nameArgument) != "" && Text.Strip(nameArgument) in names
                && Text.Strip(nameArgument) !in PROTECTED && Text.Strip(nameArgument) !in old(state.table)
      ensures reply.TurnedOff? ==>
                && Text.Strip(nameArgument) in state.table && state.table[Text.Strip(nameArgument)].since == offAt
                && state.table - {Text.Strip(nameArgument)} == old(state.table)
      ensures reply.TurnedOff? ==> state.log == old(state.log) + [Off(Text.Strip(nameArgument), offAt)]
      // what a tool that is already off gets told
      ensures reply.TooSoon? || reply.AlreadyFiled? || reply.Registered? <==>
                && Text.Strip(nameArgument) != "" && Text.Strip(nameArgument) in names
                && Text.Strip(nameArgument) !in PROTECTED && Text.Strip(nameArgument) in old(state.table)
      ensures reply.TooSoon? ==>
                reply.waited == now - old(state.table)[Text.Strip(nameArgument)].since < MIN_TIME_OFF_SECONDS
      ensures reply.AlreadyFiled? ==>
                exists t :: t in tasks.queue.rows && IsRemoval(t, Text.Strip(nameArgument)) && t.id == reply.job
      ensures reply.Registered? ==> NoOpenRemoval(old(tasks.queue).rows, Text.Strip(nameArgument))
      // at most one open removal job per tool stays at most one
      ensures (forall name :: name in names ==> NoBlank(name)) && UniqueRemovals(old(tasks.queue).rows, names) ==>
                UniqueRemovals(tasks.queue.rows, names)
    {
      var name, reason := Text.Strip(nameArgument), Text.Strip(reasonArgument);
      if name == "" { return MissingName; }
      if names == {} { return NotWired; }
      if name !in names { return UnknownTool; }
      if name in PROTECTED { return ProtectedTool; }
      var off := state.Disable(name, reason, offAt);
      if off {
        LogsGrow(filed, old(state.log), state.log);
        return TurnedOff;
      }
      reply := AskForRemoval(name, reason, now, filedAt);
    }

    /** Stage two: too early, on file already, or filed now. */
    method AskForRemoval(name: string, reason: string, now: real, filedAt: real) returns (reply: Reply)
      requires Valid() && name in names && name in state.table
      modifies this`filed, tasks
      ensures Valid()
      ensures reply.TooSoon? || reply.AlreadyFiled? || reply.Registered?
      ensures reply.TooSoon? <==> now - state.table[name].since < MIN_TIME_OFF_SECONDS
      ensures reply.TooSoon? ==> reply.waited == now - state.table[name].since
      ensures reply.AlreadyFiled? ==>
                exists t :: t in tasks.queue.rows && IsRemoval(t, name) && t.id == reply.job
      ensures reply.Registered? ==>
                && NoOpenRemoval(old(tasks.queue).rows, name)
                && filed == old(filed) + [Filing(name, now, state.log, reply.job)]
                && tasks.queue == Apply(old(tasks.queue), Create(RemovalRequest(name, reason), filedAt))
                && tasks.queue.lastId == reply.job == old(tasks.queue).lastId + 1
                && |tasks.queue.rows| == |old(tasks.queue).rows| + 1
                && Carries(tasks.queue.rows[|old(tasks.queue).rows|].request, name, reason)
      ensures !reply.Registered? ==> filed == old(filed) && tasks.queue == old(tasks.queue)
      ensures (forall n :: n in names ==> NoBlank(n)) && UniqueRemovals(old(tasks.queue).rows, names) ==>
                UniqueRemovals(tasks.queue.rows, names)
    {
      var since := state.DisabledSince(name);
      if since.Some? {
        var waited := now - since.value;
        if waited < MIN_TIME_OFF_SECONDS {
          return TooSoon(waited);
        }
      }
      SinceIsUninterrupted(state.log, name, since.value);
      var existing := ExistingJob(name);
      if existing.Some? {
        return AlreadyFiled(existing.value);
      }
      var request := RemovalRequest(name, reason);
      RequestKeepsEnds(name, reason);
      RequestCarries(name, reason);
      FilingKeepsUnique(tasks.queue, names, name, reason, filedAt);
      var id := tasks.CreateJob(request, filedAt);
      filed := filed + [Filing(name, now, state.log, id.value)];
      return Registered(id.value);
    }
  }

  /** Nothing that only adds to the switch log, as every store operation does, can undo a filing. */
  twostate lemma FilingsSurvive(r: RemoveTool)
    requires old(r.Valid()) && unchanged(r) && r.state.Valid() && r.tasks.Valid()
    requires old(r.state.log) <= r.state.log
    ensures r.Valid()
  {
    LogsGrow(r.filed, old(r.state.log), r.state.log);
  }

  lemma OpenOnes(rows: seq<Task>, open: seq<Task>)
    requires open == WithStatus(rows, {Queued, WaitingUser})
    ensures forall t :: t in open <==> t in rows && IsOpen(t)
  {
    forall t ensures t in open <==> t in rows && IsOpen(t) {
      WithStatusMember(rows, {Queued, WaitingUser}, t);
    }
  }

  lemma LogsGrow(filed: seq<Filing>, before: seq<Switch>, after: seq<Switch>)
    requires before <= after && forall i :: 0 <= i < |filed| ==> filed[i].changes <= before
    ensures forall i :: 0 <= i < |filed| ==> filed[i].changes <= after
  {
  }

  lemma RequestKeepsEnds(name: string, reason: string)
    ensures Text.Strip(RemovalRequest(name, reason)) == RemovalRequest(name, reason) != ""
    ensures Marker(name) <= RemovalRequest(name, reason)
  {
  }

  lemma RequestCarries(name: string, reason: string)
    ensures Carries(RemovalRequest(name, reason), name, reason)
  {
    assert OPENING + name <= Marker(name) <= RemovalRequest(name, reason);
  }

  lemma FilingKeepsUnique(q: Queue, names: set<string>, name: string, reason: string, now: real)
    requires WellFormed(q) && name in names && NoOpenRemoval(q.rows, name)
    ensures (forall n :: n in names ==> NoBlank(n)) && UniqueRemovals(q.rows, names) ==>
              UniqueRemovals(Apply(q, Create(RemovalRequest(name, reason), now)).rows, names)
  {
    RequestKeepsEnds(name, reason);
    if (forall n :: n in names ==> NoBlank(n)) && UniqueRemovals(q.rows, names) {
      MarkedKeepsUnique(q, names, name, RemovalRequest(name, reason), now);
    }
  }

  /** ... and so does any request that opens like one. */
  lemma MarkedKeepsUnique(q: Queue, names: set<string>, name: string, r: string, now: real)
    requires WellFormed(q) && UniqueRemovals(q.rows, names) && name in names && NoOpenRemoval(q.rows, name)
    requires (forall n :: n in names ==> NoBlank(n)) && Text.Strip(r) == r && Marker(name) <= r
    ensures UniqueRemovals(Apply(q, Create(r, now)).rows, names)
  {
    UniqueKeptIff(q, names, Create(r, now));
    if n, i :| n in names && 0 <= i < |q.rows| && IsRemoval(q.rows[i], n) && Marker(n) <= Text.Strip(r) {
      assert r == Marker(name) + r[|Marker(name)|..];
      MarkersDiffer(n, name, r[|Marker(name)|..]);
      assert false;
    }
  }

  /**
   * What the system does to the queue in ordinary use: `RemoveTool` files a removal only when none is
   * open, as `RemoveTool.Run` is proved to; no other request opens like one; no closed job is advanced.
   */
  ghost predicate Ordinary(q: Queue, names: set<string>, op: Op) {
    match op
    case Create(request, _) =>
      IsFiling(q, names, request) || forall name :: name in names ==> !(Marker(name) <= Text.Strip(request))
    case Advance(_, _, _, _) => !NamesClosed(q, op)
    case _ => true
  }

  ghost predicate IsFiling(q: Queue, names: set<string>, request: string) {
    exists name, reason :: name in names && request == RemovalRequest(name, reason) && NoOpenRemoval(q.rows, name)
  }

  ghost predicate OrdinaryRun(ops: seq<Op>, names: set<string>) {
    ops == [] ||
    (OrdinaryRun(ops[..|ops| - 1], names) && Ordinary(Run(EMPTY, ops[..|ops| - 1]), names, ops[|ops| - 1]))
  }

  lemma OrdinaryKeepsUnique(q: Queue, names: set<string>, op: Op)
    requires WellFormed(q) && UniqueRemovals(q.rows, names) && Ordinary(q, names, op)
    requires forall name :: name in names ==> NoBlank(name)
    ensures UniqueRemovals(Apply(q, op).rows, names)
  {
    if op.Create? && IsFiling(q, names, op.request) {
      var name, reason :| name in names && op.request == RemovalRequest(name, reason) && NoOpenRemoval(q.rows, name);
      FilingKeepsUnique(q, names, name, reason, op.now);
    } else {
      UniqueKeptIff(q, names, op);
    }
  }

  /** For tools with names without blanks: in ordinary use no tool ever has two open removal jobs. */
  lemma {:induction false} OrdinaryRunUnique(ops: seq<Op>, names: set<string>)
    requires OrdinaryRun(ops, names) && forall name :: name in names ==> NoBlank(name)
    ensures UniqueThroughout(ops, names)
  {
    if ops != [] {
      var front := ops[..|ops| - 1];
      OrdinaryRunUnique(front, names);
      RunPreserves(front, 0);
      OrdinaryKeepsUnique(Run(EMPTY, front), names, ops[|ops| - 1]);
    }
  }

  /** The queue after one job, and what becomes of it. */
  lemma OneJob(r: string, op: Op)
    requires Text.Strip(r) == r != ""
    ensures Run(EMPTY, [Create(r, 0.0)]) == Queue([Task(1, r, New, Queued, "", "", 0.0, 0.0)], 1)
    ensures Run(EMPTY, [Create(r, 0.0), op]) == Apply(Run(EMPTY, [Create(r, 0.0)]), op)
  {
    assert [Create(r, 0.0)][..0] == [] && [Create(r, 0.0), op][..1] == [Create(r, 0.0)];
  }

  lemma TwoOpen(rows: seq<Task>, name: string)
    requires |rows| == 2 && IsRemoval(rows[0], name) && IsRemoval(rows[1], name)
    ensures !UniqueRemovals(rows, {name})
  {
    assert name in {name};
  }

  /** Outside it one can have two: by asking twice in the words of a removal ... */
  lemma AskedTwice(name: string, reason: string) returns (ops: seq<Op>)
    ensures ops == [Create(RemovalRequest(name, reason), 0.0), Create(RemovalRequest(name, reason), 1.0)]
    ensures !UniqueThroughout(ops, {name})
  {
    RequestKeepsEnds(name, reason);
    ops := CreatedTwice(name, RemovalRequest(name, reason));
  }

  lemma CreatedTwice(name: string, r: string) returns (ops: seq<Op>)
    requires Text.Strip(r) == r != "" && Marker(name) <= r
    ensures ops == [Create(r, 0.0), Create(r, 1.0)] && !UniqueThroughout(ops, {name})
  {
    ops := [Create(r, 0.0), Create(r, 1.0)];
    OneJob(r, Create(r, 1.0));
    TwoOpen(Run(EMPTY, ops).rows, name);
  }

  /** ... or by advancing a finished removal once a second one has rightly been filed. */
  lemma AdvancedAgain(name: string, reason: string, note: string) returns (ops: seq<Op>)
    ensures ops == [Create(RemovalRequest(name, reason), 0.0), Finish(1, note, 1.0),
                    Create(RemovalRequest(name, reason), 2.0), Advance(1, Understood, note, 3.0)]
    ensures !UniqueThroughout(ops, {name})
  {
    RequestKeepsEnds(name, reason);
    ops := ReopenedBeside(name, RemovalRequest(name, reason), note);
  }

  lemma ReopenedBeside(name: string, r: string, note: string) returns (ops: seq<Op>)
    requires Text.Strip(r) == r != "" && Marker(name) <= r
    ensures ops == [Create(r, 0.0), Finish(1, note, 1.0), Create(r, 2.0), Advance(1, Understood, note, 3.0)]
    ensures !UniqueThroughout(ops, {name})
  {
    ops := [Create(r, 0.0), Finish(1, note, 1.0), Create(r, 2.0), Advance(1, Understood, note, 3.0)];
    OneJob(r, ops[1]);
    assert ops[..3][..2] == [Create(r, 0.0), ops[1]];
    var third := Run(EMPTY, ops[..3]);
    assert |third.rows| == 2 && third.rows[0].id == 1 && third.rows[1].id == 2;
    assert third.rows[0].request == r && IsRemoval(third.rows[1], name);
    TwoOpen(Run(EMPTY, ops).rows, name);
  }

  /** `enable_tool`: validates nothing, and one call restores any tool that is off. */
  method EnableTool(state: ToolStateStore, nameArgument: string) returns (changed: bool)
    requires state.Valid()
    modifies state
    ensures state.Valid()
    ensures state.table == if Text.Strip(nameArgument) == "" then old(state.table)
                           else old(state.table) - {Text.Strip(nameArgument)}
    ensures changed <==> Text.Strip(nameArgument) != "" && Text.Strip(nameArgument) in old(state.table)
    ensures old(state.log) <= state.log
  {
    var name := Text.Strip(nameArgument);
    if name == "" { return false; }
    changed := state.Enable(name);
  }
}
