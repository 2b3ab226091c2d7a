/** `TaskStore`: the development queue, one mutable row per job. */
module Tasks {
  import opened Common
  import Text

  datatype Stage = New | Understood | Implemented | Committed | Pushed | Deployed

  datatype Status = Queued | WaitingUser | Done | Abandoned

  datatype Task = Task(id: nat, request: string, stage: Stage, status: Status,
                       note: string, answer: string, createdAt: real, updatedAt: real)

  /** The table in primary-key order, and the last id handed out. */
  datatype Queue = Queue(rows: seq<Task>, lastId: nat)

  /** What the user's side and the developer's session do to the queue. */
  datatype Op =
    | Create(request: string, now: real)
    | RecordAnswer(id: int, answer: string, now: real)
    | Advance(id: int, stage: Stage, note: string, now: real)
    | Finish(id: int, note: string, now: real)
    | Abandon(id: int, note: string, now: real)

  predicate IsOpen(t: Task) {
    t.status.Queued? || t.status.WaitingUser?
  }

  /** What an operation makes of one row. */
  function Updated(t: Task, op: Op): Task {
    match op
    case Create(_, _) => t
    case RecordAnswer(id, answer, now) =>
      if t.id == id && t.status.WaitingUser? && Text.Strip(answer) != ""
      then t.(answer := Text.Strip(answer), status := Queued, updatedAt := now) else t
    case Advance(id, stage, note, now) =>
      if t.id == id
      then t.(stage := stage, note := Text.Strip(note), answer := "", status := WaitingUser, updatedAt := now) else t
    case Finish(id, note, now) =>
      if t.id == id
      then t.(status := Done, stage := Deployed, note := Text.Strip(note), updatedAt := now) else t
    case Abandon(id, note, now) =>
      if t.id == id then t.(status := Abandoned, note := Text.Strip(note), updatedAt := now) else t
  }

  function UpdateRows(rows: seq<Task>, op: Op): (r: seq<Task>)
    ensures |r| == |rows|
    ensures forall i :: 0 <= i < |rows| ==> r[i] == Updated(rows[i], op)
  {
    seq(|rows|, i requires 0 <= i < |rows| => Updated(rows[i], op))
  }

  function Inserted(q: Queue, request: string, now: real): Queue {
    Queue(q.rows + [Task(q.lastId + 1, request, New, Queued, "", "", now, now)], q.lastId + 1)
  }

  function Apply(q: Queue, op: Op): Queue {
    if op.Create? then
      if Text.Strip(op.request) == "" then q else Inserted(q, Text.Strip(op.request), op.now)
    else q.(rows := UpdateRows(q.rows, op))
  }

  function Run(q: Queue, ops: seq<Op>): Queue {
    if ops == [] then q else Apply(Run(q, ops[..|ops| - 1]), ops[|ops| - 1])
  }

  const EMPTY: Queue := Queue([], 0)

  /** What the status of a row says about its other columns. */
  predicate Consistent(t: Task) {
    match t.status
    case WaitingUser => t.answer == ""
    case Queued => t.answer != "" || (t.stage == New && t.note == "" && t.updatedAt == t.createdAt)
    case Done => t.stage == Deployed
    case Abandoned => true
  }

  predicate WellFormed(q: Queue) {
    && (forall i, j :: 0 <= i < j < |q.rows| ==> q.rows[i].id < q.rows[j].id)
    && (forall i :: 0 <= i < |q.rows| ==> 1 <= q.rows[i].id <= q.lastId && Consistent(q.rows[i]))
  }

  /** Rows never vanish or move, and keep their number, their request and their date. */
  predicate Keeps(before: Queue, after: Queue) {
    && before.lastId <= after.lastId && |before.rows| <= |after.rows|
    && forall i :: 0 <= i < |before.rows| ==>
         && after.rows[i].id == before.rows[i].id
         && after.rows[i].request == before.rows[i].request
         && after.rows[i].createdAt == before.rows[i].createdAt
  }

  lemma UpdatedPreserves(t: Task, op: Op)
    requires Consistent(t)
    ensures Consistent(Updated(t, op))
    ensures Updated(t, op).id == t.id && Updated(t, op).request == t.request && Updated(t, op).createdAt == t.createdAt
  {
  }

  lemma InsertedPreserves(q: Queue, request: string, now: real)
    requires WellFormed(q)
    ensures WellFormed(Inserted(q, request, now)) && Keeps(q, Inserted(q, request, now))
  {
  }

  lemma ApplyPreserves(q: Queue, op: Op)
    requires WellFormed(q)
    ensures WellFormed(Apply(q, op)) && Keeps(q, Apply(q, op))
  {
    if op.Create? {
      InsertedPreserves(q, Text.Strip(op.request), op.now);
    } else {
      forall i | 0 <= i < |q.rows|
        ensures Consistent(Updated(q.rows[i], op)) && Updated(q.rows[i], op).id == q.rows[i].id
        ensures Updated(q.rows[i], op).request == q.rows[i].request
        ensures Updated(q.rows[i], op).createdAt == q.rows[i].createdAt
      {
        UpdatedPreserves(q.rows[i], op);
      }
    }
  }

  /** In every reachable state the columns agree, ids ascend, and nothing recorded is ever lost. */
  lemma {:induction false} RunPreserves(ops: seq<Op>, cut: nat)
    requires cut <= |ops|
    ensures WellFormed(Run(EMPTY, ops))
    ensures Keeps(Run(EMPTY, ops[..cut]), Run(EMPTY, ops))
    decreases |ops|
  {
    if cut < |ops| {
      var front := ops[..|ops| - 1];
      RunPreserves(front, cut);
      assert front[..cut] == ops[..cut];
      ApplyPreserves(Run(EMPTY, front), ops[|ops| - 1]);
    } else {
      assert ops[..cut] == ops;
      if ops != [] {
        RunPreserves(ops[..|ops| - 1], |ops| - 1);
        ApplyPreserves(Run(EMPTY, ops[..|ops| - 1]), ops[|ops| - 1]);
      }
    }
  }

  // The three status queries

  /** SELECT ... WHERE status IN (wanted) ORDER BY id */
  function WithStatus(rows: seq<Task>, wanted: set<Status>): seq<Task> {
    if rows == [] then [] else
    var last, before := rows[|rows| - 1], WithStatus(rows[..|rows| - 1], wanted);
    if last.status in wanted then before + [last] else before
  }

  lemma {:induction false} WithStatusMember(rows: seq<Task>, wanted: set<Status>, t: Task)
    ensures t in WithStatus(rows, wanted) <==> t in rows && t.status in wanted
  {
    if rows != [] {
      var front, last := rows[..|rows| - 1], rows[|rows| - 1];
      WithStatusMember(front, wanted, t);
      assert t in rows <==> t in front || t == last;
    }
  }

  lemma {:induction false} WithStatusAscends(rows: seq<Task>, wanted: set<Status>)
    requires forall i, j :: 0 <= i < j < |rows| ==> rows[i].id < rows[j].id
    ensures var r := WithStatus(rows, wanted); forall i, j :: 0 <= i < j < |r| ==> r[i].id < r[j].id
  {
    if rows != [] {
      var front, last := rows[..|rows| - 1], rows[|rows| - 1];
      var r := WithStatus(front, wanted);
      WithStatusAscends(front, wanted);
      forall i | 0 <= i < |r| ensures r[i].id < last.id {
        WithStatusMember(front, wanted, r[i]);
      }
    }
  }

  /** The open jobs are the queued and the waiting ones merged by id, none twice, none left out. */
  lemma {:induction false} OpenIsQueuedPlusWaiting(rows: seq<Task>)
    ensures multiset(WithStatus(rows, {Queued, WaitingUser}))
         == multiset(WithStatus(rows, {Queued})) + multiset(WithStatus(rows, {WaitingUser}))
  {
    if rows != [] {
      OpenIsQueuedPlusWaiting(rows[..|rows| - 1]);
    }
  }

  class TaskStore {
    var queue: Queue

    ghost predicate Valid()
      reads this
    {
      WellFormed(queue)
    }

    constructor ()
      ensures Valid() && queue == EMPTY
    {
      queue := EMPTY;
    }

    /** A blank request is refused; any other is stored under the next number. */
    method CreateJob(request: string, now: real) returns (id: Option<nat>)
      requires Valid()
      modifies this
      ensures Valid() && Keeps(old(queue), queue)
      ensures queue == Apply(old(queue), Create(request, now))
      ensures id == if Text.Strip(request) == "" then None else Some(old(queue).lastId + 1)
      ensures id.Some? ==> forall i :: 0 <= i < |old(queue).rows| ==> old(queue).rows[i].id != id.value
      ensures id.Some? ==>
                queue.rows == old(queue).rows + [Task(id.value, Text.Strip(request), New, Queued, "", "", now, now)]
      ensures id.None? ==> queue == old(queue)
    {
      ApplyPreserves(queue, Create(request, now));
      var text := Text.Strip(request);
      if text == "" {
        return None;
      }
      queue := Inserted(queue, text, now);
      return Some(queue.lastId);
    }

    method OpenTasks() returns (r: seq<Task>)
      ensures r == WithStatus(queue.rows, {Queued, WaitingUser})
    {
      r := WithStatus(queue.rows, {Queued, WaitingUser});
    }

    method AwaitingUser() returns (r: seq<Task>)
      ensures r == WithStatus(queue.rows, {WaitingUser})
    {
      r := WithStatus(queue.rows, {WaitingUser});
    }

    method QueuedTasks() returns (r: seq<Task>)
      ensures r == WithStatus(queue.rows, {Queued})
    {
      r := WithStatus(queue.rows, {Queued});
    }

    /** An answer is recorded only on a job that is waiting for one. */
    method RecordAnswer(id: int, answer: string, now: real) returns (recorded: bool)
      requires Valid()
      modifies this
      ensures Valid() && Keeps(old(queue), queue)
      ensures queue == Apply(old(queue), Op.RecordAnswer(id, answer, now))
      ensures recorded <==> Text.Strip(answer) != "" && HasId(WithStatus(old(queue).rows, {WaitingUser}), id)
      ensures ClosedUntouched(old(queue), queue)
      // the waiting job keeps the words of the answer and goes back to the developer; nothing else changes
      ensures |queue.rows| == |old(queue).rows|
      ensures forall i :: 0 <= i < |queue.rows| ==>
                var was := old(queue).rows[i];
                queue.rows[i] == if Text.Strip(answer) != "" && was.id == id && was.status == WaitingUser
                                 then was.(answer := Text.Strip(answer), status := Queued, updatedAt := now) else was
    {
      ApplyPreserves(queue, Op.RecordAnswer(id, answer, now));
      if Text.Strip(answer) == "" {
        assert queue.rows == UpdateRows(queue.rows, Op.RecordAnswer(id, answer, now));
        return false;
      }
      recorded := HasId(WithStatus(queue.rows, {WaitingUser}), id);
      queue := queue.(rows := UpdateRows(queue.rows, Op.RecordAnswer(id, answer, now)));
    }

    method Advance(id: int, stage: Stage, note: string, now: real) returns (found: bool)
      requires Valid()
      modifies this
      ensures Valid() && Keeps(old(queue), queue)
      ensures queue == Apply(old(queue), Op.Advance(id, stage, note, now))
      ensures found <==> HasId(old(queue).rows, id)
      ensures |queue.rows| == |old(queue).rows|
      ensures forall i :: 0 <= i < |queue.rows| ==>
                var was := old(queue).rows[i];
                queue.rows[i] == if was.id == id
                                 then was.(stage := stage, note := Text.Strip(note), answer := "",
                                          status := WaitingUser, updatedAt := now) else was
    {
      ApplyPreserves(queue, Op.Advance(id, stage, note, now));
      found := HasId(queue.rows, id);
      queue := queue.(rows := UpdateRows(queue.rows, Op.Advance(id, stage, note, now)));
    }

    method Finish(id: int, note: string, now: real) returns (found: bool)
      requires Valid()
      modifies this
      ensures Valid() && Keeps(old(queue), queue)
      ensures queue == Apply(old(queue), Op.Finish(id, note, now))
      ensures found <==> HasId(old(queue).rows, id)
      ensures |queue.rows| == |old(queue).rows|
      ensures forall i :: 0 <= i < |queue.rows| ==>
                var was := old(queue).rows[i];
                queue.rows[i] == if was.id == id
                                 then was.(status := Done, stage := Deployed, note := Text.Strip(note), updatedAt := now) else was
    {
      ApplyPreserves(queue, Op.Finish(id, note, now));
      found := HasId(queue.rows, id);
      queue := queue.(rows := UpdateRows(queue.rows, Op.Finish(id, note, now)));
    }

    method Abandon(id: int, note: string, now: real) returns (found: bool)
      requires Valid()
      modifies this
      ensures Valid() && Keeps(old(queue), queue)
      ensures queue == Apply(old(queue), Op.Abandon(id, note, now))
      ensures found <==> HasId(old(queue).rows, id)
      ensures |queue.rows| == |old(queue).rows|
      ensures forall i :: 0 <= i < |queue.rows| ==>
                var was := old(queue).rows[i];
                queue.rows[i] == if was.id == id
                                 then was.(status := Abandoned, note := Text.Strip(note), updatedAt := now) else was
    {
      ApplyPreserves(queue, Op.Abandon(id, note, now));
      found := HasId(queue.rows, id);
      queue := queue.(rows := UpdateRows(queue.rows, Op.Abandon(id, note, now)));
    }
  }

  /** A question put to the user, and what they say to it, reach the developer as one job, whatever it was before. */
  lemma AnswerReachesDeveloper(q: Queue, i: nat, stage: Stage, note: string, asked: real, answer: string, said: real)
    requires WellFormed(q) && i < |q.rows| && Text.Strip(answer) != ""
    ensures var id, request, since := q.rows[i].id, q.rows[i].request, q.rows[i].createdAt;
            var after := Apply(Apply(q, Advance(id, stage, note, asked)), RecordAnswer(id, answer, said));
            Task(id, request, stage, Queued, Text.Strip(note), Text.Strip(answer), since, said)
            in WithStatus(after.rows, {Queued})
  {
    var id := q.rows[i].id;
    var after := Apply(Apply(q, Advance(id, stage, note, asked)), RecordAnswer(id, answer, said));
    WithStatusMember(after.rows, {Queued}, after.rows[i]);
  }

  predicate HasId(rows: seq<Task>, id: int) {
    exists i :: 0 <= i < |rows| && rows[i].id == id
  }

  /** No row that was finished or dropped has changed. */
  predicate ClosedUntouched(before: Queue, after: Queue) {
    && |before.rows| <= |after.rows|
    && forall i :: 0 <= i < |before.rows| && !IsOpen(before.rows[i]) ==> after.rows[i] == before.rows[i]
  }

  /** The three operations that look only at the number (core/tasks.py:256-325), on a job that is not open. */
  predicate NamesClosed(q: Queue, op: Op) {
    && (op.Advance? || op.Finish? || op.Abandon?)
    && exists i :: 0 <= i < |q.rows| && q.rows[i].id == op.id && !IsOpen(q.rows[i])
  }

  /** The time of the operation is later than anything in the queue, as a clock makes it. */
  predicate Later(q: Queue, op: Op) {
    forall i :: 0 <= i < |q.rows| ==> q.rows[i].updatedAt < op.now
  }

  /**
   * The store itself does not look at the status: an operation leaves every closed job alone unless
   * it advances, finishes or abandons one by its number, and then it always alters it.
   */
  lemma ClosedUntouchedIff(q: Queue, op: Op)
    ensures !NamesClosed(q, op) ==> ClosedUntouched(q, Apply(q, op))
    ensures Later(q, op) ==> (ClosedUntouched(q, Apply(q, op)) <==> !NamesClosed(q, op))
  {
    if Later(q, op) && NamesClosed(q, op) {
      var i :| 0 <= i < |q.rows| && q.rows[i].id == op.id && !IsOpen(q.rows[i]);
      assert Apply(q, op).rows[i] == Updated(q.rows[i], op) != q.rows[i];
    }
  }

  /** Each operation takes place after the one before it. */
  predicate Clocked(ops: seq<Op>) {
    forall i, j :: 0 <= i < j < |ops| ==> ops[i].now < ops[j].now
  }

  /** No row is dated later than the last operation. */
  lemma {:induction false} ClockedRunIsLater(ops: seq<Op>, op: Op)
    requires forall i :: 0 <= i < |ops| ==> ops[i].now < op.now
    ensures Later(Run(EMPTY, ops), op)
  {
    if ops != [] {
      ClockedRunIsLater(ops[..|ops| - 1], op);
    }
  }

  /** Over every run by the clock: the step after `k` operations leaves all closed jobs alone if and only if it names none. */
  lemma {:induction false} ClosedUntouchedInRunIff(ops: seq<Op>, k: nat)
    requires Clocked(ops) && k < |ops|
    ensures ClosedUntouched(Run(EMPTY, ops[..k]), Run(EMPTY, ops[..k + 1]))
       <==> !NamesClosed(Run(EMPTY, ops[..k]), ops[k])
  {
    ClockedRunIsLater(ops[..k], ops[k]);
    assert ops[..k + 1][..k] == ops[..k];
    ClosedUntouchedIff(Run(EMPTY, ops[..k]), ops[k]);
  }

  /** A finished job put back to work by its number: reachable from the empty queue. */
  lemma FinishedThenAdvanced(request: string, note: string) returns (ops: seq<Op>)
    requires Text.Strip(request) != ""
    ensures ops == [Create(request, 0.0), Finish(1, note, 1.0), Advance(1, Understood, note, 2.0)]
    ensures !ClosedUntouched(Run(EMPTY, ops[..2]), Run(EMPTY, ops))
  {
    ops := [Create(request, 0.0), Finish(1, note, 1.0), Advance(1, Understood, note, 2.0)];
    var q := Run(EMPTY, ops[..2]);
    assert ops[..2][..1] == ops[..1] && ops[..1][..0] == [];
    assert Run(EMPTY, ops[..1]) == Inserted(EMPTY, Text.Strip(request), 0.0);
    assert |q.rows| == 1 && q.rows[0].id == 1 && q.rows[0].status == Done;
    assert NamesClosed(q, ops[2]) && Later(q, ops[2]);
    ClosedUntouchedIff(q, ops[2]);
  }
}
