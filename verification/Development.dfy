/** The two tools through which the user answers a question or drops a job. */
module Development {
  import opened Common
  import opened Tasks
  import Text

  datatype Outcome = InvalidNumber | NothingDone | Recorded

  /** `answer_question`: `number` is None when the argument is missing or not an integer. */
  method AnswerQuestion(store: TaskStore, number: Option<int>, answer: string, now: real) returns (r: Outcome)
    requires store.Valid()
    modifies store
    ensures store.Valid() && Keeps(old(store.queue), store.queue)
    ensures ClosedUntouched(old(store.queue), store.queue)
    ensures r == InvalidNumber <==> number.None?
    ensures r == Recorded <==>
              && number.Some? && Text.Strip(answer) != ""
              && HasId(WithStatus(old(store.queue).rows, {WaitingUser}), number.value)
    ensures store.queue == if number.Some?
                           then Apply(old(store.queue), Op.RecordAnswer(number.value, answer, now))
                           else old(store.queue)
    ensures r != Recorded ==> store.queue == old(store.queue)
    ensures r == Recorded ==>
              exists i :: 0 <= i < |store.queue.rows| && store.queue.rows[i].id == number.value
                          && store.queue.rows[i].status == Queued && store.queue.rows[i].answer == Text.Strip(answer)
  {
    if number.None? {
      return InvalidNumber;
    }
    ghost var before := store.queue;
    var recorded := store.RecordAnswer(number.value, answer, now);
    if recorded {
      ghost var i := WaitingRow(before, number.value);
      return Recorded;
    }
    UnansweredIsUntouched(before, number.value, answer, now);
    return NothingDone;
  }

  /** Where the job stands that waits for this answer. */
  lemma WaitingRow(q: Queue, id: int) returns (i: nat)
    requires HasId(WithStatus(q.rows, {WaitingUser}), id)
    ensures i < |q.rows| && q.rows[i].id == id && q.rows[i].status == WaitingUser
  {
    var waiting := WithStatus(q.rows, {WaitingUser});
    var k :| 0 <= k < |waiting| && waiting[k].id == id;
    WithStatusMember(q.rows, {WaitingUser}, waiting[k]);
    i :| 0 <= i < |q.rows| && q.rows[i] == waiting[k];
  }

  lemma UnansweredIsUntouched(q: Queue, id: int, answer: string, now: real)
    requires Text.Strip(answer) == "" || !HasId(WithStatus(q.rows, {WaitingUser}), id)
    ensures Apply(q, Op.RecordAnswer(id, answer, now)) == q
  {
    var op := Op.RecordAnswer(id, answer, now);
    forall i | 0 <= i < |q.rows| ensures Updated(q.rows[i], op) == q.rows[i] {
      WithStatusMember(q.rows, {WaitingUser}, q.rows[i]);
    }
    assert UpdateRows(q.rows, op) == q.rows;
  }

  const ABANDONED_NOTE := "Abbandonato su richiesta dell'utente"

  /** `abandon_development`: unlike the store, it checks first that the job is still open. */
  method AbandonDevelopment(store: TaskStore, number: Option<int>, reason: string, now: real) returns (r: Outcome)
    requires store.Valid()
    modifies store
    ensures store.Valid() && Keeps(old(store.queue), store.queue)
    ensures ClosedUntouched(old(store.queue), store.queue)
    ensures r == InvalidNumber <==> number.None?
    ensures r == Recorded <==>
              number.Some? && HasId(WithStatus(old(store.queue).rows, {Queued, WaitingUser}), number.value)
    ensures |store.queue.rows| == |old(store.queue).rows|
    ensures r == Recorded ==> forall i :: 0 <= i < |store.queue.rows| ==>
              if store.queue.rows[i].id == number.value
              then store.queue.rows[i] == old(store.queue).rows[i].(status := Abandoned, updatedAt := now, note :=
                     if Text.Strip(reason) == "" then ABANDONED_NOTE + "." else ABANDONED_NOTE + ": " + Text.Strip(reason))
              else store.queue.rows[i] == old(store.queue).rows[i]
    ensures r != Recorded ==> store.queue == old(store.queue)
  {
    if number.None? {
      return InvalidNumber;
    }
    var open := store.OpenTasks();
    if !HasId(open, number.value) {
      return NothingDone;
    }
    ghost var before := store.queue;
    var why := Text.Strip(reason);
    var note := ABANDONED_NOTE + if why != "" then ": " + why else ".";
    Text.StripTrims(reason);
    AbandonNote(why);
    OnlyOpenAbandoned(before, number.value, note, now);
    var found := store.Abandon(number.value, note, now);
    assert store.queue.rows == UpdateRows(before.rows, Op.Abandon(number.value, note, now));
    r := if found then Recorded else NothingDone;
  }

  /** Dropping a job that is open reaches no closed one: numbers are unique. */
  lemma OnlyOpenAbandoned(q: Queue, id: int, note: string, now: real)
    requires WellFormed(q) && HasId(WithStatus(q.rows, {Queued, WaitingUser}), id)
    ensures HasId(q.rows, id)
    ensures ClosedUntouched(q, Apply(q, Op.Abandon(id, note, now)))
  {
    var open := WithStatus(q.rows, {Queued, WaitingUser});
    var i :| 0 <= i < |open| && open[i].id == id;
    WithStatusMember(q.rows, {Queued, WaitingUser}, open[i]);
    var k :| 0 <= k < |q.rows| && q.rows[k] == open[i];
    forall j | 0 <= j < |q.rows| && !IsOpen(q.rows[j]) ensures q.rows[j].id != id {
      assert j != k;
    }
  }

  lemma AbandonNote(why: string)
    requires Text.Trimmed(why)
    ensures var note := ABANDONED_NOTE + if why != "" then ": " + why else "."; Text.Strip(note) == note
  {
    Text.StripOfTrimmed(ABANDONED_NOTE + if why != "" then ": " + why else ".");
  }
}
