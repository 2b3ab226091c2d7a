/** The two stores side by side, over every run and with crashes in the SQL one. */
module Simulation {
  import opened Common
  import opened Window
  import Sql = SqlStore
  import Mem = InMemoryStore

  /**
   * What can happen to a store. `AppendCut` is an append stopped between its two commits. When the
   * process dies there, nothing its pass deleted is gone; when a statement fails and the process
   * goes on, what the deletes before it took.
   */
  datatype Event =
    | Append(conv: string, message: StoredMessage)
    | AppendCut(conv: string, message: StoredMessage, deletes: nat)
    | Prune(conv: string)

  function SqlStep(max: nat, t: Sql.Table, e: Event): Sql.Table {
    match e
    case Append(conv, message) => Sql.Pruned(max, Sql.Inserted(t, conv, message), conv)
    case AppendCut(conv, message, deletes) => Sql.PartlyPruned(max, Sql.Inserted(t, conv, message), conv, deletes)
    case Prune(conv) => Sql.Pruned(max, t, conv)
  }

  /** The in-memory store has no commits: an append is one step there. */
  function MemStep(max: nat, m: Mem.Conversations, e: Event): Mem.Conversations {
    match e
    case Append(conv, message) => Mem.Appended(max, m, conv, message)
    case AppendCut(conv, message, _) => Mem.Appended(max, m, conv, message)
    case Prune(conv) => Mem.Pruned(max, m, conv)
  }

  function SqlRun(max: nat, run: seq<Event>): Sql.Table {
    if run == [] then Sql.Table([], 0)
    else SqlStep(max, SqlRun(max, run[..|run| - 1]), run[|run| - 1])
  }

  function MemRun(max: nat, run: seq<Event>): Mem.Conversations {
    if run == [] then map[]
    else MemStep(max, MemRun(max, run[..|run| - 1]), run[|run| - 1])
  }

  /** Everything ever said in one conversation. */
  function Log(run: seq<Event>, conv: string): History {
    if run == [] then [] else
    var last, before := run[|run| - 1], Log(run[..|run| - 1], conv);
    if !last.Prune? && last.conv == conv then before + [last.message] else before
  }

  /** No crash has hit a conversation since it was last written or pruned. */
  predicate Settled(run: seq<Event>, conv: string) {
    run == [] ||
    var last := run[|run| - 1];
    if last.conv == conv then !last.AppendCut? else Settled(run[..|run| - 1], conv)
  }

  // The SQL store, one conversation at a time

  /** What an event of this conversation makes of its history. */
  function Heard(max: nat, h: History, e: Event): History {
    match e
    case Append(_, message) => Window.Prune(max, h + [message])
    case AppendCut(_, message, deletes) => Tear(max, h + [message], deletes)
    case Prune(_) => Window.Prune(max, h)
  }

  /** The history of one conversation, from its own events alone. */
  function Replay(max: nat, run: seq<Event>, conv: string): History {
    if run == [] then [] else
    var e, before := run[|run| - 1], Replay(max, run[..|run| - 1], conv);
    if e.conv == conv then Heard(max, before, e) else before
  }

  /** No event of one conversation changes a row of another. */
  lemma StepIsLocal(max: nat, t: Sql.Table, e: Event, other: string)
    requires Sql.WellFormed(t)
    ensures Sql.WellFormed(SqlStep(max, t, e))
    ensures other != e.conv ==> Sql.Select(SqlStep(max, t, e).rows, other) == Sql.Select(t.rows, other)
  {
    if e.Prune? {
      Sql.PrunedTouchesOne(max, t, e.conv, other);
    } else {
      var t' := Sql.Inserted(t, e.conv, e.message);
      Sql.InsertedWellFormed(t, e.conv, e.message);
      Sql.InsertedAppends(t, e.conv, e.message, other);
      if e.AppendCut? {
        Sql.PartlyPrunedTouchesOne(max, t', e.conv, e.deletes, other);
      } else {
        Sql.PrunedTouchesOne(max, t', e.conv, other);
      }
    }
  }

  lemma StepIsHeard(max: nat, t: Sql.Table, e: Event)
    requires Sql.WellFormed(t)
    ensures Sql.HistoryOf(SqlStep(max, t, e), e.conv) == Heard(max, Sql.HistoryOf(t, e.conv), e)
  {
    if e.Prune? {
      Sql.PrunedTouchesOne(max, t, e.conv, e.conv);
    } else {
      var t' := Sql.Inserted(t, e.conv, e.message);
      Sql.InsertedWellFormed(t, e.conv, e.message);
      Sql.InsertedAppends(t, e.conv, e.message, e.conv);
      if e.AppendCut? {
        Sql.PartlyPrunedTouchesOne(max, t', e.conv, e.deletes, e.conv);
      } else {
        Sql.PrunedTouchesOne(max, t', e.conv, e.conv);
      }
    }
  }

  /** The shared table, with its ids and deletes, is for each conversation its own history and no more. */
  lemma {:induction false} SqlRunReplays(max: nat, run: seq<Event>, conv: string)
    ensures Sql.WellFormed(SqlRun(max, run))
    ensures Sql.HistoryOf(SqlRun(max, run), conv) == Replay(max, run, conv)
  {
    if run != [] {
      var before, e := run[..|run| - 1], run[|run| - 1];
      SqlRunReplays(max, before, conv);
      StepIsLocal(max, SqlRun(max, before), e, conv);
      if e.conv == conv { StepIsHeard(max, SqlRun(max, before), e); }
    }
  }

  /** What ties one conversation's rows to everything said in it. */
  predicate Tied(max: nat, h: History, log: History, settled: bool) {
    && Window.Prune(max, h) == Window.Prune(max, log)
    && (settled ==> h == Window.Prune(max, log))
  }

  /** Every event keeps the tie, whatever state the rows were in, and all but a cut append settle it. */
  lemma HeardKeepsTie(max: nat, h: History, log: History, e: Event)
    requires Tied(max, h, log, false)
    ensures Tied(max, Heard(max, h, e), if e.Prune? then log else log + [e.message], !e.AppendCut?)
  {
    if e.Prune? {
      PruneIdempotent(max, log);
    } else {
      PruneComposes(max, h, [e.message]);
      PruneComposes(max, log, [e.message]);
      if e.AppendCut? {
        TearHeals(max, h + [e.message], e.deletes);
      } else {
        PruneIdempotent(max, h + [e.message]);
      }
    }
  }

  lemma {:induction false} ReplayTied(max: nat, run: seq<Event>, conv: string)
    ensures Tied(max, Replay(max, run, conv), Log(run, conv), Settled(run, conv))
  {
    if run != [] {
      var before, e := run[..|run| - 1], run[|run| - 1];
      ReplayTied(max, before, conv);
      if e.conv == conv { HeardKeepsTie(max, Replay(max, before, conv), Log(before, conv), e); }
    }
  }

  /** The invariant of every run of the SQL store. */
  lemma {:induction false} SqlRunTied(max: nat, run: seq<Event>, conv: string)
    ensures Sql.WellFormed(SqlRun(max, run))
    ensures Tied(max, Sql.HistoryOf(SqlRun(max, run), conv), Log(run, conv), Settled(run, conv))
  {
    SqlRunReplays(max, run, conv);
    ReplayTied(max, run, conv);
  }

  function Logs(run: seq<Event>): Mem.Conversations {
    if run == [] then map[] else
    var last, before := run[|run| - 1], Logs(run[..|run| - 1]);
    if last.Prune? then before
    else before[last.conv := Mem.HistoryOf(before, last.conv) + [last.message]]
  }

  /** The invariant of every run of the in-memory store: the window of the whole log, at once. */
  lemma {:induction false} MemRunWindowed(max: nat, run: seq<Event>)
    ensures Mem.Windowed(max, MemRun(max, run), Logs(run))
    ensures forall conv :: Mem.HistoryOf(Logs(run), conv) == Log(run, conv)
  {
    if run != [] {
      var before, e := run[..|run| - 1], run[|run| - 1];
      MemRunWindowed(max, before);
      if e.Prune? {
        Mem.PruneChangesNothing(max, MemRun(max, before), Logs(before), e.conv);
      } else {
        Mem.AppendKeepsWindowed(max, MemRun(max, before), Logs(before), e.conv, e.message);
      }
    }
  }

  /**
   * Whatever the run and however the conversations interleave: where no crash is pending the
   * SQL store returns exactly what the in-memory store returns, and a pending crash costs
   * nothing the next write or prune does not restore.
   */
  lemma {:induction false} StoresAgree(max: nat, run: seq<Event>, conv: string)
    ensures Settled(run, conv) ==>
              Sql.HistoryOf(SqlRun(max, run), conv) == Mem.HistoryOf(MemRun(max, run), conv)
    ensures Window.Prune(max, Sql.HistoryOf(SqlRun(max, run), conv)) == Mem.HistoryOf(MemRun(max, run), conv)
    ensures Mem.HistoryOf(MemRun(max, run), conv) == Window.Prune(max, Log(run, conv))
  {
    SqlRunTied(max, run, conv);
    MemRunWindowed(max, run);
  }

  /** A crash between the two commits is healed by the next append or prune of the conversation. */
  lemma {:induction false} CrashHeals(max: nat, run: seq<Event>)
    requires run != [] && !run[|run| - 1].AppendCut?
    ensures var conv := run[|run| - 1].conv;
            Sql.HistoryOf(SqlRun(max, run), conv) == Mem.HistoryOf(MemRun(max, run), conv)
  {
    StoresAgree(max, run, run[|run| - 1].conv);
  }

  // What a crash leaves readable until it is healed

  /** Every interruption was a crash: no pass stopped half-way in a process that went on. */
  predicate CrashesOnly(run: seq<Event>) {
    forall i :: 0 <= i < |run| && run[i].AppendCut? ==> run[i].deletes == 0
  }

  /** What was said in a conversation in appends cut short since it was last settled. */
  function Pending(run: seq<Event>, conv: string): History {
    if run == [] then [] else
    var last, before := run[|run| - 1], Pending(run[..|run| - 1], conv);
    if last.conv != conv then before
    else if last.AppendCut? then before + [last.message] else []
  }

  /** What was said in it before that. */
  function Before(run: seq<Event>, conv: string): History {
    if run == [] then [] else
    var last, before := run[|run| - 1], Before(run[..|run| - 1], conv);
    if last.conv == conv && !last.AppendCut? then Log(run, conv) else before
  }

  lemma {:induction false} LogSplits(run: seq<Event>, conv: string)
    ensures Log(run, conv) == Before(run, conv) + Pending(run, conv)
  {
    if run != [] {
      var front, e := run[..|run| - 1], run[|run| - 1];
      LogSplits(front, conv);
      if e.conv == conv && e.AppendCut? {
        Concat(Before(front, conv), Pending(front, conv), [e.message]);
      }
    }
  }

  lemma {:induction false} ReplayExactly(max: nat, run: seq<Event>, conv: string)
    requires CrashesOnly(run)
    ensures Replay(max, run, conv) == Window.Prune(max, Before(run, conv)) + Pending(run, conv)
  {
    if run != [] {
      var front, e := run[..|run| - 1], run[|run| - 1];
      ReplayExactly(max, front, conv);
      if e.conv == conv {
        if e.AppendCut? {
          Concat(Window.Prune(max, Before(front, conv)), Pending(front, conv), [e.message]);
        } else {
          ReplayTied(max, run, conv);
        }
      }
    }
  }

  /** What the SQL store returns in every state: the window of what was settled, and all that was cut short since. */
  lemma {:induction false} CrashedExactly(max: nat, run: seq<Event>, conv: string)
    requires CrashesOnly(run)
    ensures Sql.HistoryOf(SqlRun(max, run), conv) == Window.Prune(max, Before(run, conv)) + Pending(run, conv)
  {
    SqlRunReplays(max, run, conv);
    ReplayExactly(max, run, conv);
  }

  /** When a history returned breaks a promise of the window: exactly these conditions on what a crash left. */
  lemma {:induction false} BrokenIff(max: nat, run: seq<Event>, conv: string)
    requires CrashesOnly(run)
    ensures var h, window, pending :=
              Sql.HistoryOf(SqlRun(max, run), conv), Window.Prune(max, Before(run, conv)), Pending(run, conv);
            && (UserFirst(h) <==> window != [] || pending == [] || pending[0].role == User)
            && (|h| <= max <==> |window| + |pending| <= max)
  {
    CrashedExactly(max, run, conv);
  }

  /** A run of nothing but crashes in one conversation leaves all of it pending. */
  lemma {:induction false} OnlyCuts(conv: string, messages: History) returns (run: seq<Event>)
    ensures CrashesOnly(run) && Before(run, conv) == [] && Pending(run, conv) == messages
    decreases |messages|
  {
    run := [];
    if messages != [] {
      var front, last := messages[..|messages| - 1], messages[|messages| - 1];
      var before := OnlyCuts(conv, front);
      run := before + [AppendCut(conv, last, 0)];
      assert run[..|run| - 1] == before && front + [last] == messages;
    }
  }

  /** An answer cut short in an empty conversation is what the next request would open with. */
  lemma CrashBreaksOrder(max: nat, conv: string, answer: StoredMessage) returns (run: seq<Event>)
    requires answer.role == Assistant
    ensures CrashesOnly(run) && !UserFirst(Sql.HistoryOf(SqlRun(max, run), conv))
  {
    run := OnlyCuts(conv, [answer]);
    BrokenIff(max, run, conv);
  }

  /** More crashes in a row than the window is long leave more than the window holds. */
  lemma {:induction false} CrashBreaksSize(max: nat, conv: string, messages: History) returns (run: seq<Event>)
    requires |messages| > max
    ensures CrashesOnly(run) && Sql.HistoryOf(SqlRun(max, run), conv) == messages
  {
    run := OnlyCuts(conv, messages);
    CrashedExactly(max, run, conv);
    ConcatNil(messages);
  }

  // A router only ever answers a question

  predicate EndsWithUser(h: History) {
    h != [] && h[|h| - 1].role == User
  }

  /** Every answer appended directly follows a question of its conversation, as in core/router.py:361-369. */
  predicate Disciplined(run: seq<Event>) {
    forall i :: 0 <= i < |run| && !run[i].Prune? && run[i].message.role == Assistant ==>
      EndsWithUser(Log(run[..i], run[i].conv))
  }

  /** What holds of a conversation in every state of such a run. */
  predicate Presentable(h: History, log: History) {
    UserFirst(h) && (EndsWithUser(log) ==> EndsWithUser(h))
  }

  lemma PruneKeepsQuestion(max: nat, h: History)
    requires 1 <= max && EndsWithUser(h)
    ensures EndsWithUser(Window.Prune(max, h))
  {
    assert Start(max, h) < |h|;
  }

  lemma HeardPresentable(max: nat, h: History, log: History, e: Event)
    requires 1 <= max && Presentable(h, log)
    requires e.AppendCut? && e.deletes > 0 ==> LandsOnUser(max, h + [e.message])
    requires !e.Prune? && e.message.role == Assistant ==> EndsWithUser(log)
    ensures Presentable(Heard(max, h, e), if e.Prune? then log else log + [e.message])
  {
    var h' := if e.Prune? then h else h + [e.message];
    if EndsWithUser(h') { PruneKeepsQuestion(max, h'); }
    if e.AppendCut? && e.deletes > 0 { TearSafeIff(max, h'); }
  }

  /** Each pass that stopped half-way would have cut at a user message. A crash stops none half-way. */
  predicate SafeCuts(max: nat, run: seq<Event>)
    requires 1 <= max
  {
    forall i :: 0 <= i < |run| ==> SafeCut(max, run, i)
  }

  predicate SafeCut(max: nat, run: seq<Event>, i: nat)
    requires 1 <= max && i < |run|
  {
    run[i].AppendCut? && run[i].deletes > 0 ==>
      LandsOnUser(max, Replay(max, run[..i], run[i].conv) + [run[i].message])
  }

  lemma FrontDisciplined(max: nat, run: seq<Event>)
    requires 1 <= max && run != [] && Disciplined(run) && SafeCuts(max, run)
    ensures Disciplined(run[..|run| - 1]) && SafeCuts(max, run[..|run| - 1])
  {
    var front := run[..|run| - 1];
    forall i | 0 <= i < |front|
      ensures SafeCut(max, front, i)
      ensures !front[i].Prune? && front[i].message.role == Assistant ==> EndsWithUser(Log(front[..i], front[i].conv))
    {
      assert front[..i] == run[..i] && front[i] == run[i] && SafeCut(max, run, i);
    }
  }

  lemma {:induction false} ReplayPresentable(max: nat, run: seq<Event>, conv: string)
    requires 1 <= max && SafeCuts(max, run) && Disciplined(run)
    ensures Presentable(Replay(max, run, conv), Log(run, conv))
  {
    if run != [] {
      var n := |run| - 1;
      FrontDisciplined(max, run);
      ReplayPresentable(max, run[..n], conv);
      if run[n].conv == conv {
        assert SafeCut(max, run, n);
        HeardPresentable(max, Replay(max, run[..n], conv), Log(run[..n], conv), run[n]);
      }
    }
  }

  /**
   * For a store that holds at least one message, and a run in which every answer directly follows its
   * question: whatever crashes, each history read back opens with a user message; and so it does if
   * passes stop half-way whose size cut lands on one.
   */
  lemma {:induction false} AlwaysUserFirst(max: nat, run: seq<Event>, conv: string)
    requires 1 <= max && Disciplined(run) && (CrashesOnly(run) || SafeCuts(max, run))
    ensures Presentable(Sql.HistoryOf(SqlRun(max, run), conv), Log(run, conv))
  {
    SqlRunReplays(max, run, conv);
    ReplayPresentable(max, run, conv);
  }

  /** What an append cut short leaves to read. */
  lemma CutReads(max: nat, run: seq<Event>, conv: string, message: StoredMessage, deletes: nat)
    ensures Sql.HistoryOf(SqlRun(max, run + [AppendCut(conv, message, deletes)]), conv)
         == Tear(max, Sql.HistoryOf(SqlRun(max, run), conv) + [message], deletes)
  {
    var longer := run + [AppendCut(conv, message, deletes)];
    assert longer[..|run|] == run;
    SqlRunReplays(max, run, conv);
    SqlRunReplays(max, longer, conv);
  }

  /**
   * The next append after such a run can be cut short anywhere without leaving an answer in front if
   * and only if it does not exceed the window, or exceeds it by messages that end where the user's begin.
   */
  lemma {:induction false} InterruptionSafeIff(max: nat, run: seq<Event>, conv: string, message: StoredMessage)
    requires 1 <= max && Disciplined(run) && (CrashesOnly(run) || SafeCuts(max, run))
    requires message.role == Assistant ==> EndsWithUser(Log(run, conv))
    ensures (forall deletes :: UserFirst(Sql.HistoryOf(SqlRun(max, run + [AppendCut(conv, message, deletes)]), conv)))
       <==> LandsOnUser(max, Sql.HistoryOf(SqlRun(max, run), conv) + [message])
  {
    AlwaysUserFirst(max, run, conv);
    var h := Sql.HistoryOf(SqlRun(max, run), conv) + [message];
    forall deletes: nat
      ensures Sql.HistoryOf(SqlRun(max, run + [AppendCut(conv, message, deletes)]), conv) == Tear(max, h, deletes)
    {
      CutReads(max, run, conv, message, deletes);
    }
    TearSafeIff(max, h);
  }

  /** One more event of such a run. */
  lemma Extended(max: nat, run: seq<Event>, e: Event) returns (longer: seq<Event>)
    requires Disciplined(run) && !e.Prune?
    requires e.message.role == Assistant ==> EndsWithUser(Log(run, e.conv))
    ensures Disciplined(longer) && Log(longer, e.conv) == Log(run, e.conv) + [e.message]
    ensures Replay(max, longer, e.conv) == Heard(max, Replay(max, run, e.conv), e)
  {
    longer := run + [e];
    assert longer[..|run|] == run;
    forall i | 0 <= i < |run| ensures longer[..i] == run[..i] {
    }
  }

  lemma TornExchange(conv: string, ask: StoredMessage, reply: StoredMessage)
    requires ask.role == User && reply.role == Assistant
    ensures Heard(2, [], Append(conv, ask)) == [ask]
    ensures Heard(2, [ask], Append(conv, reply)) == [ask, reply]
    ensures Heard(2, [ask, reply], AppendCut(conv, ask, 1)) == [reply, ask]
  {
    assert [] + [ask] == [ask] && [ask] + [reply] == [ask, reply];
    assert [ask, reply] + [ask] == [ask, reply, ask];
  }

  /**
   * Without a crash such a run can go wrong: a pass that stops after the size cut leaves the answer of
   * the oldest exchange in front, for the process that goes on to read.
   */
  lemma TornPassBreaksOrder(conv: string, ask: StoredMessage, reply: StoredMessage) returns (run: seq<Event>)
    requires ask.role == User && reply.role == Assistant
    ensures Disciplined(run) && !UserFirst(Sql.HistoryOf(SqlRun(2, run), conv))
  {
    TornExchange(conv, ask, reply);
    run := Extended(2, [], Append(conv, ask));
    run := Extended(2, run, Append(conv, reply));
    run := Extended(2, run, AppendCut(conv, ask, 1));
    SqlRunReplays(2, run, conv);
  }
}
