/** `SqliteConversationMemory`: every conversation in one table, trimmed by row id. */
module SqlStore {
  import opened Common
  import opened Window

  datatype Row = Row(id: nat, conv: string, message: StoredMessage)

  /** The table in primary-key order, and the last id AUTOINCREMENT handed out. */
  datatype Table = Table(rows: seq<Row>, lastId: nat)

  /** Ids only grow: rows are in strictly ascending order and never above `lastId`. */
  predicate WellFormed(t: Table) {
    && Ascending(t.rows)
    && forall i :: 0 <= i < |t.rows| ==> 1 <= t.rows[i].id <= t.lastId
  }

  predicate Ascending(rows: seq<Row>) {
    forall i, j :: 0 <= i < j < |rows| ==> rows[i].id < rows[j].id
  }

  /** The rows of one conversation, by id (core/memory.py:267). */
  function Select(rows: seq<Row>, conv: string): (r: seq<Row>)
    ensures |r| <= |rows|
    ensures forall i :: 0 <= i < |r| ==> r[i].conv == conv
  {
    if rows == [] then [] else
    var last, before := rows[|rows| - 1], Select(rows[..|rows| - 1], conv);
    if last.conv == conv then before + [last] else before
  }

  /** DELETE ... WHERE id IN (ids) */
  function Delete(rows: seq<Row>, ids: set<nat>): (r: seq<Row>)
    ensures |r| <= |rows|
    ensures forall i :: 0 <= i < |r| ==> r[i].id !in ids
  {
    if rows == [] then [] else
    var last, before := rows[|rows| - 1], Delete(rows[..|rows| - 1], ids);
    if last.id in ids then before else before + [last]
  }

  function Ids(rows: seq<Row>): set<nat> {
    set i | 0 <= i < |rows| :: rows[i].id
  }

  function Messages(rows: seq<Row>): (h: History)
    ensures |h| == |rows|
    ensures forall i :: 0 <= i < |rows| ==> h[i] == rows[i].message
  {
    seq(|rows|, i requires 0 <= i < |rows| => rows[i].message)
  }

  function HistoryOf(t: Table, conv: string): History {
    Messages(Select(t.rows, conv))
  }

  /** The table after the insert of `append` has been committed (core/memory.py:277-281). */
  function Inserted(t: Table, conv: string, message: StoredMessage): Table {
    Table(t.rows + [Row(t.lastId + 1, conv, message)], t.lastId + 1)
  }

  /** The table after the oldest `k` rows of one conversation are gone. */
  function Trimmed(t: Table, conv: string, k: nat): Table
    requires k <= |Select(t.rows, conv)|
  {
    t.(rows := Delete(t.rows, Ids(Select(t.rows, conv)[..k])))
  }

  /** The table after one pass of the retention policy. */
  function Pruned(max: nat, t: Table, conv: string): Table {
    Trimmed(t, conv, Start(max, HistoryOf(t, conv)))
  }

  /** The table after a pass that stopped after this many DELETE statements. */
  function PartlyPruned(max: nat, t: Table, conv: string, deletes: nat): Table {
    Trimmed(t, conv, Torn(max, HistoryOf(t, conv), deletes))
  }

  // Lemmas about the two queries

  lemma SelectPush(rows: seq<Row>, last: Row, conv: string)
    ensures Select(rows + [last], conv)
         == if last.conv == conv then Select(rows, conv) + [last] else Select(rows, conv)
  {
  }

  lemma DeletePush(rows: seq<Row>, last: Row, ids: set<nat>)
    ensures Delete(rows + [last], ids)
         == if last.id in ids then Delete(rows, ids) else Delete(rows, ids) + [last]
  {
  }

  lemma {:induction false} SelectFrom(rows: seq<Row>, conv: string, row: Row)
    ensures row in Select(rows, conv) <==> row in rows && row.conv == conv
  {
    if rows != [] {
      var front, last := rows[..|rows| - 1], rows[|rows| - 1];
      SelectFrom(front, conv, row);
      assert row in rows <==> row in front || row == last;
    }
  }

  lemma {:induction false} DeleteFrom(rows: seq<Row>, ids: set<nat>, row: Row)
    ensures row in Delete(rows, ids) <==> row in rows && row.id !in ids
  {
    if rows != [] {
      var front, last := rows[..|rows| - 1], rows[|rows| - 1];
      DeleteFrom(front, ids, row);
      assert row in rows <==> row in front || row == last;
    }
  }

  lemma {:induction false} SelectAscending(rows: seq<Row>, conv: string)
    requires Ascending(rows)
    ensures Ascending(Select(rows, conv))
  {
    if rows != [] {
      var front, last := rows[..|rows| - 1], rows[|rows| - 1];
      SelectAscending(front, conv);
      forall i | 0 <= i < |Select(front, conv)| ensures Select(front, conv)[i].id < last.id {
        SelectFrom(front, conv, Select(front, conv)[i]);
      }
    }
  }

  lemma {:induction false} DeleteAscending(rows: seq<Row>, ids: set<nat>)
    requires Ascending(rows)
    ensures Ascending(Delete(rows, ids))
  {
    if rows != [] {
      var front, last := rows[..|rows| - 1], rows[|rows| - 1];
      DeleteAscending(front, ids);
      forall i | 0 <= i < |Delete(front, ids)| ensures Delete(front, ids)[i].id < last.id {
        DeleteFrom(front, ids, Delete(front, ids)[i]);
      }
    }
  }

  /** Selecting and deleting commute. */
  lemma {:induction false} SelectDelete(rows: seq<Row>, ids: set<nat>, conv: string)
    ensures Select(Delete(rows, ids), conv) == Delete(Select(rows, conv), ids)
  {
    if rows != [] {
      var front, last := rows[..|rows| - 1], rows[|rows| - 1];
      SelectDelete(front, ids, conv);
      SelectPush(Delete(front, ids), last, conv);
      DeletePush(Select(front, conv), last, ids);
    }
  }

  /** Deleting ids that no row carries changes nothing. */
  lemma {:induction false} DeleteAbsent(rows: seq<Row>, ids: set<nat>)
    requires forall i :: 0 <= i < |rows| ==> rows[i].id !in ids
    ensures Delete(rows, ids) == rows
  {
    if rows != [] {
      DeleteAbsent(rows[..|rows| - 1], ids);
    }
  }

  /** Deleting the ids of the first `k` rows leaves the rest. */
  lemma {:induction false} DeletePrefix(rows: seq<Row>, k: nat)
    requires Ascending(rows) && k <= |rows|
    ensures Delete(rows, Ids(rows[..k])) == rows[k..]
  {
    var n := |rows|;
    if k < n {
      var front := rows[..n - 1];
      assert front[..k] == rows[..k];
      DeletePrefix(front, k);
      assert rows[n - 1].id !in Ids(rows[..k]);
      assert rows[k..] == front[k..] + [rows[n - 1]];
    } else {
      DeleteAll(rows, Ids(rows));
      assert rows[..k] == rows;
    }
  }

  lemma {:induction false} DeleteAll(rows: seq<Row>, ids: set<nat>)
    requires Ids(rows) <= ids
    ensures Delete(rows, ids) == []
  {
    if rows != [] {
      var front := rows[..|rows| - 1];
      assert forall i :: 0 <= i < |front| ==> front[i] == rows[i] && rows[i].id in Ids(rows);
      DeleteAll(front, ids);
      assert rows[|rows| - 1].id in Ids(rows);
    }
  }

  lemma {:induction false} DeleteTwice(rows: seq<Row>, first: set<nat>, second: set<nat>)
    ensures Delete(Delete(rows, first), second) == Delete(rows, first + second)
  {
    if rows != [] {
      var front, last := rows[..|rows| - 1], rows[|rows| - 1];
      DeleteTwice(front, first, second);
      DeletePush(Delete(front, first), last, second);
    }
  }

  /** Two rows of an ascending table that share an id are the same row. */
  lemma SameId(rows: seq<Row>, a: Row, b: Row)
    requires Ascending(rows) && a in rows && b in rows && a.id == b.id
    ensures a == b
  {
  }

  /** No row of another conversation carries one of this conversation's ids. */
  lemma IdsApart(rows: seq<Row>, conv: string, k: nat, other: string)
    requires Ascending(rows) && k <= |Select(rows, conv)| && other != conv
    ensures forall i :: 0 <= i < |Select(rows, other)|
                ==> Select(rows, other)[i].id !in Ids(Select(rows, conv)[..k])
  {
    var mine, theirs := Select(rows, conv), Select(rows, other);
    forall i | 0 <= i < |theirs| ensures theirs[i].id !in Ids(mine[..k]) {
      if j :| 0 <= j < k && mine[j].id == theirs[i].id {
        SelectFrom(rows, conv, mine[j]);
        SelectFrom(rows, other, theirs[i]);
        SameId(rows, mine[j], theirs[i]);
      }
    }
  }

  lemma TrimWellFormed(t: Table, conv: string, k: nat)
    requires WellFormed(t) && k <= |Select(t.rows, conv)|
    ensures WellFormed(Trimmed(t, conv, k))
  {
    var ids := Ids(Select(t.rows, conv)[..k]);
    var kept := Delete(t.rows, ids);
    DeleteAscending(t.rows, ids);
    forall i | 0 <= i < |kept| ensures 1 <= kept[i].id <= t.lastId {
      DeleteFrom(t.rows, ids, kept[i]);
    }
  }

  /** Trimming one conversation takes its oldest messages. */
  lemma TrimTakesOldest(t: Table, conv: string, k: nat)
    requires WellFormed(t) && k <= |Select(t.rows, conv)|
    ensures Select(Trimmed(t, conv, k).rows, conv) == Select(t.rows, conv)[k..]
  {
    SelectAscending(t.rows, conv);
    SelectDelete(t.rows, Ids(Select(t.rows, conv)[..k]), conv);
    DeletePrefix(Select(t.rows, conv), k);
  }

  /** Trimming one conversation touches no other row. */
  lemma TrimSparesOthers(t: Table, conv: string, k: nat, other: string)
    requires WellFormed(t) && k <= |Select(t.rows, conv)| && other != conv
    ensures Select(Trimmed(t, conv, k).rows, other) == Select(t.rows, other)
  {
    var ids := Ids(Select(t.rows, conv)[..k]);
    IdsApart(t.rows, conv, k, other);
    SelectDelete(t.rows, ids, other);
    DeleteAbsent(Select(t.rows, other), ids);
  }

  /** Trimming takes the oldest messages of one history, and keeps the table's ids unique and ascending. */
  lemma TrimmedHistory(t: Table, conv: string, k: nat)
    requires WellFormed(t) && k <= |Select(t.rows, conv)|
    ensures WellFormed(Trimmed(t, conv, k)) && HistoryOf(Trimmed(t, conv, k), conv) == HistoryOf(t, conv)[k..]
  {
    TrimWellFormed(t, conv, k);
    TrimTakesOldest(t, conv, k);
  }

  /** One pass over the shared table prunes one history and leaves the others' rows alone. */
  lemma PrunedTouchesOne(max: nat, t: Table, conv: string, other: string)
    requires WellFormed(t)
    ensures WellFormed(Pruned(max, t, conv))
    ensures HistoryOf(Pruned(max, t, conv), conv) == Prune(max, HistoryOf(t, conv))
    ensures other != conv ==> Select(Pruned(max, t, conv).rows, other) == Select(t.rows, other)
  {
    var k := Start(max, HistoryOf(t, conv));
    TrimmedHistory(t, conv, k);
    if other != conv { TrimSparesOthers(t, conv, k, other); }
  }

  /** ... and so does one that stopped half-way. */
  lemma PartlyPrunedTouchesOne(max: nat, t: Table, conv: string, deletes: nat, other: string)
    requires WellFormed(t)
    ensures WellFormed(PartlyPruned(max, t, conv, deletes))
    ensures HistoryOf(PartlyPruned(max, t, conv, deletes), conv) == Tear(max, HistoryOf(t, conv), deletes)
    ensures other != conv ==> Select(PartlyPruned(max, t, conv, deletes).rows, other) == Select(t.rows, other)
  {
    var k := Torn(max, HistoryOf(t, conv), deletes);
    TrimmedHistory(t, conv, k);
    if other != conv { TrimSparesOthers(t, conv, k, other); }
  }

  lemma InsertedWellFormed(t: Table, conv: string, message: StoredMessage)
    requires WellFormed(t)
    ensures WellFormed(Inserted(t, conv, message))
  {
  }

  lemma InsertedAppends(t: Table, conv: string, message: StoredMessage, other: string)
    ensures HistoryOf(Inserted(t, conv, message), conv) == HistoryOf(t, conv) + [message]
    ensures other != conv ==> Select(Inserted(t, conv, message).rows, other) == Select(t.rows, other)
  {
  }

  class SqliteConversationMemory {
    const maxMessages: nat
    /** What this connection sees, committed or not. */
    var table: Table
    /** Every table ever committed, in order: what a crash can leave behind. */
    ghost var commits: seq<Table>

    ghost predicate Valid()
      reads this
    {
      1 <= maxMessages && WellFormed(table)
    }

    /** A store opened on what an earlier process left committed. */
    constructor (max: nat, durable: Table)
      requires 1 <= max && WellFormed(durable)
      ensures Valid() && maxMessages == max && table == durable && commits == [durable]
    {
      maxMessages := max;
      table, commits := durable, [durable];
    }

    method Commit()
      modifies this`commits
      ensures commits == old(commits) + [table]
    {
      commits := commits + [table];
    }

    /** The messages of exactly the rows of this conversation, in the order they were stored. */
    method GetHistory(conv: string) returns (h: History, ghost rows: seq<Row>)
      requires Valid()
      ensures h == HistoryOf(table, conv)
      ensures h == Messages(rows) && Ascending(rows) && forall row :: row in rows <==> row in table.rows && row.conv == conv
    {
      rows := Select(table.rows, conv);
      h := Messages(Select(table.rows, conv));
      SelectAscending(table.rows, conv);
      forall row ensures row in rows <==> row in table.rows && row.conv == conv {
        SelectFrom(table.rows, conv, row);
      }
    }

    /** Two commits: a crash between them leaves the message stored and the window unpruned. */
    method Append(conv: string, message: StoredMessage)
      requires Valid()
      modifies this
      ensures Valid()
      ensures table == Pruned(maxMessages, Inserted(old(table), conv, message), conv)
      ensures commits == old(commits) + [Inserted(old(table), conv, message), table]
    {
      InsertedWellFormed(table, conv, message);
      table := Inserted(table, conv, message);
      Commit();
      PruneLocked(conv);
    }

    /**
     * An append that raises after its insert is committed: its pass has made this many deletes, and
     * what they took waits for the next commit of any conversation.
     */
    method AppendCut(conv: string, message: StoredMessage, deletes: nat)
      requires Valid()
      modifies this
      ensures Valid()
      ensures table == PartlyPruned(maxMessages, Inserted(old(table), conv, message), conv, deletes)
      ensures commits == old(commits) + [Inserted(old(table), conv, message)]
    {
      InsertedWellFormed(table, conv, message);
      table := Inserted(table, conv, message);
      Commit();
      PartlyPrunedTouchesOne(maxMessages, table, conv, deletes, conv);
      table := PartlyPruned(maxMessages, table, conv, deletes);
    }

    method PruneNow(conv: string)
      requires Valid()
      modifies this
      ensures Valid()
      ensures table == Pruned(maxMessages, old(table), conv)
      ensures commits == old(commits) + [table]
    {
      PruneLocked(conv);
    }

    method PruneLocked(conv: string)
      requires WellFormed(table)
      modifies this
      ensures WellFormed(table)
      ensures table == Pruned(maxMessages, old(table), conv)
      ensures commits == old(commits) + [table]
    {
      ghost var before, mine := table, Select(table.rows, conv);
      ghost var gone := 0;
      TrimNothing(before, conv);

      var count := |Select(table.rows, conv)|;
      if count > maxMessages {
        var excess := count - maxMessages;
        var ids := Ids(Select(table.rows, conv)[..excess]);
        if ids != {} {
          table := table.(rows := Delete(table.rows, ids));
        }
        gone := excess;
        IdsOfSome(mine, excess);
      }
      ghost var cut := gone;
      TrimTakesOldest(before, conv, gone);

      var rows := Select(table.rows, conv);
      while rows != [] && rows[0].message.role != User
        invariant cut <= gone <= |mine| && rows == mine[gone..]
        invariant table == Trimmed(before, conv, gone)
        invariant NoUser(mine, cut, gone)
        invariant commits == old(commits)
        decreases |rows|
      {
        var oldest := rows[0];
        assert oldest == mine[gone] && NoUser(mine, cut, gone + 1);
        TrimOneMore(before, conv, gone, oldest);
        gone := gone + 1;
        table := table.(rows := Delete(table.rows, {oldest.id}));
        assert table == Trimmed(before, conv, gone);
        TrimTakesOldest(before, conv, gone);
        rows := Select(table.rows, conv);
      }
      PrunedEndsHere(maxMessages, before, conv, gone);
      TrimWellFormed(before, conv, gone);
      Commit();
    }
  }

  predicate NoUser(rows: seq<Row>, from: nat, to: nat)
    requires from <= to <= |rows|
  {
    forall i :: from <= i < to ==> rows[i].message.role != User
  }

  /** Where the re-query loop stops is where the window begins. */
  lemma PrunedEndsHere(max: nat, t: Table, conv: string, k: nat)
    requires Excess(max, |Select(t.rows, conv)|) <= k <= |Select(t.rows, conv)|
    requires NoUser(Select(t.rows, conv), Excess(max, |Select(t.rows, conv)|), k)
    requires k == |Select(t.rows, conv)| || Select(t.rows, conv)[k].message.role == User
    ensures Pruned(max, t, conv) == Trimmed(t, conv, k)
  {
  }

  lemma TrimNothing(t: Table, conv: string)
    ensures Trimmed(t, conv, 0) == t
  {
    DeleteAbsent(t.rows, Ids(Select(t.rows, conv)[..0]));
  }

  /** Deleting the oldest row left is trimming one row more. */
  lemma TrimOneMore(t: Table, conv: string, k: nat, oldest: Row)
    requires k < |Select(t.rows, conv)| && Select(t.rows, conv)[k] == oldest
    ensures Trimmed(t, conv, k).(rows := Delete(Trimmed(t, conv, k).rows, {oldest.id})) == Trimmed(t, conv, k + 1)
  {
    var mine := Select(t.rows, conv);
    IdsGrow(mine, k);
    DeleteTwice(t.rows, Ids(mine[..k]), {mine[k].id});
  }

  lemma IdsOfSome(rows: seq<Row>, k: nat)
    requires 0 < k <= |rows|
    ensures Ids(rows[..k]) != {}
  {
    assert rows[..k][0].id in Ids(rows[..k]);
  }

  lemma IdsGrow(rows: seq<Row>, k: nat)
    requires k < |rows|
    ensures Ids(rows[..k]) + {rows[k].id} == Ids(rows[..k + 1])
  {
  }
}
