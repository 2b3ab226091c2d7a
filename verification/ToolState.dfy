/** `ToolStateStore`: which tools are switched off, and since when. */
module ToolState {
  import opened Common
  import Text

  const MIN_TIME_OFF_SECONDS: real := 3600.0

  const PROTECTED: set<string> := {"list_tools", "enable_tool"}

  datatype SwitchedOff = SwitchedOff(since: real, reason: string)

  type OffTable = map<string, SwitchedOff>

  /** What actually changed in the table, in order. */
  datatype Switch = Off(name: string, at: real) | On(name: string)

  /** Since when a tool has been off, replaying every change so far. */
  function Since(log: seq<Switch>, name: string): Option<real> {
    if log == [] then None else
    var last := log[|log| - 1];
    if last.name != name then Since(log[..|log| - 1], name)
    else match last case Off(_, at) => Some(at) case On(_) => None
  }

  /** `name` was switched off at `at` and nothing has switched it since. */
  predicate OffWithoutBreak(log: seq<Switch>, name: string, at: real) {
    exists i :: 0 <= i < |log| && OffFrom(log, name, at, i)
  }

  predicate OffFrom(log: seq<Switch>, name: string, at: real, i: nat)
    requires i < |log|
  {
    log[i] == Off(name, at) && forall j :: i < j < |log| ==> log[j].name != name
  }

  /** Being off since `at` means exactly an uninterrupted stretch that began then. */
  lemma {:induction false} SinceIsUninterrupted(log: seq<Switch>, name: string, at: real)
    ensures Since(log, name) == Some(at) <==> OffWithoutBreak(log, name, at)
  {
    if log != [] {
      var n := |log| - 1;
      var front := log[..n];
      if log[n].name != name {
        SinceIsUninterrupted(front, name, at);
        if i :| 0 <= i < n && OffFrom(front, name, at, i) {
          assert OffFrom(log, name, at, i);
        }
        if i :| 0 <= i < |log| && OffFrom(log, name, at, i) {
          assert OffFrom(front, name, at, i);
        }
      } else {
        if log[n] == Off(name, at) { assert OffFrom(log, name, at, n); }
      }
    }
  }

  /** The table says of every tool what the changes so far say. */
  ghost predicate Recorded(table: OffTable, log: seq<Switch>) {
    forall name :: Since(log, name) == if name in table then Some(table[name].since) else None
  }

  lemma RecordedAfter(table: OffTable, log: seq<Switch>, s: Switch, reason: string)
    requires Recorded(table, log)
    ensures Recorded(if s.Off? then table[s.name := SwitchedOff(s.at, reason)] else table - {s.name}, log + [s])
  {
  }

  class ToolStateStore {
    var table: OffTable
    ghost var log: seq<Switch>

    ghost predicate Valid()
      reads this
    {
      table.Keys !! PROTECTED && Recorded(table, log)
    }

    constructor ()
      ensures Valid() && table == map[] && log == []
    {
      table, log := map[], [];
    }

    /** The names currently off, as the router's gate asks for them. */
    method Disabled() returns (names: set<string>)
      ensures names == table.Keys
    {
      names := table.Keys;
    }

    method DisabledSince(name: string) returns (since: Option<real>)
      requires Valid()
      ensures since == Since(log, name)
      ensures since.Some? <==> name in table
    {
      assert Since(log, name) == if name in table then Some(table[name].since) else None;
      since := if name in table then Some(table[name].since) else None;
    }

    /** INSERT OR IGNORE: a tool already off keeps the moment it was switched off. */
    method Disable(name: string, reason: string, now: real) returns (changed: bool)
      requires Valid()
      modifies this
      ensures Valid()
      ensures changed <==> name !in PROTECTED && name !in old(table)
      ensures table == if changed then old(table)[name := SwitchedOff(now, Text.Strip(reason))] else old(table)
      ensures log == if changed then old(log) + [Off(name, now)] else old(log)
    {
      if name in PROTECTED {
        return false;
      }
      changed := name !in table;
      if changed {
        RecordedAfter(table, log, Off(name, now), Text.Strip(reason));
        table := table[name := SwitchedOff(now, Text.Strip(reason))];
        log := log + [Off(name, now)];
      }
    }

    /** One call restores any tool that is off; nothing is validated. */
    method Enable(name: string) returns (changed: bool)
      requires Valid()
      modifies this
      ensures Valid()
      ensures changed <==> name in old(table)
      ensures table == old(table) - {name} && name !in table
      ensures log == if changed then old(log) + [On(name)] else old(log)
    {
      changed := name in table;
      if changed {
        RecordedAfter(table, log, On(name), "");
        log := log + [On(name)];
      }
      table := table - {name};
    }
  }
}
