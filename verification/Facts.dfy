/** Facts the user asked to keep: the bounded duplicate-free store, and the packing of its context. */
module Facts {
  import opened Common
  import opened Text

  const MAX_ACTIVE_FACTS: nat := 50
  const MAX_FACT_LENGTH: nat := 300
  const MAX_CONTEXT_CHARS: nat := 4000

  datatype Fact = Fact(id: nat, text: string, createdAt: real, forgottenAt: Option<real>)

  /** `" ".join(text.split())` */
  function Normalise(text: string): string {
    Join(" ", Words(text))
  }

  lemma NormaliseIdempotent(text: string)
    ensures Normalise(Normalise(text)) == Normalise(text)
  {
    WordsAreWords(text);
    WordsOfJoin(Words(text));
  }

  /** No word and no character of one is lost or moved, and texts with the same words are stored alike. */
  lemma NormaliseKeepsWords(text: string, other: string)
    ensures Words(Normalise(text)) == Words(text) && Visible(Normalise(text)) == Visible(text)
    ensures Normalise(text) == Normalise(other) <==> Words(text) == Words(other)
  {
    WordsAreWords(text);
    WordsOfJoin(Words(text));
    WordsAreWords(other);
    WordsOfJoin(Words(other));
    WordsKeepAll(text);
  }

  predicate Storable(text: string) {
    Normalise(text) == text && 1 <= |text| <= MAX_FACT_LENGTH
  }

  /** The facts not forgotten, by id. */
  function Active(rows: seq<Fact>): (r: seq<Fact>)
    ensures |r| <= |rows|
  {
    if rows == [] then [] else
    var last, before := rows[|rows| - 1], Active(rows[..|rows| - 1]);
    if last.forgottenAt.None? then before + [last] else before
  }

  lemma {:induction false} ActiveMember(rows: seq<Fact>, f: Fact)
    ensures f in Active(rows) <==> f in rows && f.forgottenAt.None?
  {
    if rows != [] {
      var front, last := rows[..|rows| - 1], rows[|rows| - 1];
      ActiveMember(front, f);
      assert f in rows <==> f in front || f == last;
    }
  }

  predicate IdsAscend(rows: seq<Fact>, lastId: nat) {
    && (forall i, j :: 0 <= i < j < |rows| ==> rows[i].id < rows[j].id)
    && (forall i :: 0 <= i < |rows| ==> 1 <= rows[i].id <= lastId)
  }

  lemma {:induction false} ActiveAscends(rows: seq<Fact>, lastId: nat)
    requires IdsAscend(rows, lastId)
    ensures IdsAscend(Active(rows), lastId)
  {
    if rows != [] {
      var front, last := rows[..|rows| - 1], rows[|rows| - 1];
      ActiveAscends(front, lastId);
      forall i | 0 <= i < |Active(front)| ensures Active(front)[i].id < last.id {
        ActiveMember(front, Active(front)[i]);
      }
    }
  }

  /** An active fact equal to `text` up to case. */
  predicate SameAs(f: Fact, lower: string -> string, text: string) {
    f.forgottenAt.None? && lower(f.text) == lower(text)
  }

  predicate NoTwoAlike(rows: seq<Fact>, lower: string -> string) {
    forall i, j :: 0 <= i < j < |rows| && rows[j].forgottenAt.None? ==> !SameAs(rows[i], lower, rows[j].text)
  }

  predicate AllStorable(rows: seq<Fact>) {
    forall i :: 0 <= i < |rows| ==> Storable(rows[i].text)
  }

  predicate Orderly(rows: seq<Fact>, lastId: nat, lower: string -> string) {
    IdsAscend(rows, lastId) && |Active(rows)| <= MAX_ACTIVE_FACTS && NoTwoAlike(rows, lower)
  }

  predicate WellFormed(rows: seq<Fact>, lastId: nat, lower: string -> string) {
    Orderly(rows, lastId, lower) && AllStorable(rows)
  }

  /** No row vanishes or changes but for being forgotten, once and for good. */
  predicate Keeps(before: seq<Fact>, after: seq<Fact>) {
    && |before| <= |after|
    && forall i :: 0 <= i < |before| ==>
         after[i] == before[i] || (before[i].forgottenAt.None? && after[i].forgottenAt.Some?
                                   && after[i] == before[i].(forgottenAt := after[i].forgottenAt))
  }

  /** A number that was forgotten is never an active fact again. */
  lemma ForgottenStays(before: seq<Fact>, after: seq<Fact>, lastId: nat, i: nat)
    requires IdsAscend(after, lastId) && Keeps(before, after)
    requires i < |before| && before[i].forgottenAt.Some?
    ensures forall f :: f in Active(after) ==> f.id != before[i].id
  {
    forall f | f in Active(after) ensures f.id != before[i].id {
      ActiveMember(after, f);
      assert after[i] == before[i];
    }
  }

  lemma {:induction false} ForgettingShrinks(before: seq<Fact>, after: seq<Fact>)
    requires Keeps(before, after) && |before| == |after|
    ensures |Active(after)| <= |Active(before)|
    decreases |before|
  {
    if before != [] {
      ForgettingShrinks(before[..|before| - 1], after[..|after| - 1]);
    }
  }

  /** Whatever matches `text` carries this number. */
  predicate OnlyMatch(rows: seq<Fact>, lower: string -> string, text: string, id: nat) {
    forall i :: 0 <= i < |rows| && SameAs(rows[i], lower, text) ==> rows[i].id == id
  }

  datatype Verdict = New(id: nat) | Already(id: nat) | Empty | TooLong(length: nat) | Full

  function Forgotten(f: Fact, id: int, now: real): Fact {
    if f.id == id && f.forgottenAt.None? then f.(forgottenAt := Some(now)) else f
  }

  // Runs of the store

  /** The rows, and the last id AUTOINCREMENT handed out. */
  datatype Store = Store(rows: seq<Fact>, lastId: nat)

  datatype Op = Remember(text: string, now: real) | Forget(id: int, now: real)

  const EMPTY: Store := Store([], 0)

  function Stamped(rows: seq<Fact>, id: int, now: real): (r: seq<Fact>)
    ensures |r| == |rows| && forall i :: 0 <= i < |r| ==> r[i] == Forgotten(rows[i], id, now)
  {
    seq(|rows|, i requires 0 <= i < |rows| => Forgotten(rows[i], id, now))
  }

  predicate Known(rows: seq<Fact>, lower: string -> string, text: string) {
    exists i :: 0 <= i < |rows| && SameAs(rows[i], lower, text)
  }

  /** A text that may be stored is, unless it is known or there is no room. */
  function Recorded(lower: string -> string, s: Store, cleaned: string, now: real): Store {
    if Known(s.rows, lower, cleaned) || |Active(s.rows)| >= MAX_ACTIVE_FACTS then s
    else Store(s.rows + [Fact(s.lastId + 1, cleaned, now, None)], s.lastId + 1)
  }

  function Apply(lower: string -> string, s: Store, op: Op): Store {
    match op
    case Remember(text, now) =>
      var cleaned := Normalise(text);
      if 1 <= |cleaned| <= MAX_FACT_LENGTH then Recorded(lower, s, cleaned, now) else s
    case Forget(id, now) => s.(rows := Stamped(s.rows, id, now))
  }

  function Run(lower: string -> string, ops: seq<Op>): Store {
    if ops == [] then EMPTY else Apply(lower, Run(lower, ops[..|ops| - 1]), ops[|ops| - 1])
  }

  lemma KeepsTransitive(a: seq<Fact>, b: seq<Fact>, c: seq<Fact>)
    requires Keeps(a, b) && Keeps(b, c)
    ensures Keeps(a, c)
  {
  }

  lemma RecordedOrderly(lower: string -> string, s: Store, cleaned: string, now: real)
    requires Orderly(s.rows, s.lastId, lower)
    ensures var s' := Recorded(lower, s, cleaned, now); Orderly(s'.rows, s'.lastId, lower) && Keeps(s.rows, s'.rows)
  {
    if Known(s.rows, lower, cleaned) || |Active(s.rows)| >= MAX_ACTIVE_FACTS {
      assert Recorded(lower, s, cleaned, now) == s;
    } else {
      var fact := Fact(s.lastId + 1, cleaned, now, None);
      RecordingKeeps(s.rows, s.lastId, lower, fact);
      assert Recorded(lower, s, cleaned, now) == Store(s.rows + [fact], s.lastId + 1);
    }
  }

  lemma RecordedStorable(lower: string -> string, s: Store, cleaned: string, now: real)
    requires AllStorable(s.rows) && Storable(cleaned)
    ensures AllStorable(Recorded(lower, s, cleaned, now).rows)
  {
    RecordingKeepsStorable(s.rows, Fact(s.lastId + 1, cleaned, now, None));
  }

  lemma ApplyPreserves(lower: string -> string, s: Store, op: Op)
    requires WellFormed(s.rows, s.lastId, lower)
    ensures var s' := Apply(lower, s, op); WellFormed(s'.rows, s'.lastId, lower) && Keeps(s.rows, s'.rows)
  {
    match op
    case Forget(id, now) => ForgettingKeeps(s.rows, Stamped(s.rows, id, now), s.lastId, lower, id, now);
    case Remember(text, now) =>
      NormaliseIdempotent(text);
      var cleaned := Normalise(text);
      if 1 <= |cleaned| <= MAX_FACT_LENGTH {
        RecordedOrderly(lower, s, cleaned, now);
        RecordedStorable(lower, s, cleaned, now);
      }
  }

  /** Over every run: the store stays in order, and each row of an earlier state is still there, or forgotten. */
  lemma {:induction false} RunPreserves(lower: string -> string, ops: seq<Op>, cut: nat)
    requires cut <= |ops|
    ensures WellFormed(Run(lower, ops).rows, Run(lower, ops).lastId, lower)
    ensures Keeps(Run(lower, ops[..cut]).rows, Run(lower, ops).rows)
    decreases |ops|
  {
    if ops != [] {
      var front := ops[..|ops| - 1];
      RunPreserves(lower, front, if cut < |ops| then cut else |front|);
      ApplyPreserves(lower, Run(lower, front), ops[|ops| - 1]);
      if cut < |ops| {
        assert front[..cut] == ops[..cut];
        KeepsTransitive(Run(lower, ops[..cut]).rows, Run(lower, front).rows, Run(lower, ops).rows);
      }
    }
    if cut == |ops| { assert ops[..cut] == ops; }
  }

  /** Whatever happens afterwards, a number once forgotten is never an active fact again. */
  lemma {:induction false} ForgottenForGood(lower: string -> string, ops: seq<Op>, cut: nat, i: nat)
    requires cut <= |ops| && i < |Run(lower, ops[..cut]).rows|
    requires Run(lower, ops[..cut]).rows[i].forgottenAt.Some?
    ensures forall f :: f in Active(Run(lower, ops).rows) ==> f.id != Run(lower, ops[..cut]).rows[i].id
  {
    RunPreserves(lower, ops, cut);
    ForgottenStays(Run(lower, ops[..cut]).rows, Run(lower, ops).rows, Run(lower, ops).lastId, i);
  }

  class FactStore {
    const lower: string -> string
    var rows: seq<Fact>
    var lastId: nat

    ghost predicate Valid()
      reads this
    {
      WellFormed(rows, lastId, lower)
    }

    constructor (lower: string -> string)
      ensures Valid() && rows == [] && this.lower == lower
    {
      this.lower := lower;
      rows, lastId := [], 0;
    }

    /** The active fact with this text up to case (tools/facts/store.py:155-159). */
    method FindSame(text: string) returns (index: Option<nat>)
      ensures index.Some? ==> index.value < |rows| && SameAs(rows[index.value], lower, text)
      ensures index.None? ==> forall i :: 0 <= i < |rows| ==> !SameAs(rows[i], lower, text)
    {
      for i := 0 to |rows|
        invariant forall j :: 0 <= j < i ==> !SameAs(rows[j], lower, text)
      {
        if SameAs(rows[i], lower, text) {
          return Some(i);
        }
      }
      return None;
    }

    /** The locked half of `remember`: no duplicate, no more than the maximum. */
    method RememberCleaned(cleaned: string, now: real) returns (v: Verdict)
      requires Orderly(rows, lastId, lower)
      modifies this
      ensures Orderly(rows, lastId, lower) && Keeps(old(rows), rows)
      ensures Store(rows, lastId) == Recorded(lower, Store(old(rows), old(lastId)), cleaned, now)
      ensures v.Already? || v.Full? || v.New?
      ensures v.Already? <==> Known(old(rows), lower, cleaned)
      ensures v.Already? ==> OnlyMatch(old(rows), lower, cleaned, v.id)
      ensures v.Full? ==> |Active(old(rows))| == MAX_ACTIVE_FACTS
      ensures v.New? ==>
                && |Active(old(rows))| < MAX_ACTIVE_FACTS && v.id == lastId == old(lastId) + 1
                && rows == old(rows) + [Fact(v.id, cleaned, now, None)]
      ensures !v.New? ==> rows == old(rows) && lastId == old(lastId)
    {
      var same := FindSame(cleaned);
      if same.Some? {
        OnlyOneAlike(rows, lower, cleaned, same.value);
        assert OnlyMatch(rows, lower, cleaned, rows[same.value].id);
        return Already(rows[same.value].id);
      }
      if |Active(rows)| >= MAX_ACTIVE_FACTS { return Full; }
      var fact := Fact(lastId + 1, cleaned, now, None);
      RecordingKeeps(rows, lastId, lower, fact);
      rows, lastId := rows + [fact], lastId + 1;
      return New(lastId);
    }

    method Remember(text: string, now: real) returns (v: Verdict)
      requires Valid()
      modifies this
      ensures Valid() && Keeps(old(rows), rows)
      ensures Store(rows, lastId) == Apply(lower, Store(old(rows), old(lastId)), Op.Remember(text, now))
      ensures v.Empty? <==> Normalise(text) == ""
      ensures v.TooLong? <==> |Normalise(text)| > MAX_FACT_LENGTH
      ensures v.Already? <==>
                && 1 <= |Normalise(text)| <= MAX_FACT_LENGTH
                && Known(old(rows), lower, Normalise(text))
      ensures v.Already? ==> OnlyMatch(old(rows), lower, Normalise(text), v.id)
      ensures v.Full? ==> |Active(old(rows))| == MAX_ACTIVE_FACTS
      ensures v.New? ==>
                && |Active(old(rows))| < MAX_ACTIVE_FACTS && v.id == lastId == old(lastId) + 1
                && rows == old(rows) + [Fact(v.id, Normalise(text), now, None)]
      ensures !v.New? ==> rows == old(rows) && lastId == old(lastId)
      // a text that differs from an active fact in case at most is known by the number of that fact
      ensures 1 <= |Normalise(text)| <= MAX_FACT_LENGTH ==>
                forall i :: 0 <= i < |old(rows)| && old(rows)[i].forgottenAt.None? ==>
                  lower(old(rows)[i].text) == lower(Normalise(text)) ==> v == Already(old(rows)[i].id)
      ensures v.Already? ==>
                exists i :: 0 <= i < |old(rows)| && old(rows)[i].id == v.id && old(rows)[i].forgottenAt.None?
                            && lower(old(rows)[i].text) == lower(Normalise(text))
      // remembering an active fact again returns its number and changes nothing
      ensures forall i :: 0 <= i < |old(rows)| && old(rows)[i].forgottenAt.None? && old(rows)[i].text == text ==>
                v == Already(old(rows)[i].id)
    {
      KnownIsFound(rows, text);
      var cleaned := Normalise(text);
      if cleaned == "" { return Empty; }
      if |cleaned| > MAX_FACT_LENGTH { return TooLong(|cleaned|); }
      NormaliseIdempotent(text);
      RecordedStorable(lower, Store(rows, lastId), cleaned, now);
      v := RememberCleaned(cleaned, now);
    }

    /** Stamp an active fact as forgotten; the row stays. */
    method Forget(id: int, now: real) returns (found: bool)
      requires Valid()
      modifies this
      ensures Valid() && Keeps(old(rows), rows)
      ensures Store(rows, lastId) == Apply(lower, Store(old(rows), old(lastId)), Op.Forget(id, now))
      ensures found <==> exists i :: 0 <= i < |old(rows)| && old(rows)[i].id == id && old(rows)[i].forgottenAt.None?
      ensures lastId == old(lastId) && |rows| == |old(rows)|
      ensures forall i :: 0 <= i < |rows| ==>
                var was := old(rows)[i];
                rows[i] == if was.id == id && was.forgottenAt.None? then was.(forgottenAt := Some(now)) else was
    {
      found := exists i :: 0 <= i < |rows| && rows[i].id == id && rows[i].forgottenAt.None?;
      var updated := Stamped(rows, id, now);
      ForgettingKeeps(rows, updated, lastId, lower, id, now);
      rows := updated;
    }

    /** The facts not forgotten, in the order of their numbers. */
    method GetActive() returns (facts: seq<Fact>)
      requires Valid()
      ensures facts == Active(rows) && IdsAscend(facts, lastId)
      ensures forall f :: f in facts <==> f in rows && f.forgottenAt.None?
    {
      ActiveAscends(rows, lastId);
      forall f ensures f in Active(rows) <==> f in rows && f.forgottenAt.None? {
        ActiveMember(rows, f);
      }
      facts := Active(rows);
    }
  }

  lemma ForgettingKeepsApart(before: seq<Fact>, after: seq<Fact>, lower: string -> string)
    requires Keeps(before, after) && |before| == |after| && NoTwoAlike(before, lower)
    ensures NoTwoAlike(after, lower)
  {
  }

  lemma ForgettingKeeps(before: seq<Fact>, after: seq<Fact>, lastId: nat, lower: string -> string, id: int, now: real)
    requires WellFormed(before, lastId, lower) && |before| == |after|
    requires forall i :: 0 <= i < |after| ==> after[i] == Forgotten(before[i], id, now)
    ensures WellFormed(after, lastId, lower) && Keeps(before, after)
  {
    ForgettingShrinks(before, after);
    ForgettingKeepsApart(before, after, lower);
    forall i | 0 <= i < |after| ensures Storable(after[i].text) {
      assert after[i].text == before[i].text;
    }
  }

  /** A text that is already stored is its own normal form. */
  lemma KnownIsFound(rows: seq<Fact>, text: string)
    requires AllStorable(rows)
    ensures forall i :: 0 <= i < |rows| && rows[i].text == text ==>
              Normalise(text) == text && 1 <= |text| <= MAX_FACT_LENGTH
  {
  }

  /** In a store without duplicates, at most one active fact matches. */
  lemma OnlyOneAlike(rows: seq<Fact>, lower: string -> string, text: string, k: nat)
    requires NoTwoAlike(rows, lower) && k < |rows| && SameAs(rows[k], lower, text)
    ensures forall i :: 0 <= i < |rows| && SameAs(rows[i], lower, text) ==> i == k
  {
  }

  lemma RecordingKeepsStorable(rows: seq<Fact>, f: Fact)
    requires AllStorable(rows) && Storable(f.text)
    ensures AllStorable(rows + [f])
  {
  }

  lemma RecordingKeeps(rows: seq<Fact>, lastId: nat, lower: string -> string, f: Fact)
    requires Orderly(rows, lastId, lower) && |Active(rows)| < MAX_ACTIVE_FACTS
    requires f.id == lastId + 1 && f.forgottenAt.None?
    requires forall i :: 0 <= i < |rows| ==> !SameAs(rows[i], lower, f.text)
    ensures Orderly(rows + [f], lastId + 1, lower) && Keeps(rows, rows + [f])
  {
  }

  // The lines the model is shown

  function Line(f: Fact): string {
    "- #" + Decimal(f.id) + ": " + f.text
  }

  function Lines(facts: seq<Fact>): (r: seq<string>)
    ensures |r| == |facts| && forall i :: 0 <= i < |r| ==> r[i] == Line(facts[i])
  {
    seq(|facts|, i requires 0 <= i < |facts| => Line(facts[i]))
  }

  function Total(lines: seq<string>): nat {
    if lines == [] then 0 else Total(lines[..|lines| - 1]) + |lines[|lines| - 1]|
  }

  /** The room some lines take is that of the text they make together. */
  lemma {:induction false} TotalIsLength(lines: seq<string>)
    ensures Total(lines) == |Flatten(lines)|
  {
    if lines == [] {
    } else {
      var front, last := lines[..|lines| - 1], lines[|lines| - 1];
      TotalIsLength(front);
      FlattenPush(front, last);
      assert lines == front + [last];
    }
  }

  /** A line names its fact: the number in it reads back, and the rest is the text. */
  lemma LineNamesFact(f: Fact)
    ensures exists number :: IsNumeral(number) && Value(number) == f.id && Line(f) == "- #" + number + ": " + f.text
  {
    DecimalReadsBack(f.id);
  }

  /** What the greedy loop promises of the facts it keeps and the ones it drops. */
  predicate PackedInto(facts: seq<Fact>, kept: seq<Fact>, dropped: seq<Fact>) {
    && InOrder(kept, facts)
    && multiset(kept) + multiset(dropped) == multiset(facts)
    && Total(Lines(kept)) <= MAX_CONTEXT_CHARS
    && forall i :: 0 <= i < |dropped| ==> Total(Lines(kept)) + |Line(dropped[i])| > MAX_CONTEXT_CHARS
  }

  lemma LinesPush(facts: seq<Fact>, f: Fact)
    ensures Lines(facts + [f]) == Lines(facts) + [Line(f)]
    ensures Total(Lines(facts + [f])) == Total(Lines(facts)) + |Line(f)|
  {
  }

  lemma PackTakes(facts: seq<Fact>, kept: seq<Fact>, dropped: seq<Fact>, f: Fact)
    requires PackedInto(facts, kept, dropped) && Total(Lines(kept)) + |Line(f)| <= MAX_CONTEXT_CHARS
    ensures PackedInto(facts + [f], kept + [f], dropped)
  {
    LinesPush(kept, f);
    assert (facts + [f])[..|facts|] == facts && (kept + [f])[..|kept|] == kept;
  }

  lemma PackDrops(facts: seq<Fact>, kept: seq<Fact>, dropped: seq<Fact>, f: Fact)
    requires PackedInto(facts, kept, dropped) && Total(Lines(kept)) + |Line(f)| > MAX_CONTEXT_CHARS
    ensures PackedInto(facts + [f], kept, dropped + [f])
  {
  }

  /**
   * The greedy loop: lines kept while they fit, the rest counted. Nothing that was dropped would
   * fit in the space left at the end.
   */
  method Pack(facts: seq<Fact>) returns (lines: seq<string>, dropped: nat, ghost kept: seq<Fact>, ghost left: seq<Fact>)
    ensures PackedInto(facts, kept, left)
    ensures lines == Lines(kept) && dropped == |left| && |lines| + dropped == |facts|
    ensures Total(lines) <= MAX_CONTEXT_CHARS
  {
    lines, dropped, kept, left := [], 0, [], [];
    var used := 0;
    for i := 0 to |facts|
      invariant PackedInto(facts[..i], kept, left)
      invariant lines == Lines(kept) && dropped == |left| && |lines| + dropped == i
      invariant used == Total(Lines(kept))
    {
      assert facts[..i + 1] == facts[..i] + [facts[i]];
      var line := Line(facts[i]);
      if used + |line| > MAX_CONTEXT_CHARS {
        PackDrops(facts[..i], kept, left, facts[i]);
        dropped, left := dropped + 1, left + [facts[i]];
        continue;
      }
      PackTakes(facts[..i], kept, left, facts[i]);
      LinesPush(kept, facts[i]);
      lines, kept := lines + [line], kept + [facts[i]];
      used := used + |line|;
    }
    assert facts[..|facts|] == facts;
  }

  /** The lines of the context: nothing without facts, and a last line counting what does not fit. */
  method Snapshot(store: FactStore) returns (lines: seq<string>, ghost kept: seq<Fact>, ghost left: seq<Fact>)
    requires store.Valid()
    ensures PackedInto(Active(store.rows), kept, left)
    ensures lines == if left == [] then Lines(kept)
                     else Lines(kept) + ["- (altri " + Decimal(|left|) + " fatti non entrano in questo spazio)"]
  {
    var facts := store.GetActive();
    if facts == [] {
      return [], [], [];
    }
    var dropped;
    lines, dropped, kept, left := Pack(facts);
    if dropped > 0 {
      lines := lines + ["- (altri " + Decimal(dropped) + " fatti non entrano in questo spazio)"];
    }
  }

  lemma {:induction false} TotalBound(lines: seq<string>, width: nat)
    requires forall i :: 0 <= i < |lines| ==> |lines[i]| <= width
    ensures Total(lines) <= |lines| * width
  {
    if lines != [] {
      var front := lines[..|lines| - 1];
      TotalBound(front, width);
      assert |lines| * width == |front| * width + width;
    }
  }

  /**
   * The two ceilings do not compete for ordinary facts: with at most fifty active facts, none is
   * dropped as long as every line is at most eighty characters.
   */
  lemma FiftyOrdinaryFactsFit(facts: seq<Fact>, kept: seq<Fact>, dropped: seq<Fact>)
    requires |facts| <= MAX_ACTIVE_FACTS && PackedInto(facts, kept, dropped)
    requires forall f :: f in facts ==> |Line(f)| <= MAX_CONTEXT_CHARS / MAX_ACTIVE_FACTS
    ensures dropped == [] && multiset(kept) == multiset(facts)
  {
    if dropped != [] {
      assert dropped[0] in multiset(facts);
      assert |multiset(kept)| + |multiset(dropped)| == |multiset(facts)|;
      forall i | 0 <= i < |kept| ensures |Lines(kept)[i]| <= 80 {
        assert kept[i] in multiset(facts);
      }
      TotalBound(Lines(kept), 80);
    }
  }
}
