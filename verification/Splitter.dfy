/** `_split_message`: cutting a text into chunks a channel accepts, at line ends where it can. */
module Splitter {
  import opened Common
  import opened Text

  /** Python's `s.rfind(c)`. */
  method LastIndexOf(s: string, c: char) returns (k: int)
    ensures -1 <= k < |s| && (k >= 0 ==> s[k] == c)
    ensures forall i :: k < i < |s| ==> s[i] != c
  {
    k := |s| - 1;
    while k >= 0 && s[k] != c
      invariant -1 <= k < |s|
      invariant forall i :: k < i < |s| ==> s[i] != c
    {
      k := k - 1;
    }
  }

  predicate NoNewline(s: string, from: nat, to: nat)
    requires to <= |s|
  {
    forall i :: from <= i < to ==> s[i] != '\n'
  }

  /** The second half of the window holds no newline: the whole window goes. */
  predicate HardCut(s: string, limit: nat, taken: nat)
    requires limit < |s|
  {
    taken == limit && NoNewline(s, limit / 2, limit)
  }

  /** Up to and with the last newline of the window, which follows no other newline. */
  predicate LineCut(s: string, limit: nat, taken: nat)
    requires limit < |s|
  {
    && limit / 2 < taken <= limit && s[taken - 1] == '\n'
    && NoNewline(s, taken, limit) && (taken > 1 ==> s[taken - 2] != '\n')
  }

  /** Up to and with the newline before the last one, the two making a blank line. */
  predicate BlankLineCut(s: string, limit: nat, taken: nat)
    requires limit < |s|
  {
    && limit / 2 <= taken < limit && taken >= 1
    && s[taken - 1] == '\n' && s[taken] == '\n' && NoNewline(s, taken + 1, limit)
  }

  predicate CutAt(s: string, limit: nat, taken: nat)
    requires limit < |s|
  {
    HardCut(s, limit, taken) || LineCut(s, limit, taken) || BlankLineCut(s, limit, taken)
  }

  /** `pieces` were cut off the front of `text` one after the other, and `rest` is left. */
  predicate Cuts(text: string, limit: nat, pieces: seq<string>, rest: string)
    decreases |pieces|
  {
    if pieces == [] then text == rest
    else
      && |pieces[0]| <= |text| && limit < |text|
      && pieces[0] == text[..|pieces[0]|] && CutAt(text, limit, |pieces[0]|)
      && Cuts(text[|pieces[0]|..], limit, pieces[1..], rest)
  }

  lemma {:induction false} CutsPush(text: string, limit: nat, pieces: seq<string>, rest: string, taken: nat)
    requires Cuts(text, limit, pieces, rest)
    requires limit < |rest| && taken <= |rest| && CutAt(rest, limit, taken)
    ensures Cuts(text, limit, pieces + [rest[..taken]], rest[taken..])
    decreases |pieces|
  {
    var more := pieces + [rest[..taken]];
    if pieces == [] {
      assert more[1..] == [];
    } else {
      CutsPush(text[|pieces[0]|..], limit, pieces[1..], rest, taken);
      assert more[1..] == pieces[1..] + [rest[..taken]];
    }
  }

  /** Every cut takes something, at least half a window, and never more than a window. */
  lemma CutBounds(s: string, limit: nat, taken: nat)
    requires 1 <= limit < |s| && CutAt(s, limit, taken)
    ensures 1 <= taken <= limit && limit / 2 <= taken
  {
  }

  /** There is only one place to cut at. */
  lemma CutUnique(s: string, limit: nat, a: nat, b: nat)
    requires 1 <= limit < |s| && CutAt(s, limit, a) && CutAt(s, limit, b)
    ensures a == b
  {
  }

  /** A text has one decomposition only, so the cutting rule decides every chunk. */
  lemma {:induction false} CutsUnique(text: string, limit: nat, a: seq<string>, b: seq<string>,
                                      restA: string, restB: string)
    requires limit >= 1 && Cuts(text, limit, a, restA) && Cuts(text, limit, b, restB)
    requires |restA| <= limit && |restB| <= limit
    ensures a == b && restA == restB
    decreases |a|
  {
    if a != [] && b != [] {
      CutUnique(text, limit, |a[0]|, |b[0]|);
      CutsUnique(text[|a[0]|..], limit, a[1..], b[1..], restA, restB);
      assert a == [a[0]] + a[1..] && b == [b[0]] + b[1..];
    }
  }

  function AtLeastOne(n: nat): nat {
    if n == 0 then 1 else n
  }

  /** Nothing is lost between the cuts, and what is left of a text is never empty. */
  lemma {:induction false} CutsConserve(text: string, limit: nat, pieces: seq<string>, rest: string)
    requires limit >= 1 && Cuts(text, limit, pieces, rest)
    ensures text == Flatten(pieces) + rest
    ensures text != "" ==> rest != ""
    decreases |pieces|
  {
    if pieces != [] {
      var n := |pieces[0]|;
      CutBounds(text, limit, n);
      CutsConserve(text[n..], limit, pieces[1..], rest);
      Concat(pieces[0], Flatten(pieces[1..]), rest);
      assert text == pieces[0] + text[n..];
    }
  }

  /** Every piece is at least half a window, so there are few of them. */
  lemma {:induction false} CutsAreFew(text: string, limit: nat, pieces: seq<string>, rest: string)
    requires limit >= 1 && Cuts(text, limit, pieces, rest)
    ensures |pieces| * AtLeastOne(limit / 2) <= |text|
    ensures forall i :: 0 <= i < |pieces| ==> AtLeastOne(limit / 2) <= |pieces[i]| <= limit
    decreases |pieces|
  {
    if pieces != [] {
      var n := |pieces[0]|;
      CutBounds(text, limit, n);
      CutsAreFew(text[n..], limit, pieces[1..], rest);
      OneMore(|pieces[1..]|, AtLeastOne(limit / 2));
    }
  }

  lemma OneMore(k: nat, step: nat)
    ensures (k + 1) * step == k * step + step
  {
  }

  /** Where to cut, and the chunk to send: the branches of the loop body. */
  method CutOnce(remaining: string, limit: nat) returns (taken: nat, chunk: string, ghost last: int)
    requires 1 <= limit < |remaining|
    // by the last newline of the window: too early or none, after a newline, or alone
    ensures -1 <= last < limit && (last >= 0 ==> remaining[last] == '\n')
    ensures NoNewline(remaining, last + 1, limit)
    ensures taken == if last < limit / 2 then limit
                     else if last > 0 && remaining[last - 1] == '\n' then last else last + 1
    ensures 1 <= taken <= limit && CutAt(remaining, limit, taken)
    ensures chunk == RStrip(remaining[..taken])
  {
    var window := remaining[..limit];
    var cut := LastIndexOf(window, '\n');
    last := cut;
    if cut < limit / 2 {
      assert HardCut(remaining, limit, limit);
      return limit, RStrip(remaining[..limit]), last;
    }
    if cut > 0 && window[cut - 1] == '\n' {
      cut := cut - 1;
      assert BlankLineCut(remaining, limit, cut + 1);
    } else {
      assert LineCut(remaining, limit, cut + 1);
    }
    taken, chunk := cut + 1, RStrip(remaining[..cut]);
    assert remaining[..taken][..cut] == remaining[..cut];
  }

  /** Every chunk but the last is what its piece leaves once its trailing white space is gone. */
  predicate ChunksOf(chunks: seq<string>, pieces: seq<string>, rest: string) {
    && |chunks| == |pieces| + 1 && chunks[|pieces|] == rest
    && forall i :: 0 <= i < |pieces| ==> chunks[i] == RStrip(pieces[i])
  }

  method SplitMessage(text: string, limit: nat)
    returns (chunks: seq<string>, ghost pieces: seq<string>)
    requires limit >= 1
    ensures |chunks| == |pieces| + 1 && Cuts(text, limit, pieces, chunks[|pieces|])
    ensures ChunksOf(chunks, pieces, chunks[|pieces|])
    ensures forall i :: 0 <= i < |chunks| ==> |chunks[i]| <= limit
    ensures text != "" ==> chunks[|chunks| - 1] != ""
    ensures (|chunks| - 1) * AtLeastOne(limit / 2) <= |text|
  {
    pieces := [];
    if text == "" {
      return [""], [];
    }
    chunks := [];
    var remaining := text;
    while |remaining| > limit
      invariant |chunks| == |pieces| && Cuts(text, limit, pieces, remaining)
      invariant forall i :: 0 <= i < |pieces| ==> chunks[i] == RStrip(pieces[i])
      decreases |remaining|
    {
      var taken, chunk, _ := CutOnce(remaining, limit);
      CutsPush(text, limit, pieces, remaining, taken);
      pieces := pieces + [remaining[..taken]];
      chunks := chunks + [chunk];
      remaining := remaining[taken..];
    }
    chunks := chunks + [remaining];
    CutsConserve(text, limit, pieces, remaining);
    CutsAreFew(text, limit, pieces, remaining);
    TrimmedFit(pieces, limit);
  }

  lemma TrimmedFit(pieces: seq<string>, limit: nat)
    requires forall i :: 0 <= i < |pieces| ==> |pieces[i]| <= limit
    ensures forall i :: 0 <= i < |pieces| ==> |RStrip(pieces[i])| <= limit
  {
    forall i | 0 <= i < |pieces| ensures |RStrip(pieces[i])| <= limit {
      RStripCuts(pieces[i]);
    }
  }

  /** The text is its chunks in order with nothing but white space between them. */
  lemma {:induction false} OnlyWhiteSpaceIsDropped(text: string, limit: nat, chunks: seq<string>, pieces: seq<string>, rest: string)
    returns (gaps: seq<string>)
    requires limit >= 1 && Cuts(text, limit, pieces, rest) && ChunksOf(chunks, pieces, rest)
    ensures |gaps| == |pieces| && forall i :: 0 <= i < |gaps| ==> Blank(gaps[i])
    ensures text == Woven(chunks[..|pieces|], gaps) + rest
  {
    gaps := seq(|pieces|, i requires 0 <= i < |pieces| => GapOf(pieces[i]));
    forall i | 0 <= i < |pieces| ensures Blank(gaps[i]) && chunks[i] + gaps[i] == pieces[i] {
      RStripCuts(pieces[i]);
    }
    CutsConserve(text, limit, pieces, rest);
    WovenIs(chunks[..|pieces|], gaps, pieces);
  }

  function GapOf(piece: string): string {
    if |RStrip(piece)| <= |piece| then piece[|RStrip(piece)|..] else ""
  }

  /** Chunks and gaps, alternating. */
  function Woven(chunks: seq<string>, gaps: seq<string>): string
    requires |chunks| == |gaps|
  {
    if chunks == [] then "" else chunks[0] + gaps[0] + Woven(chunks[1..], gaps[1..])
  }

  lemma {:induction false} WovenIs(chunks: seq<string>, gaps: seq<string>, pieces: seq<string>)
    requires |chunks| == |gaps| == |pieces|
    requires forall i :: 0 <= i < |pieces| ==> chunks[i] + gaps[i] == pieces[i]
    ensures Woven(chunks, gaps) == Flatten(pieces)
  {
    if pieces != [] {
      WovenIs(chunks[1..], gaps[1..], pieces[1..]);
    }
  }
}
