/** Strings as Python's `str` methods see them: white space, stripping, splitting, joining. */
module Text {

  /** The characters `str.strip`, `str.rstrip` and `str.split` treat as white space. */
  predicate IsSpace(c: char) {
    var n := c as int;
    || 9 <= n <= 13 || 28 <= n <= 32 || n == 0x85 || n == 0xA0 || n == 0x1680
    || 0x2000 <= n <= 0x200A || n == 0x2028 || n == 0x2029 || n == 0x202F
    || n == 0x205F || n == 0x3000
  }

  predicate Blank(s: string) {
    forall i :: 0 <= i < |s| ==> IsSpace(s[i])
  }

  function RStrip(s: string): string {
    if s == "" || !IsSpace(s[|s| - 1]) then s else RStrip(s[..|s| - 1])
  }

  function LStrip(s: string): string {
    if s == "" || !IsSpace(s[0]) then s else LStrip(s[1..])
  }

  function Strip(s: string): string {
    LStrip(RStrip(s))
  }

  /** `rstrip` cuts white space, all of it, and only at the end. */
  lemma {:induction false} RStripCuts(s: string)
    ensures RStrip(s) <= s && Blank(s[|RStrip(s)|..])
    ensures RStrip(s) == "" || !IsSpace(RStrip(s)[|RStrip(s)| - 1])
  {
    if s != "" && IsSpace(s[|s| - 1]) {
      var front := s[..|s| - 1];
      RStripCuts(front);
      assert s[|RStrip(front)|..] == front[|RStrip(front)|..] + [s[|s| - 1]];
    }
  }

  /** `lstrip` cuts white space, all of it, and only at the front. */
  lemma {:induction false} LStripCuts(s: string)
    ensures |LStrip(s)| <= |s| && s[|s| - |LStrip(s)|..] == LStrip(s) && Blank(s[..|s| - |LStrip(s)|])
    ensures LStrip(s) == "" || !IsSpace(LStrip(s)[0])
  {
    if s != "" && IsSpace(s[0]) {
      var rest := s[1..];
      LStripCuts(rest);
      assert s[..|s| - |LStrip(rest)|] == [s[0]] + rest[..|rest| - |LStrip(rest)|];
    }
  }

  /** A text with anything but white space in it keeps something. */
  lemma StripKeepsWords(s: string)
    ensures Strip(s) == "" <==> Blank(s)
  {
    var r := RStrip(s);
    RStripCuts(s);
    LStripCuts(r);
    assert s == r + s[|r|..];
  }

  predicate Trimmed(s: string) {
    s == "" || (!IsSpace(s[0]) && !IsSpace(s[|s| - 1]))
  }

  /** What `strip` leaves neither begins nor ends with white space. */
  lemma StripTrims(s: string)
    ensures Trimmed(Strip(s))
  {
    RStripCuts(s);
    LStripCuts(RStrip(s));
  }

  /** What it takes away is white space at the two ends. */
  lemma StripCuts(s: string) returns (left: string, right: string)
    ensures s == left + Strip(s) + right && Blank(left) && Blank(right)
  {
    var r := RStrip(s);
    RStripCuts(s);
    LStripCuts(r);
    left, right := r[..|r| - |Strip(s)|], s[|r|..];
    assert r == left + Strip(s) && s == r + right;
  }

  lemma {:induction false} RStripOff(s: string, right: string)
    requires Blank(right)
    ensures RStrip(s + right) == RStrip(s)
    decreases |right|
  {
    if right == "" {
      assert s + right == s;
    } else {
      var front := right[..|right| - 1];
      assert (s + right)[..|s + right| - 1] == s + front;
      RStripOff(s, front);
    }
  }

  lemma {:induction false} LStripOff(left: string, s: string)
    requires Blank(left)
    ensures LStrip(left + s) == LStrip(s)
  {
    if left == "" {
      assert left + s == s;
    } else {
      assert (left + s)[1..] == left[1..] + s;
      LStripOff(left[1..], s);
    }
  }

  /** `strip` is determined by that: what is left of a text with white space around it is the text. */
  lemma StripIs(left: string, core: string, right: string)
    requires Blank(left) && Blank(right) && Trimmed(core)
    ensures Strip(left + core + right) == core
  {
    RStripOff(left + core, right);
    if core == "" {
      assert left + core == "" + left;
      RStripOff("", left);
    } else {
      assert RStrip(left + core) == left + core;
      LStripOff(left, core);
    }
  }

  lemma StripOfTrimmed(s: string)
    requires Trimmed(s)
    ensures Strip(s) == s
  {
  }

  function Join(separator: string, parts: seq<string>): string {
    if parts == [] then ""
    else if |parts| == 1 then parts[0]
    else parts[0] + separator + Join(separator, parts[1..])
  }

  /** Joining what was joined in two parts: one separator between them. */
  lemma {:induction false} JoinSplit(separator: string, a: seq<string>, b: seq<string>)
    requires a != [] && b != []
    ensures Join(separator, a + b) == Join(separator, a) + separator + Join(separator, b)
  {
    assert (a + b)[1..] == a[1..] + b;
    if |a| > 1 {
      JoinSplit(separator, a[1..], b);
      var x, y, z := a[0] + separator, Join(separator, a[1..]), separator + Join(separator, b);
      assert x + (y + separator + Join(separator, b)) == x + y + separator + Join(separator, b);
    }
  }

  lemma BlankConcat(a: string, b: string)
    ensures Blank(a + b) <==> Blank(a) && Blank(b)
  {
    assert forall i :: 0 <= i < |b| ==> (a + b)[|a| + i] == b[i];
    assert forall i :: 0 <= i < |a| ==> (a + b)[i] == a[i];
  }

  predicate AllBlank(parts: seq<string>) {
    forall i :: 0 <= i < |parts| ==> Blank(parts[i])
  }

  lemma AllBlankHead(first: string, rest: seq<string>)
    ensures AllBlank([first] + rest) <==> Blank(first) && AllBlank(rest)
  {
    var all := [first] + rest;
    assert all[0] == first;
    if AllBlank(all) {
      forall i | 0 <= i < |rest| ensures Blank(rest[i]) { assert all[i + 1] == rest[i]; }
    }
  }

  lemma {:induction false} JoinBlank(separator: string, parts: seq<string>)
    requires Blank(separator)
    ensures Blank(Join(separator, parts)) <==> AllBlank(parts)
  {
    if |parts| > 1 {
      JoinBlank(separator, parts[1..]);
      BlankConcat(parts[0] + separator, Join(separator, parts[1..]));
      BlankConcat(parts[0], separator);
      assert AllBlank(parts) <==> Blank(parts[0]) && AllBlank(parts[1..]);
    }
  }

  /** Texts that are something and trimmed join to a text that is. */
  lemma {:induction false} JoinTrimmed(separator: string, parts: seq<string>)
    requires parts != [] && forall i :: 0 <= i < |parts| ==> parts[i] != "" && Trimmed(parts[i])
    ensures Join(separator, parts) != "" && Trimmed(Join(separator, parts))
  {
    if |parts| > 1 { JoinTrimmed(separator, parts[1..]); }
  }

  /** One more such text, after its separator. */
  lemma JoinOneMore(separator: string, parts: seq<string>, t: string)
    requires parts != [] && (forall i :: 0 <= i < |parts| ==> parts[i] != "" && Trimmed(parts[i]))
    requires t != "" && Trimmed(t)
    ensures Strip(Join(separator, parts + [t])) == Strip(Join(separator, parts)) + separator + t
  {
    var joined := Join(separator, parts);
    JoinSplit(separator, parts, [t]);
    JoinTrimmed(separator, parts);
    StripOfTrimmed(joined);
    EndsTrimmed(joined, separator, t);
    StripOfTrimmed(joined + separator + t);
  }

  lemma EndsTrimmed(a: string, between: string, b: string)
    requires a != "" && Trimmed(a) && b != "" && Trimmed(b)
    ensures Trimmed(a + between + b)
  {
    var s := a + between + b;
    assert s[0] == a[0] && s[|s| - 1] == b[|b| - 1];
  }

  predicate IsWord(s: string) {
    s != "" && forall i :: 0 <= i < |s| ==> !IsSpace(s[i])
  }

  predicate AllWords(words: seq<string>) {
    forall i :: 0 <= i < |words| ==> IsWord(words[i])
  }

  /** How far the word at the start of `s` reaches. */
  function WordEnd(s: string): (n: nat)
    ensures n <= |s| && (forall i :: 0 <= i < n ==> !IsSpace(s[i]))
    ensures n == |s| || IsSpace(s[n])
    ensures s != "" && !IsSpace(s[0]) ==> n > 0
  {
    if s == "" || IsSpace(s[0]) then 0 else 1 + WordEnd(s[1..])
  }

  /** Python's `text.split()`. */
  function Words(text: string): seq<string>
    decreases |text|
  {
    var s := LStrip(text);
    LStripCuts(text);
    if s == "" then [] else [s[..WordEnd(s)]] + Words(s[WordEnd(s)..])
  }

  lemma {:induction false} WordsAreWords(text: string)
    ensures AllWords(Words(text))
    decreases |text|
  {
    var s := LStrip(text);
    LStripCuts(text);
    if s != "" {
      var n := WordEnd(s);
      assert IsWord(s[..n]);
      WordsAreWords(s[n..]);
    }
  }

  /** The first word of a text, and what follows it. */
  lemma WordsUnfold(w: string, rest: string)
    requires IsWord(w) && (rest == "" || IsSpace(rest[0]))
    ensures Words(w + rest) == [w] + Words(rest)
  {
    var s := w + rest;
    assert !IsSpace(s[0]) && LStrip(s) == s;
    WordEndIs(s, |w|);
    assert s[..|w|] == w && s[|w|..] == rest;
  }

  lemma {:induction false} WordEndIs(s: string, n: nat)
    requires n <= |s| && (forall i :: 0 <= i < n ==> !IsSpace(s[i]))
    requires n == |s| || IsSpace(s[n])
    ensures WordEnd(s) == n
  {
  }

  /** What follows the first word once all are joined with blanks. */
  function AfterFirst(words: seq<string>): string
    requires words != []
  {
    if |words| == 1 then "" else " " + Join(" ", words[1..])
  }

  lemma JoinUnfold(words: seq<string>)
    requires words != []
    ensures Join(" ", words) == words[0] + AfterFirst(words)
    ensures AfterFirst(words) == "" || IsSpace(AfterFirst(words)[0])
  {
  }

  lemma WordsAfterFirst(words: seq<string>)
    requires words != [] && Words(Join(" ", words[1..])) == words[1..]
    ensures Words(AfterFirst(words)) == words[1..]
  {
  }

  /** Splitting what was joined with single blanks gives the words back. */
  lemma {:induction false} WordsOfJoin(words: seq<string>)
    requires AllWords(words)
    ensures Words(Join(" ", words)) == words
  {
    if words != [] {
      var w, after := words[0], AfterFirst(words);
      assert IsWord(w);
      WordsOfJoin(words[1..]);
      WordsAfterFirst(words);
      JoinUnfold(words);
      WordsUnfold(w, after);
      assert words == [w] + words[1..];
    }
  }

  /** The characters of a text that are not white space, in order. */
  function Visible(s: string): string {
    if s == "" then "" else (if IsSpace(s[0]) then "" else [s[0]]) + Visible(s[1..])
  }

  lemma {:induction false} VisibleConcat(a: string, b: string)
    ensures Visible(a + b) == Visible(a) + Visible(b)
  {
    if a == "" {
      assert a + b == b;
    } else {
      var head, x, y := if IsSpace(a[0]) then "" else [a[0]], Visible(a[1..]), Visible(b);
      VisibleConcat(a[1..], b);
      assert (a + b)[0] == a[0] && (a + b)[1..] == a[1..] + b;
      assert head + (x + y) == head + x + y;
    }
  }

  lemma {:induction false} VisibleBlank(s: string)
    requires Blank(s)
    ensures Visible(s) == ""
  {
    if s != "" { VisibleBlank(s[1..]); }
  }

  lemma {:induction false} VisibleWord(s: string)
    requires forall i :: 0 <= i < |s| ==> !IsSpace(s[i])
    ensures Visible(s) == s
  {
    if s != "" { VisibleWord(s[1..]); }
  }

  /** Splitting loses no character that is not white space: joined again, the words show what the text showed. */
  lemma {:induction false} WordsKeepAll(text: string)
    ensures Visible(Join(" ", Words(text))) == Visible(text)
    decreases |text|
  {
    var s := LStrip(text);
    LStripCuts(text);
    var lead := text[..|text| - |s|];
    assert text == lead + s;
    VisibleConcat(lead, s);
    VisibleBlank(lead);
    if s != "" {
      var n := WordEnd(s);
      WordsKeepAll(s[n..]);
      assert s == s[..n] + s[n..];
      VisibleConcat(s[..n], s[n..]);
      VisibleWord(s[..n]);
      JoinedShows(s[..n], Words(s[n..]));
    }
  }

  lemma JoinedShows(w: string, rest: seq<string>)
    ensures Visible(Join(" ", [w] + rest)) == Visible(w) + Visible(Join(" ", rest))
  {
    if rest != [] {
      JoinSplit(" ", [w], rest);
      VisibleConcat(w + " ", Join(" ", rest));
      VisibleConcat(w, " ");
      VisibleBlank(" ");
    }
  }

  function Digit(n: nat): char
    requires n < 10
  {
    "0123456789"[n]
  }

  /** Python's `str(n)` of a natural number. */
  function Decimal(n: nat): string {
    if n < 10 then [Digit(n)] else Decimal(n / 10) + [Digit(n % 10)]
  }

  predicate IsNumeral(s: string) {
    s != "" && forall i :: 0 <= i < |s| ==> '0' <= s[i] <= '9'
  }

  /** The number a numeral stands for, as `int(s)` reads it. */
  function Value(s: string): nat
    requires forall i :: 0 <= i < |s| ==> '0' <= s[i] <= '9'
  {
    if s == "" then 0 else 10 * Value(s[..|s| - 1]) + (s[|s| - 1] as int - '0' as int)
  }

  /** The digits written are those of the number, with no zero in front of others. */
  lemma {:induction false} DecimalReadsBack(n: nat)
    ensures IsNumeral(Decimal(n)) && Value(Decimal(n)) == n
    ensures |Decimal(n)| > 1 ==> Decimal(n)[0] != '0'
    ensures n > 0 ==> Decimal(n)[0] != '0'
  {
    if n >= 10 {
      DecimalReadsBack(n / 10);
      assert Decimal(n)[..|Decimal(n)| - 1] == Decimal(n / 10);
    }
  }
}
