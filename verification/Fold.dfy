/**
 Content-line folding (section 3.1 of RFC 5545): the writer's greedy octet-budget loop, the unfolding
 reader, and what connects them. A `char` is a Unicode scalar value, so cutting a `string` never splits a
 code point; lengths that count are octets of its UTF-8 form.
 */
module Fold {
  import opened Utf8

  /** A string that callers append to in place. */
  class TextBuffer {
    var text: string

    constructor ()
      ensures text == ""
    {
      text := "";
    }
  }

  // ----- octets ---------------------------------------------------------------------

  function Utf8Len(c: char): (n: nat)
    ensures 1 <= n <= 4
    ensures n == 1 <==> c as int < 0x80
  {
    if c as int < 0x80 then 1 else if c as int < 0x800 then 2 else if c as int < 0x1_0000 then 3 else 4
  }

  function Octets(s: string): (n: nat)
    ensures |s| <= n
  {
    if s == "" then 0 else Utf8Len(s[0]) + Octets(s[1..])
  }

  /** The count is that of the octets themselves. */
  lemma {:induction false} OctetsAreBytes(s: string)
    ensures Octets(s) == |Bytes(s)|
  {
    if s != "" {
      OctetsAreBytes(s[1..]);
      Utf8LenIsSize(s[0]);
    }
  }

  lemma Utf8LenIsSize(c: char)
    ensures Utf8Len(c) == |Encoded(c)|
  {
  }

  lemma {:induction false} OctetsConcat(a: string, b: string)
    ensures Octets(a + b) == Octets(a) + Octets(b)
  {
    if a == "" {
      assert a + b == b;
    } else {
      assert (a + b)[0] == a[0] && (a + b)[1..] == a[1..] + b;
      OctetsConcat(a[1..], b);
    }
  }

  lemma OctetsSnoc(s: string, c: char)
    ensures Octets(s + [c]) == Octets(s) + Utf8Len(c)
  {
    OctetsConcat(s, [c]);
    assert [c][1..] == "";
  }

  lemma OctetsMonotone(s: string, i: nat, j: nat)
    requires i <= j <= |s|
    ensures Octets(s[i..j]) == Octets(s[..j]) - Octets(s[..i])
  {
    assert s[..j] == s[..i] + s[i..j];
    OctetsConcat(s[..i], s[i..j]);
  }

  predicate Ascii(s: string) {
    forall i | 0 <= i < |s| :: s[i] as int < 0x80
  }

  lemma {:induction false} OctetsOfAscii(s: string)
    requires Ascii(s)
    ensures Octets(s) == |s|
  {
    if s != "" {
      OctetsOfAscii(s[1..]);
    }
  }

  // ----- greedy cuts ----------------------------------------------------------------

  const FIRST: nat := 75
  const LATER: nat := 74

  /** Length of the longest prefix of `line` that fits in `budget` octets. */
  function FitLen(line: string, budget: nat): (n: nat)
    ensures n <= |line|
  {
    if line == "" || Utf8Len(line[0]) > budget then 0
    else 1 + FitLen(line[1..], budget - Utf8Len(line[0]))
  }

  lemma {:induction false} FitLenIsLongest(line: string, budget: nat)
    ensures Octets(line[..FitLen(line, budget)]) <= budget
    ensures forall k | FitLen(line, budget) < k <= |line| :: Octets(line[..k]) > budget
  {
    if line != "" && Utf8Len(line[0]) <= budget {
      var rest := budget - Utf8Len(line[0]);
      FitLenIsLongest(line[1..], rest);
      forall k | 0 < k <= |line| ensures Octets(line[..k]) == Utf8Len(line[0]) + Octets(line[1..][..k - 1]) {
        assert line[..k][1..] == line[1..][..k - 1];
      }
    } else if line != "" {
      forall k | 0 < k <= |line| ensures Octets(line[..k]) > budget {
        assert line[..k][0] == line[0];
      }
    }
  }

  lemma FitLenUnique(line: string, budget: nat, n: nat)
    requires n <= |line| && Octets(line[..n]) <= budget
    requires n < |line| ==> Octets(line[..n]) + Utf8Len(line[n]) > budget
    ensures n == FitLen(line, budget)
  {
    FitLenIsLongest(line, budget);
    var m := FitLen(line, budget);
    if n < m {
      OctetsMonotone(line, n + 1, m);
      assert line[..n] + [line[n]] == line[..n + 1];
      OctetsSnoc(line[..n], line[n]);
    }
  }

  /** The pieces of `line`, each as long as its budget allows: `budget` for the first, 74 for the rest. */
  function Cuts(line: string, budget: nat): (pieces: seq<string>)
    requires budget >= 4
    ensures |pieces| > 0
    decreases |line|
  {
    var n := FitLen(line, budget);
    if n == |line| then [line] else [line[..n]] + Cuts(line[n..], LATER)
  }

  /** Physical lines: later pieces start with a space, every piece ends with CRLF. */
  function FoldText(pieces: seq<string>): string
    requires |pieces| > 0
  {
    if |pieces| == 1 then pieces[0] + "\r\n" else pieces[0] + "\r\n " + FoldText(pieces[1..])
  }

  function Folded(line: string): string {
    FoldText(Cuts(line, FIRST))
  }

  lemma CutBreak(line: string, start: nat, i: nat, budget: nat)
    requires budget >= 4 && start <= i < |line|
    requires Octets(line[start..i]) <= budget < Octets(line[start..i]) + Utf8Len(line[i])
    ensures FoldText(Cuts(line[start..], budget)) == line[start..i] + "\r\n " + FoldText(Cuts(line[i..], LATER))
  {
    var rest, n := line[start..], i - start;
    assert rest[..n] == line[start..i] && rest[n] == line[i] && rest[n..] == line[i..];
    FitLenUnique(rest, budget, n);
    assert Cuts(rest, budget)[1..] == Cuts(rest[n..], LATER);
  }

  lemma CutEnd(line: string, start: nat, budget: nat)
    requires budget >= 4 && start <= |line| && Octets(line[start..]) <= budget
    ensures FoldText(Cuts(line[start..], budget)) == line[start..] + "\r\n"
  {
    assert line[start..][..|line| - start] == line[start..];
    FitLenUnique(line[start..], budget, |line| - start);
  }

  lemma Assoc(a: string, b: string, c: string, d: string)
    ensures a + (b + c + d) == a + b + c + d
  {
  }

  lemma PieceGrows(line: string, start: nat, i: nat)
    requires start <= i < |line|
    ensures line[start..i + 1] == line[start..i] + [line[i]]
    ensures Octets(line[start..i + 1]) == Octets(line[start..i]) + Utf8Len(line[i])
  {
    OctetsSnoc(line[start..i], line[i]);
  }

  /**
   Loop state of `fold_line` after `i` characters: `done` is the output before the current physical line,
   which holds `line[start..i]` and may grow to `budget` octets.
   */
  ghost predicate Filling(line: string, i: nat, start: nat, budget: nat, used: nat, before: string, done: string,
                          text: string) {
    && start <= i <= |line| && 4 <= budget
    && used == Octets(line[start..i]) <= budget
    && text == done + line[start..i]
    && before + Folded(line) == done + FoldText(Cuts(line[start..], budget))
  }

  lemma FillBreak(line: string, i: nat, start: nat, budget: nat, used: nat, before: string, done: string, text: string)
    requires Filling(line, i, start, budget, used, before, done, text)
    requires i < |line| && used + Utf8Len(line[i]) > budget
    ensures Filling(line, i, i, 74, 0, before, text + "\r\n ", text + "\r\n ")
  {
    CutBreak(line, start, i, budget);
    Assoc(done, line[start..i], "\r\n ", FoldText(Cuts(line[i..], LATER)));
    assert line[i..i] == "";
  }

  lemma FillChar(line: string, i: nat, start: nat, budget: nat, used: nat, before: string, done: string, text: string)
    requires Filling(line, i, start, budget, used, before, done, text)
    requires i < |line| && used + Utf8Len(line[i]) <= budget
    ensures Filling(line, i + 1, start, budget, used + Utf8Len(line[i]), before, done, text + [line[i]])
  {
    PieceGrows(line, start, i);
    assert done + line[start..i] + [line[i]] == done + line[start..i + 1];
  }

  lemma FillEnd(line: string, start: nat, budget: nat, used: nat, before: string, done: string, text: string)
    requires Filling(line, |line|, start, budget, used, before, done, text)
    ensures text + "\r\n" == before + Folded(line)
  {
    assert line[start..|line|] == line[start..];
    CutEnd(line, start, budget);
    assert done + (line[start..] + "\r\n") == done + line[start..] + "\r\n";
  }

  /** Append `line` to `out`, folded. The two counters are those of the loop that fills one physical line. */
  method FoldLine(out: TextBuffer, line: string)
    modifies out
    ensures out.text == old(out.text) + Folded(line)
  {
    var budget, used := 75, 0;
    ghost var before := out.text;
    ghost var start, done := 0, before;
    assert line[0..] == line && line[0..0] == "";
    for i := 0 to |line|
      invariant Filling(line, i, start, budget, used, before, done, out.text)
    {
      var c := line[i];
      var clen := Utf8Len(c);
      if used + clen > budget {
        FillBreak(line, i, start, budget, used, before, done, out.text);
        out.text := out.text + "\r\n ";
        used := 0;
        budget := 74;
        start, done := i, out.text;
      }
      FillChar(line, i, start, budget, used, before, done, out.text);
      out.text := out.text + [c];
      used := used + clen;
    }
    FillEnd(line, start, budget, used, before, done, out.text);
    out.text := out.text + "\r\n";
  }

  // ----- shape of the output --------------------------------------------------------

  function Concat(pieces: seq<string>): string {
    if pieces == [] then "" else pieces[0] + Concat(pieces[1..])
  }

  /** `pieces` is a legal way to fold: the first fits in `budget` octets, the later ones in 74. */
  predicate LegalCut(pieces: seq<string>, budget: nat) {
    pieces != [] ==> Octets(pieces[0]) <= budget && LegalCut(pieces[1..], LATER)
  }

  /** The same said outright, of the octets that are sent. */
  predicate FitsLines(pieces: seq<string>, budget: nat) {
    forall k | 0 <= k < |pieces| :: |Bytes(pieces[k])| <= if k == 0 then budget else 74
  }

  lemma {:induction false} LegalIsFitting(pieces: seq<string>, budget: nat)
    ensures LegalCut(pieces, budget) <==> FitsLines(pieces, budget)
    decreases |pieces|
  {
    if pieces != [] {
      OctetsAreBytes(pieces[0]);
      LegalIsFitting(pieces[1..], LATER);
      if FitsLines(pieces, budget) {
        forall k | 0 <= k < |pieces[1..]| ensures |Bytes(pieces[1..][k])| <= 74 {
          assert pieces[1..][k] == pieces[k + 1];
        }
      }
      if FitsLines(pieces[1..], LATER) {
        forall k | 1 <= k < |pieces| ensures |Bytes(pieces[k])| <= 74 {
          assert pieces[k] == pieces[1..][k - 1];
        }
      }
    }
  }

  lemma {:induction false} CutsAreLegal(line: string, budget: nat)
    requires budget >= 4
    ensures Concat(Cuts(line, budget)) == line
    ensures LegalCut(Cuts(line, budget), budget)
    decreases |line|
  {
    var n := FitLen(line, budget);
    FitLenIsLongest(line, budget);
    var pieces := Cuts(line, budget);
    if n == |line| {
      assert pieces[1..] == [] && line[..n] == line && line + "" == line;
    } else {
      CutsAreLegal(line[n..], LATER);
      assert pieces[1..] == Cuts(line[n..], LATER);
      assert line == line[..n] + line[n..];
    }
  }

  /** Piece `k` fits its budget, and unless it is the last it leaves at most three octets unused. */
  predicate WellFilled(pieces: seq<string>, k: nat, budget: nat)
    requires k < |pieces|
  {
    var room := if k == 0 then budget else LATER;
    Octets(pieces[k]) <= room && (k < |pieces| - 1 ==> room <= Octets(pieces[k]) + 3)
  }

  lemma {:induction false} CutsAreFilled(line: string, budget: nat, k: nat)
    requires budget >= 4 && k < |Cuts(line, budget)|
    ensures WellFilled(Cuts(line, budget), k, budget)
    decreases |line|
  {
    var n := FitLen(line, budget);
    FitLenIsLongest(line, budget);
    if n == |line| {
      assert line[..n] == line;
    } else if k == 0 {
      OctetsSnoc(line[..n], line[n]);
      assert line[..n] + [line[n]] == line[..n + 1];
    } else {
      CutsAreFilled(line[n..], LATER, k - 1);
      assert Cuts(line, budget)[k] == Cuts(line[n..], LATER)[k - 1];
    }
  }

  /** The pieces of `fold_line`: the whole line, at most 75 octets of UTF-8 in the first and 74 in each later one. */
  lemma FoldPieces(line: string)
    ensures Concat(Cuts(line, 75)) == line && FitsLines(Cuts(line, 75), 75)
  {
    CutsAreLegal(line, 75);
    LegalIsFitting(Cuts(line, 75), 75);
  }

  /** Physical line `k` as it is sent, without its CRLF. */
  function PhysicalLine(pieces: seq<string>, k: nat): string
    requires k < |pieces|
  {
    if k == 0 then pieces[0] else [' '] + pieces[k]
  }

  lemma PhysicalOctets(pieces: seq<string>, k: nat)
    requires k < |pieces|
    ensures |Bytes(PhysicalLine(pieces, k))| == Octets(pieces[k]) + if k == 0 then 0 else 1
  {
    OctetsAreBytes(PhysicalLine(pieces, k));
    if k > 0 {
      assert ([' '] + pieces[k])[1..] == pieces[k];
    }
  }

  /** Every physical line is at most 75 octets of UTF-8, and every one but the last is at least 72. */
  lemma PhysicalLineBounds(line: string, k: nat)
    requires k < |Cuts(line, FIRST)|
    ensures |Bytes(PhysicalLine(Cuts(line, FIRST), k))| <= 75
    ensures k < |Cuts(line, FIRST)| - 1 ==> 72 <= |Bytes(PhysicalLine(Cuts(line, FIRST), k))|
  {
    CutsAreFilled(line, FIRST, k);
    PhysicalOctets(Cuts(line, FIRST), k);
  }

  lemma OctetsOfBreak()
    ensures Octets("\r\n") == 2 && Octets("\r\n ") == 3
  {
    assert Ascii("\r\n") && Ascii("\r\n ");
    OctetsOfAscii("\r\n");
    OctetsOfAscii("\r\n ");
  }

  lemma {:induction false} FoldTextOctets(pieces: seq<string>)
    requires |pieces| > 0
    ensures Octets(FoldText(pieces)) == Octets(Concat(pieces)) + 3 * (|pieces| - 1) + 2
  {
    OctetsOfBreak();
    OctetsConcat(pieces[0], Concat(pieces[1..]));
    if |pieces| == 1 {
      OctetsConcat(pieces[0], "\r\n");
      assert Concat(pieces[1..]) == "";
    } else {
      FoldTextOctets(pieces[1..]);
      OctetsConcat(pieces[0], "\r\n ");
      OctetsConcat(pieces[0] + "\r\n ", FoldText(pieces[1..]));
    }
  }

  /** Folding costs three octets a break and two for the end of the line. */
  lemma FoldedOctets(line: string)
    ensures |Bytes(Folded(line))| == |Bytes(line)| + 3 * (|Cuts(line, FIRST)| - 1) + 2
  {
    OctetsAreBytes(Folded(line));
    OctetsAreBytes(line);
    FoldTextOctets(Cuts(line, FIRST));
    CutsAreLegal(line, FIRST);
  }

  lemma AsciiFit(line: string, budget: nat)
    requires Ascii(line)
    ensures FitLen(line, budget) == if |line| <= budget then |line| else budget
  {
    var n := if |line| <= budget then |line| else budget;
    OctetsOfAscii(line[..n]);
    FitLenUnique(line, budget, n);
  }

  /** Round up `a / b`. */
  function CeilDiv(a: nat, b: nat): nat
    requires b > 0
  {
    (a + b - 1) / b
  }

  lemma {:induction false} AsciiPieces(line: string, budget: nat)
    requires Ascii(line) && 4 <= budget
    ensures |Cuts(line, budget)| == if |line| <= budget then 1 else 1 + CeilDiv(|line| - budget, LATER)
    decreases |line|
  {
    AsciiFit(line, budget);
    if |line| > budget {
      AsciiPieces(line[budget..], LATER);
    }
  }

  /** For ASCII the number of breaks is a closed formula. */
  lemma AsciiBreaks(line: string)
    requires Ascii(line)
    ensures |Cuts(line, FIRST)| - 1 == if |line| <= 75 then 0 else CeilDiv(|line| - 75, 74)
  {
    AsciiPieces(line, FIRST);
  }

  // ----- greedy is optimal ----------------------------------------------------------

  /**
   One step of the comparison. The other cut still has `lead + line` to write and the greedy one `line`; after
   one more piece each, the other is still behind by some `lead'`.
   */
  lemma GreedyStep(line: string, budget: nat, lead: string, other: seq<string>) returns (lead': string)
    requires budget >= 4 && other != [] && FitLen(line, budget) < |line|
    requires LegalCut(other, budget) && Concat(other) == lead + line
    ensures var n := FitLen(line, budget);
            |other[0]| <= |lead| + n && |lead'| == |lead| + n - |other[0]| && Concat(other[1..]) == lead' + line[n..]
  {
    var n := FitLen(line, budget);
    var first, rest := other[0], Concat(other[1..]);
    if |first| > |lead| + n {
      // The other cut would have to fit more of the line in its first piece than fits.
      var k := |first| - |lead|;
      assert first == (first + rest)[..|first|] == lead + line[..k];
      TooLong(line, budget, lead, first, k);
      assert false;
    }
    lead' := (lead + line[..n])[|first|..];
    assert first + rest == lead + line[..n] + line[n..];
    assert rest == (first + rest)[|first|..] == lead' + line[n..];
  }

  lemma TooLong(line: string, budget: nat, lead: string, first: string, k: nat)
    requires FitLen(line, budget) < k <= |line|
    ensures Octets(lead + line[..k]) > budget
  {
    FitLenIsLongest(line, budget);
    OctetsConcat(lead, line[..k]);
  }

  /**
   Greedy stays ahead. Let `line` be a suffix of `other`'s text, so that the greedy cut has already
   written at least as much as `other` has. Then the greedy cut needs no more pieces than `other`.
   */
  lemma {:induction false} GreedyStaysAhead(line: string, budget: nat, lead: string, other: seq<string>)
    requires budget >= 4 && |other| > 0
    requires LegalCut(other, budget) && Concat(other) == lead + line
    ensures |Cuts(line, budget)| <= |other|
    decreases |line|, |other|
  {
    var n := FitLen(line, budget);
    if n < |line| {
      FitLenPositive(line, budget);
      var lead' := GreedyStep(line, budget, lead, other);
      if |other| == 1 {
        assert false;
      }
      GreedyStaysAhead(line[n..], LATER, lead', other[1..]);
    }
  }

  lemma FitLenPositive(line: string, budget: nat)
    requires line != "" && budget >= 4
    ensures FitLen(line, budget) > 0
  {
  }

  /** No way to fold a line within the limits uses fewer physical lines than `fold_line`. */
  lemma FoldIsOptimal(line: string, other: seq<string>)
    requires FitsLines(other, 75) && Concat(other) == line && other != []
    ensures |Cuts(line, FIRST)| <= |other|
  {
    LegalIsFitting(other, 75);
    assert "" + line == line;
    GreedyStaysAhead(line, FIRST, "", other);
  }

  function Take(pieces: seq<string>, k: nat): seq<string> {
    if k <= |pieces| then pieces[..k] else pieces
  }

  /** At every prefix: after `k` physical lines the greedy cut has written at least as much as any other. */
  lemma {:induction false} GreedyPrefix(line: string, budget: nat, lead: string, other: seq<string>, k: nat)
    requires budget >= 4
    requires LegalCut(other, budget) && Concat(other) == lead + line && |lead| <= |Concat(Take(other, k))|
    ensures |Concat(Take(other, k))| <= |lead| + |Concat(Take(Cuts(line, budget), k))|
    decreases |line|, k
  {
    PrefixWithin(other, k);
    var n := FitLen(line, budget);
    var pieces := Cuts(line, budget);
    if k > 0 && n == |line| {
      assert pieces == [line] && Take(pieces, k) == [line];
      assert Concat([line]) == line + Concat([line][1..]) == line;
    } else if k > 0 && other != [] {
      FitLenPositive(line, budget);
      var lead' := GreedyStep(line, budget, lead, other);
      TakeStep(other, k);
      TakeStep(pieces, k);
      assert pieces[1..] == Cuts(line[n..], LATER);
      if |lead'| <= |Concat(Take(other[1..], k - 1))| {
        GreedyPrefix(line[n..], LATER, lead', other[1..], k - 1);
      }
    }
  }

  lemma {:induction false} PrefixWithin(pieces: seq<string>, k: nat)
    ensures |Concat(Take(pieces, k))| <= |Concat(pieces)|
  {
    if k > 0 && pieces != [] {
      TakeStep(pieces, k);
      PrefixWithin(pieces[1..], k - 1);
    }
  }

  lemma TakeStep(pieces: seq<string>, k: nat)
    requires k > 0 && pieces != []
    ensures Take(pieces, k) == [pieces[0]] + Take(pieces[1..], k - 1)
    ensures Concat(Take(pieces, k)) == pieces[0] + Concat(Take(pieces[1..], k - 1))
  {
    assert ([pieces[0]] + Take(pieces[1..], k - 1))[1..] == Take(pieces[1..], k - 1);
  }

  /** Stated for whole lines: `fold_line` is ahead of every legal fold after every number of physical lines. */
  lemma FoldAheadAtEveryPrefix(line: string, other: seq<string>, k: nat)
    requires FitsLines(other, 75) && Concat(other) == line
    ensures |Concat(Take(other, k))| <= |Concat(Take(Cuts(line, FIRST), k))|
  {
    LegalIsFitting(other, 75);
    assert "" + line == line;
    GreedyPrefix(line, FIRST, "", other, k);
  }
}
