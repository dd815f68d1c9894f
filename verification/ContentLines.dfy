/**
 Reading physical lines back (section 3.1 of RFC 5545): unfold first, then cut at CRLF. The theorems say
 what a reader gets from a document that was written line by line with `Fold.FoldLine`.
 */
module ContentLines {
  import opened Wrappers
  import opened Fold
  import opened Utf8

  // ----- the reader -----------------------------------------------------------------

  predicate StartsCrlf(s: string) {
    |s| >= 2 && s[0] == '\r' && s[1] == '\n'
  }

  predicate StartsWsp(s: string) {
    s != "" && (s[0] == ' ' || s[0] == '\t')
  }

  /** Remove every CRLF that a space or tab follows, and that character with it. */
  function Unfold(s: string): string {
    if s == "" then ""
    else if StartsCrlf(s) && StartsWsp(s[2..]) then Unfold(s[3..])
    else [s[0]] + Unfold(s[1..])
  }

  /** The lines of `s` when each of them ends with CRLF. */
  function SplitLines(s: string): Option<seq<string>> {
    if s == "" then Some([])
    else if StartsCrlf(s) then AddLine("", SplitLines(s[2..]))
    else AddChar(s[0], SplitLines(s[1..]))
  }

  function AddLine(line: string, lines: Option<seq<string>>): Option<seq<string>> {
    if lines.Some? then Some([line] + lines.value) else None
  }

  function AddChar(c: char, lines: Option<seq<string>>): Option<seq<string>> {
    if lines.Some? && lines.value != [] then Some([[c] + lines.value[0]] + lines.value[1..]) else None
  }

  function ReadLines(doc: string): Option<seq<string>> {
    SplitLines(Unfold(doc))
  }

  predicate HasCrlf(s: string) {
    |s| >= 2 && (StartsCrlf(s) || HasCrlf(s[1..]))
  }

  // ----- the writer -----------------------------------------------------------------

  /** A document: each line folded, one after the other. */
  function FoldedAll(lines: seq<string>): string {
    if lines == [] then "" else Folded(lines[0]) + FoldedAll(lines[1..])
  }

  lemma {:induction false} FoldedAllConcat(a: seq<string>, b: seq<string>)
    ensures FoldedAll(a + b) == FoldedAll(a) + FoldedAll(b)
  {
    if a == [] {
      assert a + b == b;
    } else {
      assert (a + b)[0] == a[0] && (a + b)[1..] == a[1..] + b;
      FoldedAllConcat(a[1..], b);
    }
  }

  lemma FoldedAllSnoc(lines: seq<string>, line: string)
    ensures FoldedAll(lines + [line]) == FoldedAll(lines) + Folded(line)
  {
    FoldedAllConcat(lines, [line]);
    assert [line][1..] == [];
    assert FoldedAll([line]) == Folded(line) + FoldedAll([]) == Folded(line);
  }

  // ----- unfolding inverts folding --------------------------------------------------

  lemma {:induction false} HasCrlfConcat(a: string, b: string)
    ensures HasCrlf(a) || HasCrlf(b) ==> HasCrlf(a + b)
  {
    if a == "" {
      assert a + b == b;
    } else {
      assert (a + b)[1..] == a[1..] + b;
      HasCrlfConcat(a[1..], b);
    }
  }

  lemma {:induction false} UnfoldText(text: string, rest: string)
    requires !HasCrlf(text) && (text != "" && rest != "" ==> rest[0] != '\n')
    ensures Unfold(text + rest) == text + Unfold(rest)
  {
    if text == "" {
      assert text + rest == rest;
    } else {
      assert (text + rest)[0] == text[0] && (text + rest)[1..] == text[1..] + rest;
      UnfoldText(text[1..], rest);
      assert !StartsCrlf(text + rest);
      assert [text[0]] + (text[1..] + Unfold(rest)) == text + Unfold(rest);
    }
  }

  lemma UnfoldBreak(rest: string)
    ensures Unfold("\r\n " + rest) == Unfold(rest) && Unfold("\r\n\t" + rest) == Unfold(rest)
  {
    var s, t := "\r\n " + rest, "\r\n\t" + rest;
    assert s[2..][0] == ' ' && s[3..] == rest && t[2..][0] == '\t' && t[3..] == rest;
  }

  lemma UnfoldLineEnd(rest: string)
    requires !StartsWsp(rest)
    ensures Unfold("\r\n" + rest) == "\r\n" + Unfold(rest)
  {
    var s := "\r\n" + rest;
    assert s[2..] == rest;
    assert s[1..] == "\n" + rest && ("\n" + rest)[1..] == rest;
    assert ['\r'] + (['\n'] + Unfold(rest)) == "\r\n" + Unfold(rest);
  }

  lemma UnfoldLastPiece(piece: string, rest: string)
    requires !HasCrlf(piece) && !StartsWsp(rest)
    ensures Unfold(piece + "\r\n" + rest) == piece + "\r\n" + Unfold(rest)
  {
    var more := "\r\n" + rest;
    assert piece + "\r\n" + rest == piece + more;
    UnfoldText(piece, more);
    UnfoldLineEnd(rest);
    assert piece + ("\r\n" + Unfold(rest)) == piece + "\r\n" + Unfold(rest);
  }

  lemma UnfoldOnePiece(piece: string, rest: string)
    requires !HasCrlf(piece)
    ensures Unfold(piece + "\r\n " + rest) == piece + Unfold(rest)
  {
    var more := "\r\n " + rest;
    assert piece + "\r\n " + rest == piece + more;
    UnfoldText(piece, more);
    UnfoldBreak(rest);
  }

  lemma Regroup(a: string, b: string, c: string, d: string)
    ensures a + b + c + d == a + b + (c + d) == a + (b + c + d)
  {
  }

  lemma {:induction false} UnfoldFoldText(pieces: seq<string>, rest: string)
    requires |pieces| > 0 && !HasCrlf(Concat(pieces)) && !StartsWsp(rest)
    ensures Unfold(FoldText(pieces) + rest) == Concat(pieces) + "\r\n" + Unfold(rest)
  {
    var piece, later := pieces[0], pieces[1..];
    HasCrlfConcat(piece, Concat(later));
    if later == [] {
      assert Concat(pieces) == piece + "" == piece;
      UnfoldLastPiece(piece, rest);
    } else {
      UnfoldFoldText(later, rest);
      UnfoldOnePiece(piece, FoldText(later) + rest);
      Regroup(piece, "\r\n ", FoldText(later), rest);
      Regroup(piece, Concat(later), "\r\n", Unfold(rest));
    }
  }

  lemma {:induction false} SplitAfterLine(line: string, rest: string)
    requires !HasCrlf(line)
    ensures SplitLines(line + "\r\n" + rest) == AddLine(line, SplitLines(rest))
  {
    var s := line + "\r\n" + rest;
    if line == "" {
      assert s == "\r\n" + rest && s[2..] == rest;
    } else {
      assert s[0] == line[0] && s[1..] == line[1..] + "\r\n" + rest;
      assert !StartsCrlf(s);
      SplitAfterLine(line[1..], rest);
      if SplitLines(rest).Some? {
        var ls := [line[1..]] + SplitLines(rest).value;
        assert ls[1..] == SplitLines(rest).value && [line[0]] + ls[0] == line;
      }
    }
  }

  /** No line that a reader returns can contain a line break. */
  lemma {:induction false} SplitLinesHaveNoCrlf(s: string, k: nat)
    requires SplitLines(s).Some? && k < |SplitLines(s).value|
    ensures !HasCrlf(SplitLines(s).value[k])
    decreases |s|
  {
    if s != "" {
      if StartsCrlf(s) {
        if k > 0 {
          SplitLinesHaveNoCrlf(s[2..], k - 1);
        }
      } else {
        var ls := SplitLines(s[1..]).value;
        SplitLinesHaveNoCrlf(s[1..], k);
        if k == 0 {
          assert ([s[0]] + ls[0])[1..] == ls[0];
          if s[0] == '\r' && ls[0] != "" && ls[0][0] == '\n' {
            FirstLineIsPrefix(s[1..]);
          }
        }
      }
    }
  }

  lemma {:induction false} FirstLineIsPrefix(s: string)
    requires SplitLines(s).Some? && SplitLines(s).value != []
    ensures SplitLines(s).value[0] <= s
    decreases |s|
  {
    if !StartsCrlf(s) {
      FirstLineIsPrefix(s[1..]);
    }
  }

  predicate NoneBroken(lines: seq<string>) {
    forall k | 0 <= k < |lines| :: !HasCrlf(lines[k])
  }

  predicate NoneIndented(lines: seq<string>) {
    forall k | 0 <= k < |lines| :: lines[k] != "" && !StartsWsp(lines[k])
  }

  lemma FoldedStart(line: string)
    requires line != "" && !StartsWsp(line)
    ensures Folded(line) != "" && Folded(line)[0] == line[0]
  {
    assert FitLen(line, FIRST) > 0;
    assert Cuts(line, FIRST)[0][0] == line[0];
  }

  /** `lines` and then what a reader makes of the rest. */
  function Before(lines: seq<string>, more: Option<seq<string>>): Option<seq<string>> {
    if more.Some? then Some(lines + more.value) else None
  }

  lemma BeforeCons(line: string, lines: seq<string>, more: Option<seq<string>>)
    ensures AddLine(line, Before(lines, more)) == Before([line] + lines, more)
  {
    if more.Some? {
      assert [line] + (lines + more.value) == [line] + lines + more.value;
    }
  }

  lemma ReadLine(line: string, rest: string)
    requires !HasCrlf(line) && line != "" && !StartsWsp(line) && !StartsWsp(rest)
    ensures ReadLines(Folded(line) + rest) == AddLine(line, ReadLines(rest))
    ensures !StartsWsp(Folded(line) + rest)
  {
    CutsAreLegal(line, FIRST);
    UnfoldFoldText(Cuts(line, FIRST), rest);
    SplitAfterLine(line, Unfold(rest));
    FoldedStart(line);
  }

  /** Clean lines are read back whatever follows them. */
  lemma {:induction false} ReadPrefix(lines: seq<string>, tail: string)
    requires NoneBroken(lines) && NoneIndented(lines) && !StartsWsp(tail)
    ensures ReadLines(FoldedAll(lines) + tail) == Before(lines, ReadLines(tail))
    ensures !StartsWsp(FoldedAll(lines) + tail)
  {
    if lines == [] {
      assert "" + tail == tail;
      if ReadLines(tail).Some? {
        assert [] + ReadLines(tail).value == ReadLines(tail).value;
      }
    } else {
      var line, rest := lines[0], FoldedAll(lines[1..]) + tail;
      hide ReadLines;
      hide Folded;
      ReadPrefix(lines[1..], tail);
      ReadLine(line, rest);
      assert FoldedAll(lines) + tail == Folded(line) + rest;
      BeforeCons(line, lines[1..], ReadLines(tail));
      assert [line] + lines[1..] == lines;
    }
  }

  lemma UnfoldFoldedAll(lines: seq<string>)
    requires NoneBroken(lines) && NoneIndented(lines)
    ensures ReadLines(FoldedAll(lines)) == Some(lines)
    ensures !StartsWsp(FoldedAll(lines))
  {
    ReadPrefix(lines, "");
    assert FoldedAll(lines) + "" == FoldedAll(lines) && lines + [] == lines;
  }

  // ----- every written document can be split into lines -----------------------------

  lemma {:induction false} FoldTextEnds(pieces: seq<string>) returns (text: string)
    requires |pieces| > 0
    ensures FoldText(pieces) == text + "\r\n"
  {
    if |pieces| == 1 {
      text := pieces[0];
    } else {
      var rest := FoldTextEnds(pieces[1..]);
      text := pieces[0] + "\r\n " + rest;
    }
  }

  /** A line end that nothing indented follows stays where it is. */
  lemma {:induction false} UnfoldKeepsEnd(text: string, more: string) returns (kept: string)
    requires !StartsWsp(more)
    ensures Unfold(text + "\r\n" + more) == kept + "\r\n" + Unfold(more)
    decreases |text|
  {
    var s := text + "\r\n" + more;
    if text == "" {
      assert s == "\r\n" + more;
      UnfoldLineEnd(more);
      kept := "";
    } else if StartsCrlf(s) && StartsWsp(s[2..]) {
      assert s[|text|] == '\r' && s[2..][0] == s[2];
      assert s[3..] == text[3..] + "\r\n" + more;
      kept := UnfoldKeepsEnd(text[3..], more);
    } else {
      assert s[0] == text[0] && s[1..] == text[1..] + "\r\n" + more;
      var rest := UnfoldKeepsEnd(text[1..], more);
      kept := [text[0]] + rest;
    }
  }

  lemma {:induction false} SplitReadable(text: string, more: string)
    requires SplitLines(more).Some?
    ensures SplitLines(text + "\r\n" + more).Some? && SplitLines(text + "\r\n" + more).value != []
    decreases |text|
  {
    var s := text + "\r\n" + more;
    if text == "" {
      assert s == "\r\n" + more && s[2..] == more;
    } else if StartsCrlf(text) {
      assert s[2..] == text[2..] + "\r\n" + more;
      SplitReadable(text[2..], more);
    } else {
      assert s[0] == text[0] && s[1..] == text[1..] + "\r\n" + more && !StartsCrlf(s);
      SplitReadable(text[1..], more);
    }
  }

  /** Whatever the lines hold, a reader can split the document they were written to. */
  lemma {:induction false} AlwaysReadable(lines: seq<string>)
    requires NoneIndented(lines)
    ensures ReadLines(FoldedAll(lines)).Some? && !StartsWsp(FoldedAll(lines))
  {
    if lines != [] {
      var line, rest := lines[0], FoldedAll(lines[1..]);
      AlwaysReadable(lines[1..]);
      var text := FoldTextEnds(Cuts(line, FIRST));
      var kept := UnfoldKeepsEnd(text, rest);
      SplitReadable(kept, Unfold(rest));
      FoldedStart(line);
    }
  }

  /**
   The reader gets back the very lines that were written, exactly when no line holds a line break of its
   own: that is the whole precondition of `fold_line`'s promise.
   */
  lemma ReadInvertsWrite(lines: seq<string>)
    requires NoneIndented(lines)
    ensures ReadLines(FoldedAll(lines)) == Some(lines) <==> NoneBroken(lines)
  {
    if NoneBroken(lines) {
      UnfoldFoldedAll(lines);
    }
    if ReadLines(FoldedAll(lines)) == Some(lines) {
      forall k | 0 <= k < |lines| ensures !HasCrlf(lines[k]) {
        SplitLinesHaveNoCrlf(Unfold(FoldedAll(lines)), k);
      }
    }
  }

  /** The single-line case: `unfold(fold(line)) == line`, with no condition on how the line starts. */
  lemma FoldRoundTrip(line: string)
    ensures ReadLines(Folded(line)) == Some([line]) <==> !HasCrlf(line)
  {
    if !HasCrlf(line) {
      CutsAreLegal(line, FIRST);
      UnfoldFoldText(Cuts(line, FIRST), "");
      assert Folded(line) + "" == Folded(line);
      SplitAfterLine(line, Unfold(""));
      assert [line] + [] == [line];
    }
    if ReadLines(Folded(line)) == Some([line]) {
      SplitLinesHaveNoCrlf(Unfold(Folded(line)), 0);
    }
  }

  // ----- physical lines of a whole document -----------------------------------------

  predicate AllWithin(lines: seq<string>, limit: nat) {
    forall k | 0 <= k < |lines| :: Octets(lines[k]) <= limit
  }

  /** One more character before the first line of a split. */
  lemma SplitCons(c: char, s: string)
    requires !StartsCrlf([c] + s) && SplitLines(s).Some? && SplitLines(s).value != []
    ensures SplitLines([c] + s) == Some([[c] + SplitLines(s).value[0]] + SplitLines(s).value[1..])
  {
    assert ([c] + s)[1..] == s && ([c] + s)[0] == c;
  }

  lemma OctetsCons(c: char, s: string)
    ensures Octets([c] + s) == Utf8Len(c) + Octets(s)
  {
    assert ([c] + s)[1..] == s;
  }

  /** The lines of a split of `text`, a line break and more. */
  ghost predicate SplitsWithin(s: string, octets: nat, limit: nat) {
    var ls := SplitLines(s);
    ls.Some? && ls.value != [] && Octets(ls.value[0]) <= octets && AllWithin(ls.value, limit)
  }

  lemma WithinCons(c: char, more: string, octets: nat, limit: nat)
    requires !StartsCrlf([c] + more) && SplitsWithin(more, octets, limit) && Utf8Len(c) + octets <= limit
    ensures SplitsWithin([c] + more, Utf8Len(c) + octets, limit)
  {
    SplitCons(c, more);
    OctetsCons(c, SplitLines(more).value[0]);
  }

  lemma WithinCrlf(more: string, limit: nat)
    requires SplitLines(more).Some? && AllWithin(SplitLines(more).value, limit)
    ensures SplitsWithin("\r\n" + more, 0, limit)
  {
    assert ("\r\n" + more)[2..] == more;
  }

  lemma {:induction false} SplitWithin(text: string, rest: string, limit: nat)
    requires Octets(text) <= limit
    requires SplitLines(rest).Some? && AllWithin(SplitLines(rest).value, limit)
    ensures SplitsWithin(text + "\r\n" + rest, Octets(text), limit)
    decreases |text|
  {
    var s := text + "\r\n" + rest;
    if text == "" {
      assert s == "\r\n" + rest;
      WithinCrlf(rest, limit);
    } else if StartsCrlf(text) {
      var more := text[2..] + "\r\n" + rest;
      assert s == "\r\n" + more && text == text[..2] + text[2..];
      OctetsConcat(text[..2], text[2..]);
      SplitWithin(text[2..], rest, limit);
      WithinCrlf(more, limit);
    } else {
      var more := text[1..] + "\r\n" + rest;
      assert s == [text[0]] + more && !StartsCrlf(s);
      SplitWithin(text[1..], rest, limit);
      WithinCons(text[0], more, Octets(text[1..]), limit);
    }
  }

  lemma {:induction false} FoldTextWithin(pieces: seq<string>, rest: string, budget: nat)
    requires |pieces| > 0 && LegalCut(pieces, budget) && budget <= 74
    requires SplitLines(rest).Some? && AllWithin(SplitLines(rest).value, 75)
    ensures var ls := SplitLines(" " + FoldText(pieces) + rest);
            ls.Some? && AllWithin(ls.value, 75)
  {
    var piece, later := pieces[0], pieces[1..];
    assert (" " + piece)[1..] == piece;
    if later == [] {
      assert " " + FoldText(pieces) + rest == " " + piece + "\r\n" + rest;
      SplitWithin(" " + piece, rest, 75);
    } else {
      FoldTextWithin(later, rest, LATER);
      var more := " " + FoldText(later) + rest;
      assert " " + FoldText(pieces) + rest == " " + piece + "\r\n" + more;
      SplitWithin(" " + piece, more, 75);
    }
  }

  lemma FoldedWithin(line: string, rest: string)
    requires SplitLines(rest).Some? && AllWithin(SplitLines(rest).value, 75)
    ensures var ls := SplitLines(Folded(line) + rest);
            ls.Some? && AllWithin(ls.value, 75)
  {
    CutsAreLegal(line, FIRST);
    var pieces := Cuts(line, FIRST);
    var piece, later := pieces[0], pieces[1..];
    if later == [] {
      assert Folded(line) + rest == piece + "\r\n" + rest;
      SplitWithin(piece, rest, 75);
    } else {
      FoldTextWithin(later, rest, LATER);
      var more := " " + FoldText(later) + rest;
      assert Folded(line) + rest == piece + "\r\n" + more;
      SplitWithin(piece, more, 75);
    }
  }

  lemma {:induction false} PhysicalOctetsWithin(lines: seq<string>)
    ensures SplitLines(FoldedAll(lines)).Some?
    ensures AllWithin(SplitLines(FoldedAll(lines)).value, 75)
  {
    if lines != [] {
      PhysicalOctetsWithin(lines[1..]);
      FoldedWithin(lines[0], FoldedAll(lines[1..]));
    }
  }

  /** No line is longer than 75 octets of UTF-8. */
  predicate Within75(lines: seq<string>) {
    forall k | 0 <= k < |lines| :: |Bytes(lines[k])| <= 75
  }

  /** Whatever the lines hold, no physical line of the written document exceeds 75 octets. */
  lemma PhysicalLinesWithin(lines: seq<string>)
    ensures SplitLines(FoldedAll(lines)).Some?
    ensures Within75(SplitLines(FoldedAll(lines)).value)
  {
    PhysicalOctetsWithin(lines);
    var physical := SplitLines(FoldedAll(lines)).value;
    forall k | 0 <= k < |physical| ensures |Bytes(physical[k])| <= 75 {
      OctetsAreBytes(physical[k]);
    }
  }
}
