/** TEXT values of iCalendar (section 3.3.11 of RFC 5545): the writer and the reader that inverts it. */
module Escape {
  import opened Wrappers

  // ----- the writer -----------------------------------------------------------------

  function EscapeChar(c: char): string {
    match c
    case '\\' => ['\\', '\\']
    case ';' => ['\\', ';']
    case ',' => ['\\', ',']
    case '\n' => ['\\', 'n']
    case '\r' => []
    case other => [other]
  }

  function Escaped(s: string): string {
    if s == "" then "" else EscapeChar(s[0]) + Escaped(s[1..])
  }

  method EscapeText(s: string) returns (out: string)
    ensures out == Escaped(s)
  {
    out := "";
    for i := 0 to |s|
      invariant out == Escaped(s[..i])
    {
      EscapedSnoc(s[..i], s[i]);
      assert s[..i + 1] == s[..i] + [s[i]];
      match s[i] {
        case '\\' => out := out + "\\\\";
        case ';' => out := out + "\\;";
        case ',' => out := out + "\\,";
        case '\n' => out := out + "\\n";
        case '\r' =>
        case other => out := out + [other];
      }
    }
    assert s[..|s|] == s;
  }

  lemma {:induction false} EscapedDistributes(a: string, b: string)
    ensures Escaped(a + b) == Escaped(a) + Escaped(b)
  {
    if a == "" {
      assert a + b == b;
    } else {
      assert (a + b)[0] == a[0] && (a + b)[1..] == a[1..] + b;
      EscapedDistributes(a[1..], b);
    }
  }

  lemma EscapedCons(c: char, rest: string)
    ensures Escaped([c] + rest) == EscapeChar(c) + Escaped(rest)
  {
    assert ([c] + rest)[1..] == rest;
  }

  lemma EscapedSnoc(init: string, c: char)
    ensures Escaped(init + [c]) == Escaped(init) + EscapeChar(c)
  {
    EscapedDistributes(init, [c]);
    assert [c][1..] == "";
    assert Escaped([c]) == EscapeChar(c) + Escaped("") == EscapeChar(c);
  }

  // ----- the reader the standard asks for -------------------------------------------

  /** What the character after a backslash stands for. */
  function EscapeMeaning(c: char): Option<char> {
    match c
    case '\\' => Some('\\')
    case ';' => Some(';')
    case ',' => Some(',')
    case 'n' => Some('\n')
    case 'N' => Some('\n')
    case _ => None
  }

  function Prepend(c: char, rest: Option<string>): Option<string> {
    if rest.Some? then Some([c] + rest.value) else None
  }

  /** Strict TEXT reader: a bare separator, a bare line break or an unknown escape is no TEXT value. */
  function Unescape(t: string): Option<string> {
    if t == "" then Some("")
    else if t[0] == '\\' then
      if |t| < 2 || EscapeMeaning(t[1]).None? then None
      else Prepend(EscapeMeaning(t[1]).value, Unescape(t[2..]))
    else if t[0] == ';' || t[0] == ',' || t[0] == '\n' || t[0] == '\r' then None
    else Prepend(t[0], Unescape(t[1..]))
  }

  function WithoutCr(s: string): string {
    if s == "" then "" else (if s[0] == '\r' then "" else [s[0]]) + WithoutCr(s[1..])
  }

  /** Some escape in `t` is the alternative spelling of a line break, backslash capital-N. */
  predicate UsesCapitalN(t: string) {
    |t| >= 2 &&
    if t[0] == '\\' then t[1] == 'N' || UsesCapitalN(t[2..]) else UsesCapitalN(t[1..])
  }

  // ----- round trips ----------------------------------------------------------------

  /** Reading one written character, whatever follows. */
  lemma UnescapeOne(c: char, rest: string)
    ensures Unescape(EscapeChar(c) + rest) == if c == '\r' then Unescape(rest) else Prepend(c, Unescape(rest))
  {
    var x := EscapeChar(c);
    if |x| == 0 {
      assert x + rest == rest;
    } else {
      assert (x + rest)[0] == x[0] && (x + rest)[|x|..] == rest;
      assert |x| == 2 ==> (x + rest)[1] == x[1];
    }
  }

  lemma {:induction false} UnescapeInvertsEscaped(s: string)
    ensures Unescape(Escaped(s)) == Some(WithoutCr(s))
  {
    if s != "" {
      UnescapeInvertsEscaped(s[1..]);
      UnescapeOne(s[0], Escaped(s[1..]));
      assert "" + WithoutCr(s[1..]) == WithoutCr(s[1..]);
    }
  }

  lemma {:induction false} WithoutCrIdentity(s: string)
    ensures |WithoutCr(s)| <= |s|
    ensures WithoutCr(s) == s <==> '\r' !in s
    ensures '\r' !in WithoutCr(s)
  {
    if s != "" {
      WithoutCrIdentity(s[1..]);
      assert s == [s[0]] + s[1..];
    }
  }

  /** A text comes back exactly when it holds no carriage return. */
  lemma EscapeRoundTrip(s: string)
    ensures Unescape(Escaped(s)) == Some(s) <==> '\r' !in s
  {
    UnescapeInvertsEscaped(s);
    WithoutCrIdentity(s);
  }

  /** Reading the first unit of a readable text; it is what the writer writes, but for capital N. */
  lemma UnescapeFirst(t: string) returns (c: char, n: nat)
    requires t != "" && Unescape(t).Some?
    ensures n <= |t| && n == |EscapeChar(c)| > 0 && Unescape(t[n..]).Some?
    ensures Unescape(t).value == [c] + Unescape(t[n..]).value
    ensures EscapeChar(c) == t[..n] <==> !(t[0] == '\\' && t[1] == 'N')
    ensures UsesCapitalN(t) <==> (t[0] == '\\' && t[1] == 'N') || UsesCapitalN(t[n..])
    ensures t[0] == '\\' ==> |t| >= 2
  {
    if t[0] == '\\' {
      c, n := EscapeMeaning(t[1]).value, 2;
      assert EscapeChar(c)[1] == t[1] || t[1] == 'N';
    } else {
      c, n := t[0], 1;
    }
  }

  lemma SameParts(head: string, tail: string, t: string)
    requires |head| <= |t|
    ensures |head + tail| == |head| + |tail|
    ensures head + tail == t <==> head == t[..|head|] && tail == t[|head|..]
  {
    var n := |head|;
    assert (head + tail)[..n] == head && (head + tail)[n..] == tail;
    assert t == t[..n] + t[n..];
  }

  /** The other direction: what the reader accepts is what the writer writes, up to the spelling of line breaks. */
  lemma {:induction false} EscapedInvertsUnescape(t: string)
    requires Unescape(t).Some?
    ensures Escaped(Unescape(t).value) == t <==> !UsesCapitalN(t)
    ensures |Escaped(Unescape(t).value)| == |t|
    decreases |t|
  {
    if t != "" {
      var c, n := UnescapeFirst(t);
      var rest := Unescape(t[n..]).value;
      EscapedInvertsUnescape(t[n..]);
      EscapedCons(c, rest);
      SameParts(EscapeChar(c), Escaped(rest), t);
    }
  }

  lemma EscapedHasNoCapitalN(s: string)
    ensures !UsesCapitalN(Escaped(s))
  {
    if s != "" {
      var head, tail := EscapeChar(s[0]), Escaped(s[1..]);
      EscapedHasNoCapitalN(s[1..]);
      if head == "" {
        assert head + tail == tail;
      } else if |head| == 1 {
        assert (head + tail)[1..] == tail;
      } else {
        assert (head + tail)[2..] == tail;
      }
    }
  }

  /** The texts `escape_text` can produce, exactly. */
  lemma EscapedImage(t: string)
    ensures (exists s :: Escaped(s) == t) <==> Unescape(t).Some? && !UsesCapitalN(t)
  {
    if s :| Escaped(s) == t {
      UnescapeInvertsEscaped(s);
      EscapedHasNoCapitalN(s);
    }
    if Unescape(t).Some? && !UsesCapitalN(t) {
      EscapedInvertsUnescape(t);
    }
  }

  // ----- separators -----------------------------------------------------------------

  /** Length of the run of backslashes that ends `t`. */
  function TrailingBackslashes(t: string): nat {
    if t == "" || t[|t| - 1] != '\\' then 0 else 1 + TrailingBackslashes(t[..|t| - 1])
  }

  /** Position `i` holds a separator that no backslash escapes. */
  predicate BareSeparatorAt(t: string, i: nat)
    requires i < |t|
  {
    (t[i] == ',' || t[i] == ';') && TrailingBackslashes(t[..i]) % 2 == 0
  }

  lemma TrailingAfter(t: string, c: char)
    ensures TrailingBackslashes(t + [c]) == if c == '\\' then 1 + TrailingBackslashes(t) else 0
  {
    assert (t + [c])[..|t|] == t;
  }

  /** What an escaped character looks like: nothing, itself, or a backslash and a letter. */
  predicate EscapeShape(x: string) {
    || x == []
    || (|x| == 1 && x[0] != '\\' && x[0] != ',' && x[0] != ';' && x[0] != '\r' && x[0] != '\n')
    || (|x| == 2 && x[0] == '\\' && x[1] != '\r' && x[1] != '\n')
  }

  lemma EscapeCharShape(c: char)
    ensures EscapeShape(EscapeChar(c))
  {
  }

  lemma TrailingAfterTwo(e: string, a: char, b: char)
    ensures TrailingBackslashes(e + [a, b]) ==
            if b != '\\' then 0 else if a != '\\' then 1 else 2 + TrailingBackslashes(e)
  {
    TrailingAfter(e, a);
    TrailingAfter(e + [a], b);
    assert e + [a, b] == e + [a] + [b];
  }

  lemma TrailingAfterShape(e: string, x: string)
    requires TrailingBackslashes(e) % 2 == 0 && EscapeShape(x)
    ensures TrailingBackslashes(e + x) % 2 == 0
  {
    if |x| == 0 {
      assert e + x == e;
    } else if |x| == 1 {
      assert x == [x[0]];
      TrailingAfter(e, x[0]);
    } else {
      assert x == [x[0], x[1]];
      TrailingAfterTwo(e, x[0], x[1]);
    }
  }

  lemma {:induction false} TrailingRunIsEven(s: string)
    ensures TrailingBackslashes(Escaped(s)) % 2 == 0
    decreases |s|
  {
    if s != "" {
      var init, c := s[..|s| - 1], s[|s| - 1];
      TrailingRunIsEven(init);
      assert s == init + [c];
      EscapedSnoc(init, c);
      EscapeCharShape(c);
      TrailingAfterShape(Escaped(init), EscapeChar(c));
    }
  }

  predicate Safe(t: string) {
    '\r' !in t && '\n' !in t && forall i | 0 <= i < |t| :: !BareSeparatorAt(t, i)
  }

  lemma SeparatorBefore(e: string, x: string, i: nat)
    requires i < |e|
    ensures BareSeparatorAt(e + x, i) == BareSeparatorAt(e, i)
  {
    assert (e + x)[..i] == e[..i];
  }

  lemma NoSeparatorAfter(e: string, a: char)
    requires (a != ',' && a != ';') || TrailingBackslashes(e) % 2 == 1
    ensures !BareSeparatorAt(e + [a], |e|)
  {
    hide TrailingBackslashes;
    assert (e + [a])[|e|] == a && (e + [a])[..|e|] == e;
  }

  lemma NoSeparatorInTwo(e: string, b: char)
    requires TrailingBackslashes(e) % 2 == 0
    ensures !BareSeparatorAt(e + ['\\'] + [b], |e|) && !BareSeparatorAt(e + ['\\'] + [b], |e| + 1)
  {
    hide BareSeparatorAt;
    TrailingAfter(e, '\\');
    NoSeparatorAfter(e, '\\');
    SeparatorBefore(e + ['\\'], [b], |e|);
    NoSeparatorAfter(e + ['\\'], b);
  }

  lemma SeparatorInEscape(e: string, x: string, i: nat)
    requires TrailingBackslashes(e) % 2 == 0 && EscapeShape(x) && |e| <= i < |e| + |x|
    ensures !BareSeparatorAt(e + x, i)
  {
    hide BareSeparatorAt;
    if |x| == 1 {
      assert x == [x[0]];
      NoSeparatorAfter(e, x[0]);
    } else {
      assert e + x == e + ['\\'] + [x[1]];
      NoSeparatorInTwo(e, x[1]);
    }
  }

  lemma SafeAfterShape(e: string, x: string)
    requires TrailingBackslashes(e) % 2 == 0 && Safe(e) && EscapeShape(x)
    ensures Safe(e + x)
  {
    var t := e + x;
    forall i | 0 <= i < |t| ensures !BareSeparatorAt(t, i) {
      if i < |e| {
        SeparatorBefore(e, x, i);
      } else {
        SeparatorInEscape(e, x, i);
      }
    }
  }

  /** Escaped text has no line break and no separator a reader could take for syntax. */
  lemma {:induction false} EscapedIsSafe(s: string)
    ensures Safe(Escaped(s))
    decreases |s|
  {
    if s != "" {
      var init, c := s[..|s| - 1], s[|s| - 1];
      EscapedIsSafe(init);
      TrailingRunIsEven(init);
      assert s == init + [c];
      EscapedSnoc(init, c);
      EscapeCharShape(c);
      SafeAfterShape(Escaped(init), EscapeChar(c));
    }
  }

  /** Cut a property value at its unescaped commas, as a reader of value lists does. */
  function SplitValues(t: string): (parts: seq<string>)
    ensures |parts| > 0
  {
    if t == "" then [""]
    else if t[0] == ',' then [""] + SplitValues(t[1..])
    else
      var n := if t[0] == '\\' && |t| >= 2 then 2 else 1;
      var rest := SplitValues(t[n..]);
      [t[..n] + rest[0]] + rest[1..]
  }

  /** `text` glued to the first of `parts`. */
  function Glue(text: string, parts: seq<string>): seq<string>
    requires |parts| > 0
  {
    [text + parts[0]] + parts[1..]
  }

  lemma GlueNothing(parts: seq<string>)
    requires |parts| > 0
    ensures Glue("", parts) == parts
  {
    assert "" + parts[0] == parts[0];
  }

  lemma GlueGlue(a: string, b: string, parts: seq<string>)
    requires |parts| > 0
    ensures Glue(a, Glue(b, parts)) == Glue(a + b, parts)
  {
    assert a + (b + parts[0]) == (a + b) + parts[0];
  }

  lemma SplitAfterEscape(c: char, rest: string)
    ensures SplitValues(EscapeChar(c) + rest) == Glue(EscapeChar(c), SplitValues(rest))
  {
    var x := EscapeChar(c);
    if |x| == 0 {
      assert x + rest == rest;
      GlueNothing(SplitValues(rest));
    } else {
      assert (x + rest)[..|x|] == x && (x + rest)[|x|..] == rest;
    }
  }

  lemma {:induction false} SplitAfterEscaped(s: string, rest: string)
    ensures SplitValues(Escaped(s) + rest) == Glue(Escaped(s), SplitValues(rest))
  {
    if s == "" {
      assert "" + rest == rest;
      GlueNothing(SplitValues(rest));
    } else {
      var x, tail := EscapeChar(s[0]), Escaped(s[1..]);
      SplitAfterEscaped(s[1..], rest);
      assert Escaped(s) + rest == x + (tail + rest);
      SplitAfterEscape(s[0], tail + rest);
      GlueGlue(x, tail, SplitValues(rest));
    }
  }

  /** Comma-separated list of escaped texts. */
  function WriteTextList(values: seq<string>): string
    requires |values| > 0
  {
    if |values| == 1 then Escaped(values[0])
    else Escaped(values[0]) + ([','] + WriteTextList(values[1..]))
  }

  function EscapedAll(values: seq<string>): seq<string> {
    if values == [] then [] else [Escaped(values[0])] + EscapedAll(values[1..])
  }

  /** Splitting never confuses content with syntax: a list of escaped texts splits back into those texts. */
  lemma {:induction false} SplitInvertsTextList(values: seq<string>)
    requires |values| > 0
    ensures SplitValues(WriteTextList(values)) == EscapedAll(values)
  {
    var first := values[0];
    assert Escaped(first) + "" == Escaped(first);
    if |values| == 1 {
      SplitAfterEscaped(first, "");
      assert values[1..] == [];
    } else {
      var rest := WriteTextList(values[1..]);
      SplitInvertsTextList(values[1..]);
      SplitAfterEscaped(first, [','] + rest);
      assert ([','] + rest)[1..] == rest;
    }
  }

  /** What `text_prop` reads off a raw value: the first value of the list, unescaped. */
  function FirstText(raw: string): Option<string> {
    Unescape(SplitValues(raw)[0])
  }

  /** A written text is one value, and reading it gives the text without carriage returns. */
  lemma FirstTextOfEscaped(s: string)
    ensures SplitValues(Escaped(s)) == [Escaped(s)]
    ensures FirstText(Escaped(s)) == Some(WithoutCr(s))
  {
    SplitInvertsTextList([s]);
    assert [s][1..] == [];
    UnescapeInvertsEscaped(s);
  }
}
