/** Whitespace as the standard string functions see it: trimming and splitting. */
module Chars {
  import opened Wrappers

  /** Unicode White_Space. */
  predicate IsWhite(c: char) {
    var n := c as int;
    || 0x09 <= n <= 0x0D || n == 0x20 || n == 0x85 || n == 0xA0 || n == 0x1680
    || 0x2000 <= n <= 0x200A || n == 0x2028 || n == 0x2029 || n == 0x202F || n == 0x205F || n == 0x3000
  }

  function TrimStart(s: string): string {
    if s != "" && IsWhite(s[0]) then TrimStart(s[1..]) else s
  }

  function TrimEnd(s: string): string {
    if s != "" && IsWhite(s[|s| - 1]) then TrimEnd(s[..|s| - 1]) else s
  }

  function Trim(s: string): string {
    TrimEnd(TrimStart(s))
  }

  /** `trim_end_matches(c)` */
  function TrimEndChar(s: string, c: char): string {
    if s != "" && s[|s| - 1] == c then TrimEndChar(s[..|s| - 1], c) else s
  }

  /** Length of the leading run without whitespace. */
  function WordLen(s: string): (n: nat)
    ensures n <= |s|
    ensures forall i | 0 <= i < n :: !IsWhite(s[i])
    ensures n < |s| ==> IsWhite(s[n])
  {
    if s == "" || IsWhite(s[0]) then 0 else 1 + WordLen(s[1..])
  }

  /** `split_whitespace()` */
  function SplitWhitespace(s: string): seq<string> {
    if s == "" then []
    else if IsWhite(s[0]) then SplitWhitespace(s[1..])
    else
      var n := WordLen(s);
      [s[..n]] + SplitWhitespace(s[n..])
  }

  predicate IsWord(s: string) {
    s != "" && forall i | 0 <= i < |s| :: !IsWhite(s[i])
  }

  /** Words separated by single spaces; nothing when there is no word. */
  function Joined(words: seq<string>): Option<string> {
    if words == [] then None
    else
      var init, last := Joined(words[..|words| - 1]), words[|words| - 1];
      if last == "" then init
      else if init.None? then Some(last)
      else Some(init.value + " " + last)
  }

  lemma WordLenOf(word: string, rest: string)
    requires IsWord(word) && (rest != "" ==> IsWhite(rest[0]))
    ensures WordLen(word + rest) == |word|
  {
    var all := word + rest;
    assert forall i | 0 <= i < |word| :: all[i] == word[i];
    assert rest != "" ==> all[|word|] == rest[0];
  }

  lemma {:induction false} SplitSnoc(s: string, word: string)
    requires IsWord(word)
    ensures SplitWhitespace(s + " " + word) == SplitWhitespace(s) + [word]
    decreases |s|
  {
    var all := s + " " + word;
    if s == "" {
      assert all[0] == ' ' && all[1..] == word;
      WordLenOf(word, "");
      assert word + "" == word && word[..|word|] == word;
      assert SplitWhitespace(word[|word|..]) == [];
    } else if IsWhite(s[0]) {
      assert all[1..] == s[1..] + " " + word;
      SplitSnoc(s[1..], word);
    } else {
      var n := WordLen(s);
      assert s[..n] + (s[n..] + " " + word) == all;
      assert IsWord(s[..n]);
      assert s[n..] + " " + word != "" && IsWhite((s[n..] + " " + word)[0]);
      WordLenOf(s[..n], s[n..] + " " + word);
      assert all[n..] == s[n..] + " " + word && all[..n] == s[..n];
      SplitSnoc(s[n..], word);
    }
  }

  /** Splitting a joined list of words gives the list back. */
  lemma {:induction false} SplitInvertsJoined(words: seq<string>)
    requires words != [] && forall i | 0 <= i < |words| :: IsWord(words[i])
    ensures Joined(words).Some? && SplitWhitespace(Joined(words).value) == words
    ensures Trim(Joined(words).value) != ""
  {
    var init, last := words[..|words| - 1], words[|words| - 1];
    assert words == init + [last];
    assert !IsWhite(last[|last| - 1]);
    if init == [] {
      WordLenOf(last, "");
      assert last + "" == last && last[..|last|] == last && SplitWhitespace(last[|last|..]) == [];
    } else {
      SplitInvertsJoined(init);
      SplitSnoc(Joined(init).value, last);
    }
    TrimKeepsLast(Joined(words).value);
  }

  lemma {:induction false} TrimKeepsLast(s: string)
    requires s != "" && !IsWhite(s[|s| - 1])
    ensures Trim(s) != ""
  {
    if IsWhite(s[0]) {
      TrimKeepsLast(s[1..]);
    }
  }

  // ----- what the functions above amount to -----------------------------------------

  /** The White_Space characters of Unicode, one by one. */
  const WHITE_SPACE: set<int> :=
    {9, 10, 11, 12, 13, 32, 133, 160, 5760, 8192, 8193, 8194, 8195, 8196, 8197, 8198, 8199, 8200, 8201, 8202, 8232,
     8233, 8239, 8287, 12288}

  lemma WhiteSpaceTable(c: char)
    ensures IsWhite(c) <==> c as int in WHITE_SPACE
  {
  }

  /** What is left is a prefix that does not end in `c`; what went is `c` throughout. */
  lemma {:induction false} TrimEndCharMeaning(s: string, c: char)
    ensures var t := TrimEndChar(s, c);
            && t <= s && (forall i | |t| <= i < |s| :: s[i] == c)
            && (t != "" ==> t[|t| - 1] != c)
    decreases |s|
  {
    if s != "" && s[|s| - 1] == c {
      TrimEndCharMeaning(s[..|s| - 1], c);
    }
  }

  /** Trimming takes whitespace off both ends, all of it, and nothing else. */
  lemma TrimMeaning(s: string) returns (before: string, after: string)
    ensures s == before + Trim(s) + after
    ensures (forall c | c in before :: IsWhite(c)) && (forall c | c in after :: IsWhite(c))
    ensures var t := Trim(s); t != "" ==> !IsWhite(t[0]) && !IsWhite(t[|t| - 1])
  {
    before := TrimStartMeaning(s);
    after := TrimEndMeaning(TrimStart(s));
    if Trim(s) != "" {
      assert Trim(s)[0] == TrimStart(s)[0];
    }
  }

  lemma {:induction false} TrimStartMeaning(s: string) returns (before: string)
    ensures s == before + TrimStart(s) && forall c | c in before :: IsWhite(c)
    ensures TrimStart(s) != "" ==> !IsWhite(TrimStart(s)[0])
  {
    if s != "" && IsWhite(s[0]) {
      var rest := TrimStartMeaning(s[1..]);
      before := [s[0]] + rest;
      assert s == [s[0]] + s[1..];
    } else {
      before := "";
    }
  }

  lemma {:induction false} TrimEndMeaning(s: string) returns (after: string)
    ensures s == TrimEnd(s) + after && forall c | c in after :: IsWhite(c)
    ensures TrimEnd(s) != "" ==> !IsWhite(TrimEnd(s)[|TrimEnd(s)| - 1])
    decreases |s|
  {
    if s != "" && IsWhite(s[|s| - 1]) {
      var rest := TrimEndMeaning(s[..|s| - 1]);
      after := rest + [s[|s| - 1]];
      assert s == s[..|s| - 1] + [s[|s| - 1]];
    } else {
      after := "";
    }
  }

  /** Words are cut at every whitespace character, and a text without any is one word. */
  lemma {:induction false} SplitAtWhite(a: string, w: char, b: string)
    requires IsWhite(w)
    ensures SplitWhitespace(a + [w] + b) == SplitWhitespace(a) + SplitWhitespace(b)
    decreases |a|
  {
    var all := a + [w] + b;
    if a == "" {
      assert all[0] == w && all[1..] == b;
    } else if IsWhite(a[0]) {
      assert all[1..] == a[1..] + [w] + b;
      SplitAtWhite(a[1..], w, b);
    } else {
      var n := WordLen(a);
      SplitAtWhite(a[n..], w, b);
      assert a[..n] + (a[n..] + [w] + b) == all;
      assert IsWord(a[..n]) && IsWhite((a[n..] + [w] + b)[0]);
      WordLenOf(a[..n], a[n..] + [w] + b);
      assert all[n..] == a[n..] + [w] + b && all[..n] == a[..n];
    }
  }

  lemma SplitOneWord(word: string)
    requires IsWord(word)
    ensures SplitWhitespace(word) == [word]
  {
    WordLenOf(word, "");
    assert word + "" == word && word[..|word|] == word && SplitWhitespace(word[|word|..]) == [];
  }
}
