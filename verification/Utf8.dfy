/** UTF-8 (section 3 of RFC 3629): the octets of a text, and a decoder that inverts them. */
module Utf8 {
  import opened Wrappers

  type Octet = n: int | 0 <= n < 256

  // ----- encoding -------------------------------------------------------------------

  function Encoded(c: char): (octets: seq<Octet>)
    ensures octets != []
  {
    var n := c as int;
    if n < 0x80 then [n]
    else if n < 0x800 then [0xC0 + n / 64, Trailing(n)]
    else if n < 0x1_0000 then [0xE0 + n / 4096, Trailing(n / 64), Trailing(n)]
    else [0xF0 + n / 262144, Trailing(n / 4096), Trailing(n / 64), Trailing(n)]
  }

  function Trailing(n: nat): Octet {
    0x80 + n % 64
  }

  /** The octets of a text. */
  function Bytes(s: string): seq<Octet> {
    if s == "" then [] else Encoded(s[0]) + Bytes(s[1..])
  }

  // ----- decoding -------------------------------------------------------------------

  predicate IsTrailing(b: Octet) {
    0x80 <= b < 0xC0
  }

  /** How many octets a character takes, by its first one. */
  function SizeOf(lead: Octet): Option<nat> {
    if lead < 0x80 then Some(1)
    else if 0xC2 <= lead < 0xE0 then Some(2)
    else if 0xE0 <= lead < 0xF0 then Some(3)
    else if 0xF0 <= lead < 0xF5 then Some(4)
    else None
  }

  /** The scalar value that starts the octets; none for an overlong form or a stray octet. */
  function First(b: seq<Octet>): Option<(int, nat)> {
    if b == [] || SizeOf(b[0]).None? || |b| < SizeOf(b[0]).value then None
    else
      match SizeOf(b[0]).value
      case 1 => Some((b[0], 1))
      case 2 =>
        var w: int, x: int := b[0], b[1];
        if IsTrailing(b[1]) then Some(((w - 0xC0) * 64 + (x - 0x80), 2)) else None
      case 3 =>
        var w: int, x: int, y: int := b[0], b[1], b[2];
        var n := (w - 0xE0) * 4096 + (x - 0x80) * 64 + (y - 0x80);
        if IsTrailing(b[1]) && IsTrailing(b[2]) && n >= 0x800 then Some((n, 3)) else None
      case _ =>
        var w: int, x: int, y: int, z: int := b[0], b[1], b[2], b[3];
        var n := (w - 0xF0) * 262144 + (x - 0x80) * 4096 + (y - 0x80) * 64 + (z - 0x80);
        if IsTrailing(b[1]) && IsTrailing(b[2]) && IsTrailing(b[3]) && n >= 0x1_0000 then Some((n, 4)) else None
  }

  function Decoded(b: seq<Octet>): Option<seq<int>>
    decreases |b|
  {
    if b == [] then Some([])
    else if First(b).None? || First(b).value.1 == 0 then None
    else
      var rest := Decoded(b[First(b).value.1..]);
      if rest.Some? then Some([First(b).value.0] + rest.value) else None
  }

  function Scalars(s: string): seq<int> {
    if s == "" then [] else [s[0] as int] + Scalars(s[1..])
  }

  lemma Digits64(n: nat)
    ensures n == n / 64 * 64 + n % 64
    ensures n / 64 == n / 4096 * 64 + n / 64 % 64
    ensures n / 4096 == n / 262144 * 64 + n / 4096 % 64
  {
    assert n / 64 / 64 == n / 4096;
    assert n / 4096 / 64 == n / 262144;
  }

  /** Decoding the octets of a character gives that character, whatever follows. */
  lemma FirstInvertsEncoded(c: char, rest: seq<Octet>)
    ensures First(Encoded(c) + rest) == Some((c as int, |Encoded(c)|))
  {
    var n, x := c as int, Encoded(c);
    Digits64(n);
    assert (x + rest)[0] == x[0];
    assert |x| > 1 ==> (x + rest)[1] == x[1];
    assert |x| > 2 ==> (x + rest)[2] == x[2];
    assert |x| > 3 ==> (x + rest)[3] == x[3];
  }

  /** Decoding the octets of a text gives its characters. */
  lemma {:induction false} DecodedInvertsBytes(s: string)
    ensures Decoded(Bytes(s)) == Some(Scalars(s))
  {
    if s != "" {
      var x, rest := Encoded(s[0]), Bytes(s[1..]);
      DecodedInvertsBytes(s[1..]);
      FirstInvertsEncoded(s[0], rest);
      assert (x + rest)[|x|..] == rest;
    }
  }
}
