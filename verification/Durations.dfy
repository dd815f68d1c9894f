/** DURATION values of iCalendar (section 3.3.6 of RFC 5545): the reader, and that it reads what is meant. */
module Durations {
  import opened Wrappers
  import opened Civil

  /** The parts of a duration and one sign for the whole. */
  datatype Span = Span(weeks: nat, days: nat, hours: nat, minutes: nat, seconds: nat, neg: bool)

  datatype Clock = Clock(hours: nat, minutes: nat, seconds: nat)

  // ----- the reader -----------------------------------------------------------------

  /** Length of the leading run of digits. */
  function DigitRun(s: string): (n: nat)
    ensures n <= |s|
  {
    if s == "" || !IsDigit(s[0]) then 0 else 1 + DigitRun(s[1..])
  }

  /** A number, the letter of its unit, and what follows. */
  function Unit(s: string, letter: char): Option<(nat, string)> {
    var k := DigitRun(s);
    var n := ReadNat(s[..k]);
    if k < |s| && s[k] == letter && n.Some? then Some((n.value, s[k + 1..])) else None
  }

  function ReadSeconds(s: string): Option<nat> {
    var n := Unit(s, 'S');
    if n.Some? && n.value.1 == "" then Some(n.value.0) else None
  }

  function ReadMinutes(s: string): Option<Clock> {
    var n := Unit(s, 'M');
    if n.None? then None
    else if n.value.1 == "" then Some(Clock(0, n.value.0, 0))
    else
      var rest := ReadSeconds(n.value.1);
      if rest.Some? then Some(Clock(0, n.value.0, rest.value)) else None
  }

  /** Hours, minutes and seconds; a part may be followed only by the next smaller one. */
  function ReadClock(s: string): Option<Clock> {
    var n := Unit(s, 'H');
    if n.Some? then
      if n.value.1 == "" then Some(Clock(n.value.0, 0, 0))
      else
        var rest := ReadMinutes(n.value.1);
        if rest.Some? then Some(rest.value.(hours := n.value.0)) else None
    else if ReadMinutes(s).Some? then ReadMinutes(s)
    else if ReadSeconds(s).Some? then Some(Clock(0, 0, ReadSeconds(s).value))
    else None
  }

  function ReadTimePart(s: string, days: nat, neg: bool): Option<Span> {
    if s == "" || s[0] != 'T' then None
    else
      var clock := ReadClock(s[1..]);
      if clock.None? then None
      else Some(Span(0, days, clock.value.hours, clock.value.minutes, clock.value.seconds, neg))
  }

  /** Weeks alone, or days and a time, or one of them. */
  function ReadParts(s: string, neg: bool): Option<Span> {
    var weeks, days := Unit(s, 'W'), Unit(s, 'D');
    if weeks.Some? then if weeks.value.1 == "" then Some(Span(weeks.value.0, 0, 0, 0, 0, neg)) else None
    else if days.None? then ReadTimePart(s, 0, neg)
    else if days.value.1 == "" then Some(Span(0, days.value.0, 0, 0, 0, neg))
    else ReadTimePart(days.value.1, days.value.0, neg)
  }

  function ReadDuration(s: string): Option<Span> {
    var signed := s != "" && (s[0] == '+' || s[0] == '-');
    var body := if signed then s[1..] else s;
    if body == "" || body[0] != 'P' then None else ReadParts(body[1..], signed && s[0] == '-')
  }

  // ----- what is read is what is meant ----------------------------------------------

  function Written(n: nat, letter: char): string {
    Decimal(n) + [letter]
  }

  lemma {:induction false} DigitRunOf(digits: string, rest: string)
    requires (forall c | c in digits :: IsDigit(c)) && (rest != "" ==> !IsDigit(rest[0]))
    ensures DigitRun(digits + rest) == |digits|
  {
    if digits == "" {
      assert digits + rest == rest;
    } else {
      assert (digits + rest)[0] == digits[0] && (digits + rest)[1..] == digits[1..] + rest;
      DigitRunOf(digits[1..], rest);
    }
  }

  lemma UnitOf(n: nat, letter: char, rest: string, asked: char)
    requires !IsDigit(letter)
    ensures Unit(Written(n, letter) + rest, asked) == if asked == letter then Some((n, rest)) else None
  {
    hide Decimal;
    hide ReadNat;
    var digits := Decimal(n);
    DigitsAreDigits(n, 0);
    ReadInvertsDecimal(n);
    var s := Written(n, letter) + rest;
    assert s == digits + ([letter] + rest);
    DigitRunOf(digits, [letter] + rest);
    assert s[..|digits|] == digits && s[|digits|] == letter && s[|digits| + 1..] == rest;
  }

  lemma UnitAlone(n: nat, letter: char, asked: char)
    requires !IsDigit(letter)
    ensures Unit(Written(n, letter), asked) == if asked == letter then Some((n, "")) else None
  {
    UnitOf(n, letter, "", asked);
    assert Written(n, letter) + "" == Written(n, letter);
  }

  lemma WrittenNotEmpty(n: nat, letter: char)
    ensures Written(n, letter) != ""
  {
  }

  function Part(n: Option<nat>, letter: char): string {
    if n.Some? then Written(n.value, letter) else ""
  }

  function OrZero(n: Option<nat>): nat {
    if n.Some? then n.value else 0
  }

  /** What a duration may be written as: weeks alone, or any of days, hours, minutes and seconds. */
  datatype Form =
    | Weeks(weeks: nat)
    | Parts(days: Option<nat>, hours: Option<nat>, minutes: Option<nat>, seconds: Option<nat>)

  /** Something is written, and no seconds right behind hours. */
  predicate Grammatical(f: Form) {
    f.Parts? ==>
      && (f.days.Some? || HasTime(f))
      && (f.hours.Some? && f.seconds.Some? ==> f.minutes.Some?)
  }

  predicate HasTime(f: Form)
    requires f.Parts?
  {
    f.hours.Some? || f.minutes.Some? || f.seconds.Some?
  }

  function TimeText(hours: Option<nat>, minutes: Option<nat>, seconds: Option<nat>): string {
    Part(hours, 'H') + (Part(minutes, 'M') + Part(seconds, 'S'))
  }

  function BodyText(f: Form): string {
    match f
    case Weeks(n) => Written(n, 'W')
    case Parts(days, hours, minutes, seconds) =>
      Part(days, 'D') + if HasTime(f) then "T" + TimeText(hours, minutes, seconds) else ""
  }

  /** A duration written out: a sign or none, the letter P and its parts. */
  function FormText(sign: string, f: Form): string {
    sign + ("P" + BodyText(f))
  }

  lemma ReadsSeconds(n: nat)
    ensures ReadSeconds(Written(n, 'S')) == Some(n)
    ensures Unit(Written(n, 'S'), 'H').None? && ReadMinutes(Written(n, 'S')).None?
  {
    hide Written;
    hide Unit;
    UnitAlone(n, 'S', 'S');
    UnitAlone(n, 'S', 'M');
    UnitAlone(n, 'S', 'H');
  }

  lemma ReadsMinutes(minutes: nat, seconds: Option<nat>)
    ensures var s := Written(minutes, 'M') + Part(seconds, 'S');
            ReadMinutes(s) == Some(Clock(0, minutes, OrZero(seconds))) && Unit(s, 'H').None?
  {
    hide Written;
    hide Unit;
    UnitOf(minutes, 'M', Part(seconds, 'S'), 'M');
    UnitOf(minutes, 'M', Part(seconds, 'S'), 'H');
    if seconds.Some? {
      ReadsSeconds(seconds.value);
      WrittenNotEmpty(seconds.value, 'S');
    }
  }

  lemma ReadsTime(hours: Option<nat>, minutes: Option<nat>, seconds: Option<nat>)
    requires hours.Some? || minutes.Some? || seconds.Some?
    requires hours.Some? && seconds.Some? ==> minutes.Some?
    ensures ReadClock(TimeText(hours, minutes, seconds)) ==
            Some(Clock(OrZero(hours), OrZero(minutes), OrZero(seconds)))
  {
    hide Written;
    hide Unit;
    hide ReadMinutes;
    hide ReadSeconds;
    var tail := Part(minutes, 'M') + Part(seconds, 'S');
    if minutes.Some? {
      ReadsMinutes(minutes.value, seconds);
      WrittenNotEmpty(minutes.value, 'M');
    } else if seconds.Some? {
      ReadsSeconds(seconds.value);
      assert tail == Written(seconds.value, 'S');
    } else {
      assert tail == "";
    }
    if hours.Some? {
      UnitOf(hours.value, 'H', tail, 'H');
    } else {
      assert TimeText(hours, minutes, seconds) == tail;
    }
  }

  function Meant(f: Form, neg: bool): Span {
    match f
    case Weeks(n) => Span(n, 0, 0, 0, 0, neg)
    case Parts(days, hours, minutes, seconds) =>
      Span(0, OrZero(days), OrZero(hours), OrZero(minutes), OrZero(seconds), neg)
  }

  lemma NoUnit(s: string, letter: char)
    requires s != "" && !IsDigit(s[0])
    ensures Unit(s, letter).None?
  {
    assert s[..0] == "" && DigitRun(s) == 0;
  }

  lemma ReadsParts(f: Form, neg: bool)
    requires Grammatical(f)
    ensures ReadParts(BodyText(f), neg) == Some(Meant(f, neg))
  {
    hide Written;
    hide Unit;
    hide ReadClock;
    hide TimeText;
    match f
    case Weeks(n) =>
      UnitAlone(n, 'W', 'W');
    case Parts(days, hours, minutes, seconds) =>
      var time := if HasTime(f) then "T" + TimeText(hours, minutes, seconds) else "";
      if HasTime(f) {
        ReadsTime(hours, minutes, seconds);
        assert time[1..] == TimeText(hours, minutes, seconds);
      }
      if days.Some? {
        UnitOf(days.value, 'D', time, 'W');
        UnitOf(days.value, 'D', time, 'D');
      } else {
        assert BodyText(f) == time;
        NoUnit(time, 'W');
        NoUnit(time, 'D');
      }
  }

  /** Every duration the grammar allows reads back as what is written in it, with its sign. */
  lemma ReadsForm(sign: string, f: Form)
    requires Grammatical(f) && (sign == "" || sign == "+" || sign == "-")
    ensures ReadDuration(FormText(sign, f)) == Some(Meant(f, sign == "-"))
  {
    hide BodyText;
    hide ReadParts;
    hide Grammatical;
    ReadsParts(f, sign == "-");
    var body := "P" + BodyText(f);
    assert body[1..] == BodyText(f);
    assert if sign == "" then FormText(sign, f) == body else FormText(sign, f)[1..] == body;
  }
}
