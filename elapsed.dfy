/**
 * `time_to_str`: the elapsed running time of a command, in whole seconds,
 * as the completion banner words it, and a reader for that wording that
 * recovers the seconds.
 */
module Elapsed {
  import opened Wrappers
  import opened Decimal

  const U64_LIMIT: int := 0x1_0000_0000_0000_0000

  /** Rust's `u64`, the type of `Duration::as_secs`. */
  type u64 = x: int | 0 <= x < U64_LIMIT

  const Immediately: string := "immediately"

  /** `time_to_str(s)`. */
  function TimeToStr(s: u64): (r: string)
    ensures |r| >= 5
  {
    if s == 0 then Immediately else "in " + Amount(s)
  }

  /** What follows "in " for a positive number of seconds. */
  function Amount(s: u64): (r: string)
    requires s > 0
    ensures |r| >= 2
  {
    if s <= 59 then Digits(s) + "s"
    else
      var m := s / 60;
      var rest := s % 60;
      if rest == 0 then Digits(m) + "m"
      else Digits(m) + "m " + Digits(rest) + "s"
  }

  /**
   * Reads "immediately", "in Ns", "in Mm" and "in Mm Ns" back into seconds;
   * every other string has no reading.
   */
  function ParseElapsed(t: string): (r: Option<nat>)
    ensures t == Immediately ==> r == Some(0)
  {
    if t == Immediately then Some(0)
    else if |t| < 5 || t[..3] != "in " then None
    else ParseAmount(t[3..])
  }

  /** The part after "in ": a minute numeral, a second numeral, or both. */
  function ParseAmount(b: string): (r: Option<nat>)
    requires |b| >= 2
    ensures r.Some? ==> b[|b| - 1] in {'m', 's'}
  {
    var inner := b[..|b| - 1];
    if b[|b| - 1] == 'm' then
      match ParseNumeral(inner)
      case Some(m) => Some(60 * m)
      case None => None
    else if b[|b| - 1] == 's' then
      ParseSecondsField(inner)
    else None
  }

  /** "N" or "Mm N" before a final 's'. */
  function ParseSecondsField(inner: string): (r: Option<nat>) {
    var k := SpaceIndex(inner);
    if k == |inner| then ParseNumeral(inner) else ParseMinutesSeconds(inner[..k], inner[k + 1..])
  }

  /** "Mm" before the space and "N" after it, in "in Mm Ns". */
  function ParseMinutesSeconds(head: string, tail: string): (r: Option<nat>) {
    if |head| >= 2 && head[|head| - 1] == 'm' then
      match (ParseNumeral(head[..|head| - 1]), ParseNumeral(tail))
      case (Some(m), Some(r)) => Some(60 * m + r)
      case _ => None
    else None
  }

  function ParseNumeral(s: string): (r: Option<nat>)
    ensures r.Some? <==> IsNumeral(s)
  {
    if IsNumeral(s) then Some(Value(s)) else None
  }

  /** The index of the first space in `s`, or `|s|` when there is none. */
  function SpaceIndex(s: string): (k: nat)
    ensures k <= |s|
    ensures k < |s| ==> s[k] == ' '
    ensures forall i :: 0 <= i < k ==> s[i] != ' '
  {
    if s == [] then 0 else if s[0] == ' ' then 0 else 1 + SpaceIndex(s[1..])
  }

  lemma {:induction false} SpaceIndexOfNumeral(s: string, rest: string)
    requires AllDigits(s)
    ensures SpaceIndex(s + rest) == |s| + SpaceIndex(rest)
    decreases |s|
  {
    if s != [] {
      assert IsDigit(s[0]);
      assert (s + rest)[1..] == s[1..] + rest;
      SpaceIndexOfNumeral(s[1..], rest);
    } else {
      assert s + rest == rest;
    }
  }

  lemma ParseAfterIn(b: string)
    requires |b| >= 2
    ensures ParseElapsed("in " + b) == ParseAmount(b)
  {
    var t := "in " + b;
    assert t[1] == 'n' && Immediately[1] == 'm';
    assert t[..3] == "in " && t[3..] == b;
  }

  lemma ParseSecondsOnly(d: string)
    requires IsNumeral(d)
    ensures ParseAmount(d + "s") == Some(Value(d))
  {
    var b := d + "s";
    assert b[..|b| - 1] == d;
    SpaceIndexOfNumeral(d, []);
    assert d + [] == d;
  }

  lemma ParseMinutesOnly(d: string)
    requires IsNumeral(d)
    ensures ParseAmount(d + "m") == Some(60 * Value(d))
  {
    var b := d + "m";
    assert b[..|b| - 1] == d;
  }

  lemma ParseSecondsSuffix(inner: string)
    requires |inner| >= 1
    ensures ParseAmount(inner + "s") == ParseSecondsField(inner)
  {
    assert (inner + "s")[..|inner|] == inner;
  }

  lemma SpaceAfterMinutes(dm: string, dr: string)
    requires IsNumeral(dm)
    ensures SpaceIndex(dm + "m " + dr) == |dm| + 1
  {
    SpaceIndexOfNumeral(dm, "m " + dr);
    assert dm + "m " + dr == dm + ("m " + dr);
    assert ("m " + dr)[1..] == " " + dr;
  }

  lemma ParseMinuteHead(dm: string, dr: string)
    requires IsNumeral(dm) && IsNumeral(dr)
    ensures ParseMinutesSeconds(dm + "m", dr) == Some(60 * Value(dm) + Value(dr))
  {
    assert (dm + "m")[..|dm|] == dm;
  }

  lemma ParseBothFields(dm: string, dr: string)
    requires IsNumeral(dm) && IsNumeral(dr)
    ensures ParseAmount(dm + "m " + dr + "s") == Some(60 * Value(dm) + Value(dr))
  {
    var inner := dm + "m " + dr;
    ParseSecondsSuffix(inner);
    SpaceAfterMinutes(dm, dr);
    var k := |dm| + 1;
    assert inner[..k] == dm + "m";
    assert inner[k + 1..] == dr;
    ParseMinuteHead(dm, dr);
  }

  /** Reading the wording back gives the seconds it was made from. */
  lemma ElapsedRoundTrip(s: u64)
    ensures ParseElapsed(TimeToStr(s)) == Some(s)
  {
    if s != 0 {
      ParseAfterIn(Amount(s));
      if s <= 59 {
        ValueOfDigits(s);
        ParseSecondsOnly(Digits(s));
      } else {
        var m, rest := s / 60, s % 60;
        ValueOfDigits(m);
        if rest == 0 {
          ParseMinutesOnly(Digits(m));
        } else {
          ValueOfDigits(rest);
          ParseBothFields(Digits(m), Digits(rest));
        }
      }
    }
  }

  /** Distinct durations never share a wording. */
  lemma TimeToStrInjective(a: u64, b: u64)
    requires TimeToStr(a) == TimeToStr(b)
    ensures a == b
  {
    ElapsedRoundTrip(a);
    ElapsedRoundTrip(b);
  }

  /** The banner says "immediately" for zero seconds and for nothing else. */
  lemma ImmediatelyOnlyForZero(s: u64)
    ensures TimeToStr(s) == Immediately <==> s == 0
  {
    if s != 0 {
      assert TimeToStr(s)[1] == 'n' != Immediately[1];
    }
  }

  /** From one to fifty-nine seconds the wording is the seconds alone. */
  lemma SecondsOnly(s: u64)
    requires 1 <= s <= 59
    ensures TimeToStr(s) == "in " + Digits(s) + "s"
  {
    assert "in " + (Digits(s) + "s") == "in " + Digits(s) + "s";
  }

  /**
   * The wording of s seconds as m whole minutes and r further seconds, with
   * the second field left out when r is zero.
   */
  predicate MinuteWording(s: u64, m: nat, r: nat) {
    && 1 <= m && r < 60 && m * 60 + r == s
    && TimeToStr(s) == "in " + Digits(m) + (if r == 0 then "m" else "m " + Digits(r) + "s")
  }

  /**
   * From sixty seconds on, the wording has a minute field of at least one and
   * a second field below sixty, together making s; the second field is
   * left out exactly when it would be zero.
   */
  lemma MinuteFields(s: u64)
    requires s >= 60
    ensures exists m: nat, r: nat :: MinuteWording(s, m, r)
  {
    var m: nat, r: nat := s / 60, s % 60;
    var tail := if r == 0 then "m" else "m " + Digits(r) + "s";
    if r != 0 {
      assert Digits(m) + "m " + Digits(r) + "s" == Digits(m) + tail;
    }
    assert Amount(s) == Digits(m) + tail;
    assert "in " + (Digits(m) + tail) == "in " + Digits(m) + tail;
    assert MinuteWording(s, m, r);
  }

  /** The wordings the completion banner shows for 0, 45, 125 and 180 seconds. */
  lemma TimeToStrExamples()
    ensures TimeToStr(0) == "immediately"
    ensures TimeToStr(45) == "in 45s"
    ensures TimeToStr(125) == "in 2m 5s"
    ensures TimeToStr(180) == "in 3m"
  {
    assert Digits(45) == "45" by { assert Digits(4) == "4"; }
    assert Digits(2) == "2" && Digits(5) == "5" && Digits(3) == "3";
  }
}
