/** Durations in workflow files: "90s", "5m", "250ms" (crates/dsl-core/src/workflow.rs). */
module Duration {
  import opened Prelude
  import opened Text

  /** Overflow stands for the unchecked multiplication by the unit leaving the range of `u64`. */
  datatype Parsed = Millis(ms: nat) | Malformed | Overflow

  datatype Unit = Hours | Minutes | Seconds | Milliseconds

  function Suffix(u: Unit): string {
    match u
    case Hours => "h"
    case Minutes => "m"
    case Seconds => "s"
    case Milliseconds => "ms"
  }

  function MillisOf(u: Unit): nat {
    match u
    case Hours => 3_600_000
    case Minutes => 60_000
    case Seconds => 1_000
    case Milliseconds => 1
  }

  // ---- Decimal numbers ----

  predicate IsDigit(c: char) {
    '0' <= c <= '9'
  }

  function Digits(n: nat): string {
    if n < 10 then ['0' + n as char] else Digits(n / 10) + ['0' + (n % 10) as char]
  }

  predicate AllDigits(s: string) {
    forall i :: 0 <= i < |s| ==> IsDigit(s[i])
  }

  function ValueOf(s: string): nat
    requires AllDigits(s)
  {
    if s == [] then 0
    else
      assert IsDigit(s[|s| - 1]);
      ValueOf(s[..|s| - 1]) * 10 + (s[|s| - 1] - '0') as nat
  }

  /** Rust's `u64::from_str`: an optional plus sign and at least one digit, within range. */
  function ParseU64(s: string): Option<nat> {
    var d := if s != [] && s[0] == '+' then s[1..] else s;
    if d == [] || !AllDigits(d) then None
    else if ValueOf(d) > U64_MAX then None
    else Some(ValueOf(d))
  }

  lemma {:induction false} DigitsRoundTrip(n: nat)
    ensures var s := Digits(n); s != [] && AllDigits(s) && ValueOf(s) == n
  {
    if n >= 10 {
      DigitsRoundTrip(n / 10);
      var s := Digits(n);
      assert s[..|s| - 1] == Digits(n / 10);
    } else {
      assert Digits(n)[..0] == [];
    }
  }

  // ---- Parser and printer ----

  predicate EndsWith(s: string, suffix: string) {
    |suffix| <= |s| && s[|s| - |suffix|..] == suffix
  }

  function Amount(num: string, u: Unit): Parsed {
    match ParseU64(Trim(num))
    case None => Malformed
    case Some(n) => if n * MillisOf(u) > U64_MAX then Overflow else Millis(n * MillisOf(u))
  }

  function Strip(s: string, u: Unit): string
    requires EndsWith(s, Suffix(u))
  {
    s[..|s| - |Suffix(u)|]
  }

  function Parse(text: string): Parsed {
    ParseTrimmed(Trim(text))
  }

  function ParseTrimmed(s: string): Parsed {
    if EndsWith(s, "ms") then Amount(Strip(s, Milliseconds), Milliseconds)
    else if EndsWith(s, "h") then Amount(Strip(s, Hours), Hours)
    else if EndsWith(s, "m") then Amount(Strip(s, Minutes), Minutes)
    else if EndsWith(s, "s") then Amount(Strip(s, Seconds), Seconds)
    else Malformed
  }

  function Print(d: nat): string {
    if d % 3_600_000 == 0 then Digits(d / 3_600_000) + "h"
    else if d % 60_000 == 0 then Digits(d / 60_000) + "m"
    else if d % 1_000 == 0 then Digits(d / 1_000) + "s"
    else Digits(d) + "ms"
  }

  // ---- Results ----

  lemma {:induction false} TrimKeepsLast(s: string)
    requires s != [] && !IsWhitespace(s[|s| - 1])
    ensures Trim(s) != [] && Trim(s)[|Trim(s)| - 1] == s[|s| - 1]
  {
    if IsWhitespace(s[0]) {
      TrimKeepsLast(s[1..]);
      assert TrimStart(s) == TrimStart(s[1..]);
    }
  }

  /** A number is never read from text that still ends with a unit's letter. */
  lemma {:induction false} LetterIsNoNumber(num: string)
    requires num != [] && num[|num| - 1] == 'm'
    ensures ParseU64(Trim(num)).None?
  {
    TrimKeepsLast(num);
    var t := Trim(num);
    var d := if t[0] == '+' then t[1..] else t;
    var last := |d| - 1;
    assert d[last] == 'm' && !IsDigit(d[last]);
    assert !AllDigits(d);
  }

  lemma {:induction false} LastLetters(s: string, u: Unit)
    ensures EndsWith(s, Suffix(u)) <==>
              match u
              case Hours => s != [] && s[|s| - 1] == 'h'
              case Minutes => s != [] && s[|s| - 1] == 'm'
              case Seconds => s != [] && s[|s| - 1] == 's'
              case Milliseconds => |s| >= 2 && s[|s| - 2] == 'm' && s[|s| - 1] == 's'
  {
    if |s| >= |Suffix(u)| {
      var end := s[|s| - |Suffix(u)|..];
      assert end[|end| - 1] == s[|s| - 1];
      assert |end| == 2 ==> end[0] == s[|s| - 2];
    }
  }

  lemma {:induction false} AnyUnitFits(s: string, u: Unit)
    requires EndsWith(s, Suffix(u)) && ParseU64(Trim(Strip(s, u))).Some?
    ensures ParseTrimmed(s) == Amount(Strip(s, u), u)
  {
    if u == Seconds && |s| >= 2 && s[|s| - 2] == 'm' {
      LetterIsNoNumber(Strip(s, u));
    }
    LastLetters(s, Hours);
    LastLetters(s, Minutes);
    LastLetters(s, Seconds);
    LastLetters(s, Milliseconds);
  }

  /**
   The order in which the suffixes are tried does not matter: a text means d milliseconds iff some unit's suffix
   ends it and the number before the suffix, times the unit, is d within range.
   */
  lemma {:induction false} ParseIff(text: string, d: nat)
    ensures Parse(text) == Millis(d)
       <==> exists u: Unit :: EndsWith(Trim(text), Suffix(u)) && Amount(Strip(Trim(text), u), u) == Millis(d)
  {
    var s := Trim(text);
    if u: Unit :| EndsWith(s, Suffix(u)) && Amount(Strip(s, u), u) == Millis(d) {
      AnyUnitFits(s, u);
    }
    if Parse(text) == Millis(d) {
      var u := if EndsWith(s, "ms") then Milliseconds else if EndsWith(s, "h") then Hours
               else if EndsWith(s, "m") then Minutes else Seconds;
      assert EndsWith(s, Suffix(u)) && Amount(Strip(s, u), u) == Millis(d);
    }
  }

  function LargestUnit(d: nat): Unit {
    if d % 3_600_000 == 0 then Hours
    else if d % 60_000 == 0 then Minutes
    else if d % 1_000 == 0 then Seconds
    else Milliseconds
  }

  lemma {:induction false} PrintIs(d: nat)
    ensures var u := LargestUnit(d);
            Print(d) == Digits(d / MillisOf(u)) + Suffix(u) && d / MillisOf(u) * MillisOf(u) == d && d / MillisOf(u) <= d
  {
  }

  /** Printing chooses the largest unit that divides the duration. */
  lemma {:induction false} PrintsLargestUnit(d: nat)
    ensures exists u: Unit, n: nat :: Print(d) == Digits(n) + Suffix(u) && n * MillisOf(u) == d
                                   && forall v: Unit :: d % MillisOf(v) == 0 ==> MillisOf(v) <= MillisOf(u)
  {
    PrintIs(d);
    var u := LargestUnit(d);
    var n := d / MillisOf(u);
    forall v: Unit | d % MillisOf(v) == 0 ensures MillisOf(v) <= MillisOf(u) {
    }
    assert Print(d) == Digits(n) + Suffix(u) && n * MillisOf(u) == d;
  }

  lemma {:induction false} PrintedForm(n: nat, u: Unit)
    ensures var s := Digits(n) + Suffix(u);
            Trim(s) == s && EndsWith(s, Suffix(u)) && Strip(s, u) == Digits(n)
    ensures Trim(Digits(n)) == Digits(n) && ParseU64(Digits(n)) == if n <= U64_MAX then Some(n) else None
  {
    DigitsRoundTrip(n);
    var num, s := Digits(n), Digits(n) + Suffix(u);
    assert IsDigit(num[0]) && IsDigit(num[|num| - 1]);
    TrimIsIdentity(num);
    assert s[0] == num[0] && s[|s| - 1] == Suffix(u)[|Suffix(u)| - 1];
    TrimIsIdentity(s);
    assert s[|s| - |Suffix(u)|..] == Suffix(u) && Strip(s, u) == num;
  }

  lemma {:induction false} ReadsBack(s: string, n: nat, u: Unit)
    requires n <= U64_MAX && n * MillisOf(u) <= U64_MAX && Trim(s) == s && EndsWith(s, Suffix(u)) && Strip(s, u) == Digits(n)
    requires Trim(Digits(n)) == Digits(n) && ParseU64(Digits(n)) == Some(n)
    ensures Parse(s) == Millis(n * MillisOf(u))
  {
    AnyUnitFits(s, u);
  }

  /** Printing then parsing gives back every `u64` number of milliseconds. */
  lemma {:induction false} RoundTrip(d: nat)
    requires d <= U64_MAX
    ensures Parse(Print(d)) == Millis(d)
  {
    PrintIs(d);
    var u := LargestUnit(d);
    var n := d / MillisOf(u);
    PrintedForm(n, u);
    ReadsBack(Print(d), n, u);
  }

  /** What a number with each suffix means; a product above the range of `u64` overflows. */
  lemma {:induction false} UnitsMean(n: nat)
    requires n <= 0xFFFF_FFFF_FFFF_FFFF
    ensures Parse(Digits(n) + "ms") == Millis(n)
    ensures Parse(Digits(n) + "s") == if n * 1_000 <= 0xFFFF_FFFF_FFFF_FFFF then Millis(n * 1_000) else Overflow
    ensures Parse(Digits(n) + "m") == if n * 60_000 <= 0xFFFF_FFFF_FFFF_FFFF then Millis(n * 60_000) else Overflow
    ensures Parse(Digits(n) + "h") == if n * 3_600_000 <= 0xFFFF_FFFF_FFFF_FFFF then Millis(n * 3_600_000) else Overflow
  {
    UnitMeans(n, Milliseconds, "ms", 1);
    UnitMeans(n, Seconds, "s", 1_000);
    UnitMeans(n, Minutes, "m", 60_000);
    UnitMeans(n, Hours, "h", 3_600_000);
  }

  lemma {:induction false} UnitMeans(n: nat, u: Unit, suffix: string, millis: nat)
    requires n <= U64_MAX && suffix == Suffix(u) && millis == MillisOf(u)
    ensures Parse(Digits(n) + suffix) == if n * millis <= U64_MAX then Millis(n * millis) else Overflow
  {
    PrintedForm(n, u);
    AnyUnitFits(Digits(n) + Suffix(u), u);
  }
}
