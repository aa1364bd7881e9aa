/**
 * Printed sequence numbers: how a counter value is printed behind a prefix, how the trailing digits
 * are read back, and when two printed numbers can be the same string.
 */
module InvoiceNumbers {
  import opened Prelude

  // ---------------------------------------------------------------------------------------------
  // Digits
  // ---------------------------------------------------------------------------------------------

  predicate IsDigit(c: char) {
    '0' <= c <= '9'
  }

  predicate AllDigits(s: string) {
    forall i :: 0 <= i < |s| ==> IsDigit(s[i])
  }

  function DigitValue(c: char): nat
    requires IsDigit(c)
  {
    c as int - '0' as int
  }

  function DigitChar(d: nat): char
    requires d < 10
  {
    ('0' as int + d) as char
  }

  function ValueOf(s: string): nat
    requires AllDigits(s)
  {
    if s == "" then 0 else 10 * ValueOf(s[..|s| - 1]) + DigitValue(s[|s| - 1])
  }

  /** String(n). */
  function Digits(n: nat): (s: string)
    ensures AllDigits(s) && s != ""
  {
    if n < 10 then [DigitChar(n)] else Digits(n / 10) + [DigitChar(n % 10)]
  }

  /** s.padStart(6, '0'). */
  function Pad(s: string): (r: string)
    ensures AllDigits(s) ==> AllDigits(r)
    ensures |r| == if |s| < 6 then 6 else |s|
    decreases 6 - |s|
  {
    if |s| >= 6 then s else Pad("0" + s)
  }

  /** The number InvoiceNumberService.allocate prints. */
  function Printed(prefix: string, v: nat): string {
    prefix + Pad(Digits(v))
  }

  /** The longest run of digits at the end, /(\d+)$/. */
  function TrailingDigits(s: string): (r: string)
    ensures AllDigits(r)
  {
    if s == "" || !IsDigit(s[|s| - 1]) then "" else TrailingDigits(s[..|s| - 1]) + [s[|s| - 1]]
  }

  /** It is a suffix, and it cannot be extended. */
  lemma {:induction false} TrailingIsLongest(s: string)
    ensures
      var r := TrailingDigits(s);
      && |r| <= |s| && s[|s| - |r|..] == r
      && (|r| < |s| ==> !IsDigit(s[|s| - |r| - 1]))
  {
    if s != "" && IsDigit(s[|s| - 1]) {
      var front := s[..|s| - 1];
      var run := TrailingDigits(front);
      TrailingIsLongest(front);
      assert TrailingDigits(s) == run + [s[|s| - 1]];
      hide *;
      SuffixGrows(s, |front| - |run|);
      var r := TrailingDigits(s);
      assert |s| - |r| == |front| - |run| && s[|s| - |r|..] == front[|front| - |run|..] + [s[|s| - 1]];
      assert |r| < |s| ==> s[|s| - |r| - 1] == front[|front| - |run| - 1];
    }
  }

  lemma SuffixGrows(s: string, k: nat)
    requires k < |s|
    ensures s[k..] == s[..|s| - 1][k..] + [s[|s| - 1]]
  {
  }

  function ParseTrailingNumber(s: string): Option<nat> {
    var run := TrailingDigits(s);
    if run == "" then None else Some(ValueOf(run))
  }

  function Pow10(n: nat): nat {
    if n == 0 then 1 else 10 * Pow10(n - 1)
  }

  lemma {:induction false} Pow10Positive(n: nat)
    ensures Pow10(n) >= 1
  {
    if n > 0 {
      Pow10Positive(n - 1);
    }
  }

  lemma TimesTen(a: nat, b: nat)
    ensures 10 * (a * b) == a * (10 * b)
  {
  }

  lemma {:induction false} ValueOfConcat(a: string, b: string)
    requires AllDigits(a) && AllDigits(b)
    ensures ValueOf(a + b) == ValueOf(a) * Pow10(|b|) + ValueOf(b)
  {
    if b == "" {
      assert a + b == a;
    } else {
      var front := b[..|b| - 1];
      ValueOfConcat(a, front);
      assert (a + b)[..|a + b| - 1] == a + front;
      assert ValueOf(a + b) == 10 * ValueOf(a + front) + DigitValue(b[|b| - 1]);
      TimesTen(ValueOf(a), Pow10(|front|));
      hide AllDigits;
    }
  }

  lemma {:induction false} ValueOfDigits(n: nat)
    ensures ValueOf(Digits(n)) == n
  {
    if n >= 10 {
      ValueOfDigits(n / 10);
      assert Digits(n)[..|Digits(n)| - 1] == Digits(n / 10);
    }
  }

  lemma {:induction false} ValueOfPad(s: string)
    requires AllDigits(s)
    ensures ValueOf(Pad(s)) == ValueOf(s)
    decreases 6 - |s|
  {
    if |s| < 6 {
      ValueOfConcat("0", s);
      assert ValueOf("0") == 0 by {
        assert "0"[..0] == "";
      }
      ValueOfPad("0" + s);
    }
  }

  lemma {:induction false} TrailingDigitsConcat(a: string, b: string)
    requires AllDigits(b)
    ensures TrailingDigits(a + b) == TrailingDigits(a) + b
  {
    if b == "" {
      assert a + b == a;
    } else {
      var front := b[..|b| - 1];
      TrailingDigitsConcat(a, front);
      assert (a + b)[..|a + b| - 1] == a + front;
      assert TrailingDigits(a + b) == TrailingDigits(a + front) + [b[|b| - 1]];
      assert b == front + [b[|b| - 1]];
      hide TrailingDigits;
      assert TrailingDigits(a) + b == (TrailingDigits(a) + front) + [b[|b| - 1]];
    }
  }

  // ---------------------------------------------------------------------------------------------
  // Printing and parsing back
  // ---------------------------------------------------------------------------------------------

  predicate EndsInDigit(prefix: string) {
    prefix != "" && IsDigit(prefix[|prefix| - 1])
  }

  /** What the backfill reads back from a printed number: at least the counter value, and the value
      itself exactly when the digits the prefix ends in (if any) are zeros. */
  lemma ParsePrinted(prefix: string, v: nat)
    ensures
      var n := ParseTrailingNumber(Printed(prefix, v));
      && n.Some? && n.value >= v
      && (n.value == v <==> ValueOf(TrailingDigits(prefix)) == 0)
      && (!EndsInDigit(prefix) ==> n.value == v)
  {
    var tail := Pad(Digits(v));
    TrailingDigitsConcat(prefix, tail);
    ValueOfConcat(TrailingDigits(prefix), tail);
    ValueOfPad(Digits(v));
    ValueOfDigits(v);
    Pow10Positive(|tail|);
    var head := ValueOf(TrailingDigits(prefix));
    assert !EndsInDigit(prefix) ==> TrailingDigits(prefix) == "";
    hide TrailingDigits, Pad, Digits, ValueOf, Pow10, EndsInDigit;
    MulAtLeast(head, Pow10(|tail|));
  }

  lemma MulAtLeast(a: nat, b: nat)
    requires b >= 1
    ensures a * b >= a && (a * b == 0 <==> a == 0)
  {
  }

  lemma PadInjective(v: nat, w: nat)
    requires Pad(Digits(v)) == Pad(Digits(w))
    ensures v == w
  {
    ValueOfPad(Digits(v));
    ValueOfPad(Digits(w));
    ValueOfDigits(v);
    ValueOfDigits(w);
  }

  /** Under one prefix, different counter values print differently. */
  lemma SamePrefixDistinct(prefix: string, v: nat, w: nat)
    ensures Printed(prefix, v) == Printed(prefix, w) <==> v == w
  {
    if Printed(prefix, v) == Printed(prefix, w) {
      var x, y := Pad(Digits(v)), Pad(Digits(w));
      assert |x| == |y|;
      assert x == Printed(prefix, v)[|prefix|..] == Printed(prefix, w)[|prefix|..] == y;
      PadInjective(v, w);
    }
  }

  /** Two ways of cutting one string in two. */
  lemma SplitAt(p: string, x: string, q: string, y: string)
    ensures |q| <= |p| ==> (p + x == q + y <==> q <= p && y == p[|q|..] + x)
  {
    if |q| <= |p| {
      if p + x == q + y {
        assert q == (q + y)[..|q|] == (p + x)[..|q|] == p[..|q|];
        assert y == (q + y)[|q|..] == (p + x)[|q|..] == p[|q|..] + x;
      }
      if q <= p && y == p[|q|..] + x {
        assert p == q + p[|q|..];
        assert p + x == q + (p[|q|..] + x);
      }
    }
  }

  lemma {:induction false} DigitsLength(n: nat, k: nat)
    requires k >= 1
    ensures |Digits(n)| <= k <==> n < Pow10(k)
  {
    if k == 1 {
      assert Pow10(1) == 10 * Pow10(0) == 10;
    } else if n >= 10 {
      DigitsLength(n / 10, k - 1);
    } else {
      Pow10Positive(k - 1);
    }
  }

  /** `p` is `q` followed by a number: digits, the first of them not a zero. */
  predicate FollowedByNumber(p: string, q: string) {
    q < p && AllDigits(p[|q|..]) && p[|q|] != '0'
  }

  /** The value that prints, behind `q`, what `v` prints behind the longer `p`. */
  function Meeting(p: string, q: string, v: nat): nat
    requires FollowedByNumber(p, q)
  {
    AllDigitsConcat(p[|q|..], Pad(Digits(v)));
    ValueOf(p[|q|..] + Pad(Digits(v)))
  }

  lemma {:induction false} NoLeadingZero(n: nat)
    requires n > 0
    ensures Digits(n)[0] != '0'
  {
    if n >= 10 {
      NoLeadingZero(n / 10);
    }
  }

  lemma {:induction false} DigitsOfValue(s: string)
    requires AllDigits(s) && s != "" && s[0] != '0'
    ensures ValueOf(s) > 0 && Digits(ValueOf(s)) == s
  {
    var front := s[..|s| - 1];
    assert s == front + [s[|s| - 1]];
    if front != "" {
      DigitsOfValue(front);
    }
  }

  /** Behind a prefix that is `q` followed by a number, every value prints what a larger one prints
      behind `q`. */
  lemma MeetingPrints(p: string, q: string, v: nat)
    requires FollowedByNumber(p, q)
    ensures Meeting(p, q, v) > v && Printed(p, v) == Printed(q, Meeting(p, q, v))
  {
    var tail, printed := p[|q|..], Pad(Digits(v));
    AllDigitsConcat(tail, printed);
    DigitsOfValue(tail + printed);
    DigitsOfValue(tail);
    ValueOfConcat(tail, printed);
    ValueOfPad(Digits(v));
    ValueOfDigits(v);
    Pow10Positive(|printed|);
    assert Pad(tail + printed) == tail + printed;
    assert p == q + tail && p + printed == q + (tail + printed);
    hide ValueOf, Digits, Pad, AllDigits, Pow10;
    MulAtLeast(ValueOf(tail), Pow10(|printed|));
  }

  /** Exactly which values collide: those two. */
  lemma CollidesExactly(p: string, v: nat, q: string, w: nat)
    requires v < w
    ensures Printed(p, v) == Printed(q, w) <==> FollowedByNumber(p, q) && w == Meeting(p, q, v)
  {
    if FollowedByNumber(p, q) {
      MeetingPrints(p, q, v);
      SamePrefixDistinct(q, w, Meeting(p, q, v));
    } else if Printed(p, v) == Printed(q, w) {
      CutsAtNumber(p, v, q, w);
    }
    hide Printed, FollowedByNumber, Meeting;
  }

  lemma PrefixesDiffer(p: string, v: nat, q: string, w: nat)
    requires v < w && Printed(p, v) == Printed(q, w)
    ensures |p| != |q|
  {
    if |p| == |q| {
      assert p == Printed(p, v)[..|p|] && q == Printed(q, w)[..|p|];
      SamePrefixDistinct(p, v, w);
    }
  }

  lemma CutsAtNumber(p: string, v: nat, q: string, w: nat)
    requires v < w && Printed(p, v) == Printed(q, w)
    ensures FollowedByNumber(p, q)
  {
    var x, y := Pad(Digits(v)), Pad(Digits(w));
    assert p + x == q + y && |x| >= 6 && AllDigits(x) && AllDigits(y);
    PadsBack(v);
    PadsBack(w);
    LongIsUnpadded(w);
    PrefixesDiffer(p, v, q, w);
    hide ValueOf, Digits, Pad, Printed, Pow10;
    SplitAt(p, x, q, y);
    SplitAt(q, y, p, x);
    if |q| <= |p| {
      AllDigitsOfConcat(p[|q|..], x);
      assert y[0] == p[|q|] && |y| > 6;
    } else {
      AllDigitsOfConcat(q[|p|..], y);
      ValueOfConcat(q[|p|..], y);
      Pow10Positive(|y|);
      MulAtLeast(ValueOf(q[|p|..]), Pow10(|y|));
      assert false;
    }
  }

  lemma PadsBack(v: nat)
    ensures ValueOf(Pad(Digits(v))) == v
  {
    ValueOfPad(Digits(v));
    ValueOfDigits(v);
  }

  /** A number that needs no padding does not begin with a zero. */
  lemma LongIsUnpadded(w: nat)
    requires w > 0
    ensures |Pad(Digits(w))| > 6 ==> Pad(Digits(w))[0] != '0'
  {
    NoLeadingZero(w);
  }

  /** Exactly which prefixes can print a number alike: one followed by a number, and without it. */
  lemma CollisionIff(p: string, q: string)
    ensures (exists v: nat, w: nat :: v < w && Printed(p, v) == Printed(q, w)) <==> FollowedByNumber(p, q)
  {
    if FollowedByNumber(p, q) {
      MeetingPrints(p, q, 1);
      assert 1 < Meeting(p, q, 1) && Printed(p, 1) == Printed(q, Meeting(p, q, 1));
    }
    hide Printed, FollowedByNumber, Meeting;
    if v: nat, w: nat :| v < w && Printed(p, v) == Printed(q, w) {
      CollidesExactly(p, v, q, w);
    }
  }

  /** For one digit: every six-digit value is reached again a million or more later. */
  lemma PrefixesMeet(prefix: string, d: nat, v: nat)
    requires 1 <= d <= 9 && v < 1000000
    ensures Printed(prefix + [DigitChar(d)], v) == Printed(prefix, 1000000 * d + v)
  {
    var p := prefix + [DigitChar(d)];
    var short := Pad(Digits(v));
    OneDigit(d);
    assert p[|prefix|..] == [DigitChar(d)];
    assert FollowedByNumber(p, prefix);
    MeetingPrints(p, prefix, v);
    ValueOfConcat([DigitChar(d)], short);
    PadsBack(v);
    SixDigits();
    DigitsLength(v, 6);
    assert |short| == 6;
    hide ValueOf, Digits, Pad, Printed, Pow10;
  }

  lemma AllDigitsConcat(a: string, b: string)
    requires AllDigits(a) && AllDigits(b)
    ensures AllDigits(a + b)
  {
  }

  lemma AllDigitsOfConcat(a: string, b: string)
    requires AllDigits(a + b)
    ensures AllDigits(a)
  {
    forall i | 0 <= i < |a|
      ensures IsDigit(a[i])
    {
      assert (a + b)[i] == a[i];
    }
  }

  lemma OneDigit(d: nat)
    requires d < 10
    ensures AllDigits([DigitChar(d)]) && ValueOf([DigitChar(d)]) == d
  {
    assert [DigitChar(d)][..0] == "";
  }

  lemma SixDigits()
    ensures Pow10(6) == 1000000
  {
    assert Pow10(1) == 10 && Pow10(2) == 100 && Pow10(3) == 1000 && Pow10(4) == 10000 && Pow10(5) == 100000;
  }

  // ---------------------------------------------------------------------------------------------
  // Validating a counter before it is seeded
  // ---------------------------------------------------------------------------------------------

  /** The app_settings row of a counter, its value read with parseInt. */
  datatype SourceRow = NoRow | NotANumber | Counter(value: int)

  datatype CounterStatus = Pass | BelowMax | AboveMax | Malformed | SourceMalformed | NoSourceRow

  predicate WellFormed(number: string) {
    ParseTrailingNumber(number).Some?
  }

  ghost predicate IsMax(numbers: seq<string>, m: nat) {
    && (forall i :: 0 <= i < |numbers| && WellFormed(numbers[i]) ==> ParseTrailingNumber(numbers[i]).value <= m)
    && (m == 0 || exists i :: 0 <= i < |numbers| && ParseTrailingNumber(numbers[i]) == Some(m))
  }

  ghost predicate AllWellFormed(numbers: seq<string>) {
    forall i :: 0 <= i < |numbers| ==> WellFormed(numbers[i])
  }

  /** validateCounterAgainstMax; `numbers` is every number already issued, of any tenant. */
  method ValidateCounterAgainstMax(source: SourceRow, numbers: seq<string>)
    returns (status: CounterStatus, actualMax: nat, malformedCount: nat)
    ensures status == NoSourceRow <==> source.NoRow?
    ensures status == SourceMalformed <==> source.NotANumber?
    ensures status == Malformed <==> source.Counter? && !AllWellFormed(numbers)
    ensures status in {Pass, BelowMax, AboveMax} ==> IsMax(numbers, actualMax)
    ensures status == Pass ==> source.value == actualMax
    ensures status == BelowMax ==> source.value < actualMax
    ensures status == AboveMax ==> source.value > actualMax
  {
    if source.NoRow? {
      return NoSourceRow, 0, 0;
    }
    if source.NotANumber? {
      return SourceMalformed, 0, 0;
    }
    actualMax, malformedCount := 0, 0;
    assert AllWellFormed(numbers[..0]) && IsMax(numbers[..0], 0);
    assert forall n :: WellFormed(n) <==> ParseTrailingNumber(n).Some?;
    hide *;
    for i := 0 to |numbers|
      invariant IsMax(numbers[..i], actualMax)
      invariant malformedCount == 0 <==> AllWellFormed(numbers[..i])
    {
      assert numbers[..i + 1] == numbers[..i] + [numbers[i]];
      WellFormedAppend(numbers[..i], numbers[i]);
      var n := ParseTrailingNumber(numbers[i]);
      if n.None? {
        malformedCount := malformedCount + 1;
        MaxKept(numbers[..i], numbers[i], actualMax);
      } else {
        MaxGrows(numbers[..i], numbers[i], actualMax);
        if n.value > actualMax {
          actualMax := n.value;
        }
      }
    }
    assert numbers[..|numbers|] == numbers;
    status := if malformedCount > 0 then Malformed
              else if source.value < actualMax then BelowMax
              else if source.value > actualMax then AboveMax
              else Pass;
  }

  lemma WellFormedAppend(numbers: seq<string>, number: string)
    ensures AllWellFormed(numbers + [number]) <==> AllWellFormed(numbers) && WellFormed(number)
  {
    if AllWellFormed(numbers + [number]) {
      assert (numbers + [number])[|numbers|] == number;
      forall i | 0 <= i < |numbers|
        ensures WellFormed(numbers[i])
      {
        assert (numbers + [number])[i] == numbers[i];
      }
    }
  }

  lemma MaxKept(numbers: seq<string>, number: string, m: nat)
    requires IsMax(numbers, m) && (WellFormed(number) ==> ParseTrailingNumber(number).value <= m)
    ensures IsMax(numbers + [number], m)
  {
    if m > 0 {
      var i :| 0 <= i < |numbers| && ParseTrailingNumber(numbers[i]) == Some(m);
      assert (numbers + [number])[i] == numbers[i];
    }
  }

  lemma MaxGrows(numbers: seq<string>, number: string, m: nat)
    requires IsMax(numbers, m) && WellFormed(number)
    ensures
      var n := ParseTrailingNumber(number).value;
      IsMax(numbers + [number], if n > m then n else m)
  {
    var n := ParseTrailingNumber(number).value;
    if n > m {
      assert (numbers + [number])[|numbers|] == number;
    } else {
      MaxKept(numbers, number, m);
    }
  }

  /** After a PASS, whatever prefix is configured later, no number printed for a later counter value
      is one of those already issued. */
  lemma SeededNumbersAreNew(numbers: seq<string>, seed: nat, prefix: string, v: nat, i: nat)
    requires IsMax(numbers, seed) && i < |numbers| && v > seed
    ensures Printed(prefix, v) != numbers[i]
  {
    ParsePrinted(prefix, v);
  }
}
