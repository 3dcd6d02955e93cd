/** SQLite's order on text keys, and how it relates to time for keys written by `formatTime`. */
module TextOrder {

  // ----- the byte order on text -----

  /** Strictly before, character by character; a proper prefix comes first. */
  predicate TextBefore(a: string, b: string) {
    if b == "" then false
    else if a == "" then true
    else if a[0] != b[0] then a[0] < b[0]
    else TextBefore(a[1..], b[1..])
  }

  lemma {:induction false} TextBeforeIsStrict(a: string, b: string)
    ensures a == b ==> !TextBefore(a, b)
    ensures a != b ==> (TextBefore(a, b) <==> !TextBefore(b, a))
  {
    if a != "" && b != "" && a[0] == b[0] {
      TextBeforeIsStrict(a[1..], b[1..]);
      assert a == [a[0]] + a[1..] && b == [b[0]] + b[1..];
    }
  }

  lemma {:induction false} TextBeforeIsTransitive(a: string, b: string, c: string)
    ensures TextBefore(a, b) && TextBefore(b, c) ==> TextBefore(a, c)
  {
    if a != "" && b != "" && c != "" && a[0] == b[0] == c[0] {
      TextBeforeIsTransitive(a[1..], b[1..], c[1..]);
    }
  }

  lemma {:induction false} TextBeforeAfterPrefix(p: string, a: string, b: string)
    ensures TextBefore(p + a, p + b) <==> TextBefore(a, b)
  {
    if p == "" {
      assert p + a == a && p + b == b;
    } else {
      assert (p + a)[1..] == p[1..] + a && (p + b)[1..] == p[1..] + b;
      TextBeforeAfterPrefix(p[1..], a, b);
    }
  }

  /** The first difference decides. */
  lemma TextBeforeAtDifference(a: string, b: string, k: nat)
    requires k < |a| && k < |b| && a[..k] == b[..k] && a[k] != b[k]
    ensures TextBefore(a, b) <==> a[k] < b[k]
  {
    TextBeforeAfterPrefix(a[..k], a[k..], b[k..]);
    assert a == a[..k] + a[k..] && b == a[..k] + b[k..];
  }

  lemma {:induction false} FirstDifference(a: string, b: string) returns (k: nat)
    requires !(a <= b) && !(b <= a)
    ensures k < |a| && k < |b| && a[..k] == b[..k] && a[k] != b[k]
  {
    if a[0] != b[0] {
      k := 0;
    } else {
      assert a == [a[0]] + a[1..] && b == [b[0]] + b[1..];
      var j := FirstDifference(a[1..], b[1..]);
      k := j + 1;
      assert a[..k] == [a[0]] + a[1..][..j] && b[..k] == [b[0]] + b[1..][..j];
    }
  }

  // ----- formatted times -----

  predicate AllDigits(s: string) {
    forall i :: 0 <= i < |s| ==> '0' <= s[i] <= '9'
  }

  /** A moment: the fixed-width text of its second ("2006-01-02T15:04:05"), in which text order
      is time order, and the nine digits of its nanoseconds. */
  type Second = s: string | |s| == 19 witness seq(19, _ => '0')
  type Nanos = s: string | |s| == 9 && AllDigits(s) witness seq(9, _ => '0')
  datatype Moment = Moment(second: Second, nanos: Nanos)

  function WithoutZeros(digits: string): string {
    if digits != "" && digits[|digits| - 1] == '0' then WithoutZeros(digits[..|digits| - 1]) else digits
  }

  function Fraction(digits: string): string {
    if WithoutZeros(digits) == "" then "" else "." + WithoutZeros(digits)
  }

  /** `formatTime`: RFC 3339 in UTC, the fraction cut short of its trailing zeros. */
  function FormatTime(t: Moment): (s: string)
    ensures s != ""
  {
    t.second + (Fraction(t.nanos) + "Z")
  }

  function Value(digits: string): int
    requires AllDigits(digits)
  {
    if digits == "" then 0
    else Value(digits[..|digits| - 1]) * 10 + (digits[|digits| - 1] as int - '0' as int)
  }

  predicate Earlier(a: Moment, b: Moment) {
    TextBefore(a.second, b.second) || (a.second == b.second && Value(a.nanos) < Value(b.nanos))
  }

  // ----- digits of one width compare as numbers -----

  lemma {:induction false} TextBeforeSnoc(a: string, b: string, c: char, d: char)
    requires |a| == |b|
    ensures TextBefore(a + [c], b + [d]) <==> TextBefore(a, b) || (a == b && c < d)
  {
    if a == b {
      TextBeforeAfterPrefix(a, [c], [d]);
      TextBeforeIsStrict(a, b);
      if c == d {
        TextBeforeIsStrict([c], [d]);
      }
    } else {
      assert !(a <= b) && !(b <= a);
      var k := FirstDifference(a, b);
      TextBeforeAtDifference(a, b, k);
      assert (a + [c])[..k] == a[..k] && (b + [d])[..k] == b[..k];
      TextBeforeAtDifference(a + [c], b + [d], k);
    }
  }

  lemma {:induction false} DigitsCompareAsNumbers(a: string, b: string)
    requires |a| == |b| && AllDigits(a) && AllDigits(b)
    ensures TextBefore(a, b) <==> Value(a) < Value(b)
    decreases |a|
  {
    if a != "" {
      var n := |a| - 1;
      DigitsCompareAsNumbers(a[..n], b[..n]);
      DigitsCompareAsNumbers(b[..n], a[..n]);
      TextBeforeIsStrict(a[..n], b[..n]);
      TextBeforeSnoc(a[..n], b[..n], a[n], b[n]);
      assert a == a[..n] + [a[n]] && b == b[..n] + [b[n]];
    }
  }

  // ----- fractions -----

  lemma {:induction false} WithoutZerosIsPrefix(digits: string)
    ensures WithoutZeros(digits) <= digits
    ensures forall i :: |WithoutZeros(digits)| <= i < |digits| ==> digits[i] == '0'
    ensures WithoutZeros(digits) != "" ==> WithoutZeros(digits)[|WithoutZeros(digits)| - 1] != '0'
  {
    if digits != "" && digits[|digits| - 1] == '0' {
      WithoutZerosIsPrefix(digits[..|digits| - 1]);
    }
  }

  /** A proper prefix of a fraction is an earlier fraction, yet its key comes later. */
  lemma PrefixKeyIsLater(a: Nanos, b: Nanos)
    requires Fraction(a) < Fraction(b)
    ensures TextBefore(Fraction(b) + "Z", Fraction(a) + "Z")
    ensures TextBefore(a, b)
  {
    var fa, fb := Fraction(a), Fraction(b);
    WithoutZerosIsPrefix(a);
    WithoutZerosIsPrefix(b);
    var rest := fb[|fa|..];
    assert fb + "Z" == fa + (rest + "Z");
    TextBeforeAfterPrefix(fa, rest + "Z", "Z");
    assert rest[0] == '.' || '0' <= rest[0] <= '9';
    ShorterFractionIsEarlier(a, b);
  }

  lemma FractionTail(digits: string)
    requires WithoutZeros(digits) != ""
    ensures Fraction(digits) != "" && Fraction(digits)[1..] == WithoutZeros(digits)
  {
  }

  lemma ShorterFractionHasLess(a: string, b: string)
    requires Fraction(a) < Fraction(b)
    ensures WithoutZeros(a) < WithoutZeros(b)
  {
    FractionTail(b);
    if WithoutZeros(a) != "" {
      FractionTail(a);
    }
  }

  /** Where one of two texts of one width is padded with zeros, and the other has a digit above
      zero behind the part they share, the padded one is earlier. */
  lemma PaddedIsEarlier(a: string, b: string, m: nat, n: nat)
    requires |a| == |b| && m <= n < |a| && a[..m] == b[..m] && AllDigits(b)
    requires (forall i :: m <= i < |a| ==> a[i] == '0') && b[n] != '0'
    ensures TextBefore(a, b)
  {
    assert a[n] != b[n];
    var k := FirstDifference(a, b);
    assert forall i :: 0 <= i < m ==> a[..m][i] == b[..m][i];
    TextBeforeAtDifference(a, b, k);
  }

  lemma ShorterFractionIsEarlier(a: Nanos, b: Nanos)
    requires Fraction(a) < Fraction(b)
    ensures TextBefore(a, b)
  {
    var wa, wb := WithoutZeros(a), WithoutZeros(b);
    WithoutZerosIsPrefix(a);
    WithoutZerosIsPrefix(b);
    ShorterFractionHasLess(a, b);
    PaddedIsEarlier(a, b, |wa|, |wb| - 1);
  }

  lemma SameFraction(a: Nanos, b: Nanos)
    requires Fraction(a) == Fraction(b)
    ensures a == b
  {
    WithoutZerosIsPrefix(a);
    WithoutZerosIsPrefix(b);
    assert WithoutZeros(a) == WithoutZeros(b) by {
      if Fraction(a) != "" {
        assert Fraction(a)[1..] == WithoutZeros(a) && Fraction(b)[1..] == WithoutZeros(b);
      }
    }
    assert forall i :: 0 <= i < 9 ==> a[i] == b[i];
  }

  lemma UnrelatedFractions(a: Nanos, b: Nanos)
    requires !(Fraction(a) <= Fraction(b)) && !(Fraction(b) <= Fraction(a))
    ensures TextBefore(Fraction(a) + "Z", Fraction(b) + "Z") <==> TextBefore(a, b)
  {
    var fa, fb := Fraction(a), Fraction(b);
    WithoutZerosIsPrefix(a);
    WithoutZerosIsPrefix(b);
    var k := FirstDifference(fa, fb);
    assert fa[0] == '.' && fb[0] == '.';
    assert fa[k] == a[k - 1] && fb[k] == b[k - 1];
    assert a[..k - 1] == fa[..k][1..] && b[..k - 1] == fb[..k][1..];
    TextBeforeAtDifference(a, b, k - 1);
    assert (fa + "Z")[..k] == fa[..k] && (fb + "Z")[..k] == fb[..k];
    TextBeforeAtDifference(fa + "Z", fb + "Z", k);
  }

  // ----- key order against time order -----

  lemma SecondsDecide(a: Moment, b: Moment)
    requires a.second != b.second
    ensures TextBefore(FormatTime(a), FormatTime(b)) <==> TextBefore(a.second, b.second)
  {
    assert !(a.second <= b.second) && !(b.second <= a.second);
    var k := FirstDifference(a.second, b.second);
    TextBeforeAtDifference(a.second, b.second, k);
    assert FormatTime(a)[..k] == a.second[..k] && FormatTime(b)[..k] == b.second[..k];
    TextBeforeAtDifference(FormatTime(a), FormatTime(b), k);
  }

  /** Cutting trailing zeros costs the order: two keys are in time order unless, within one
      second, one fraction is a proper prefix of the other, and then they are reversed. */
  lemma KeyOrderAgainstTime(a: Moment, b: Moment)
    ensures TextBefore(FormatTime(a), FormatTime(b))
      <==> if a.second == b.second && (Fraction(a.nanos) < Fraction(b.nanos) || Fraction(b.nanos) < Fraction(a.nanos))
           then Earlier(b, a) else Earlier(a, b)
  {
    DigitsCompareAsNumbers(a.nanos, b.nanos);
    DigitsCompareAsNumbers(b.nanos, a.nanos);
    if a.second != b.second {
      SecondsDecide(a, b);
    } else {
      TextBeforeIsStrict(a.second, b.second);
      TextBeforeAfterPrefix(a.second, Fraction(a.nanos) + "Z", Fraction(b.nanos) + "Z");
      FractionOrder(a.nanos, b.nanos);
    }
  }

  lemma FractionOrder(a: Nanos, b: Nanos)
    ensures TextBefore(Fraction(a) + "Z", Fraction(b) + "Z")
      <==> if Fraction(a) < Fraction(b) || Fraction(b) < Fraction(a) then TextBefore(b, a) else TextBefore(a, b)
  {
    TextBeforeIsStrict(a, b);
    TextBeforeIsStrict(Fraction(a) + "Z", Fraction(b) + "Z");
    if Fraction(a) < Fraction(b) {
      PrefixKeyIsLater(a, b);
    } else if Fraction(b) < Fraction(a) {
      PrefixKeyIsLater(b, a);
    } else if Fraction(a) == Fraction(b) {
      SameFraction(a, b);
    } else {
      UnrelatedFractions(a, b);
    }
  }
}
