/** JavaScript numbers as far as this code base compares them: a finite value or `NaN`,
    together with the string-to-number conversions it relies on
    (`Number(s)`, implicit coercion in relational operators, `parseInt`, `parseFloat`). */
module JsNumber {
  import opened Wrappers
  import opened JsText

  datatype Num = NaN | Fin(v: real)

  /** `a < b`; every comparison with `NaN` is false. */
  predicate Lt(a: Num, b: Num) { a.Fin? && b.Fin? && a.v < b.v }
  predicate Le(a: Num, b: Num) { a.Fin? && b.Fin? && a.v <= b.v }
  predicate Gt(a: Num, b: Num) { Lt(b, a) }
  predicate Ge(a: Num, b: Num) { Le(b, a) }

  /** `a === b` on numbers: `NaN` equals nothing, not even itself. */
  predicate StrictEq(a: Num, b: Num) { a.Fin? && b.Fin? && a.v == b.v }

  /** `c` is a digit of the given radix (10 or 16). */
  predicate IsDigitIn(c: char, radix: nat) {
    ('0' <= c <= '9') ||
    (radix == 16 && (('a' <= c <= 'f') || ('A' <= c <= 'F')))
  }

  function DigitValue(c: char): (d: nat)
    requires IsDigitIn(c, 16)
    ensures d < 16
    ensures '0' <= c <= '9' ==> d < 10
  {
    if '0' <= c <= '9' then c as int - '0' as int
    else if 'a' <= c <= 'f' then c as int - 'a' as int + 10
    else c as int - 'A' as int + 10
  }

  predicate AllDigitsIn(s: string, radix: nat) {
    forall k :: 0 <= k < |s| ==> IsDigitIn(s[k], radix)
  }

  /** The value of a numeral (Horner's rule; the radix is 10 or 16). */
  function Value(s: string, radix: nat): nat
    requires radix == 10 || radix == 16
    requires AllDigitsIn(s, radix)
  {
    if |s| == 0 then 0
    else
      var high := Value(s[..|s| - 1], radix);
      (if radix == 10 then 10 * high else 16 * high) + DigitValue(s[|s| - 1])
  }

  /** `m * 10^e`, one decimal shift at a time. */
  function Scale(m: real, e: int): real
    decreases if e < 0 then -e else e
  {
    if e == 0 then m
    else if e > 0 then Scale(10.0 * m, e - 1)
    else Scale(m / 10.0, e + 1)
  }

  /** Length of the longest prefix of `s` made of digits of `radix`. */
  function DigitRun(s: string, radix: nat): (n: nat)
    ensures n <= |s|
    ensures AllDigitsIn(s[..n], radix)
    ensures n == |s| || !IsDigitIn(s[n], radix)
  {
    if |s| == 0 || !IsDigitIn(s[0], radix) then 0
    else
      var n := 1 + DigitRun(s[1..], radix);
      assert s[..n] == [s[0]] + s[1..][..n - 1];
      n
  }

  /** Length of an optional `+`/`-` at the start of `s`. */
  function SignLength(s: string): nat {
    if |s| > 0 && (s[0] == '+' || s[0] == '-') then 1 else 0
  }

  /** `v`, negated when `s` starts with `-`. */
  function Signed(s: string, v: real): real {
    if |s| > 0 && s[0] == '-' then -v else v
  }

  /** Length and value of an exponent part `e[+|-]digits` at the start of `s`; (0, 0) when there is none. */
  function ExponentPart(s: string): (r: (nat, int))
    ensures r.0 <= |s|
  {
    if |s| > 0 && (s[0] == 'e' || s[0] == 'E') then
      var t := s[1..];
      var sl := SignLength(t);
      var n := DigitRun(t[sl..], 10);
      if n == 0 then (0, 0)
      else
        var e := Value(t[sl..][..n], 10);
        (1 + sl + n, if |t| > 0 && t[0] == '-' then -(e as int) else e as int)
    else (0, 0)
  }

  /** The longest prefix of `s` of the form digits [. digits] [exponent] with at least one
      mantissa digit: its value and its length. */
  function UnsignedDecimal(s: string): (r: Option<(real, nat)>)
    ensures r.Some? ==> 0 < r.value.1 <= |s|
  {
    var i := DigitRun(s, 10);
    var hasPoint := i < |s| && s[i] == '.';
    var f := if hasPoint then DigitRun(s[i + 1..], 10) else 0;
    if i == 0 && f == 0 then None
    else
      var mantissaLength := if hasPoint then i + 1 + f else i;
      var digits := s[..i] + (if hasPoint then s[i + 1..][..f] else "");
      assert AllDigitsIn(digits, 10);
      var exponent := ExponentPart(s[mantissaLength..]);
      Some((Scale(Value(digits, 10) as real, exponent.1 - f), mantissaLength + exponent.0))
  }

  /** The longest prefix of `s` that is a decimal literal (sign, digits, optional fraction,
      optional exponent): its value and its length, or `None` when no digit starts `s`. */
  function DecimalPrefix(s: string): (r: Option<(real, nat)>)
    ensures r.Some? ==> 0 < r.value.1 <= |s|
  {
    var sl := SignLength(s);
    match UnsignedDecimal(s[sl..])
    case Some((v, n)) => Some((Signed(s, v), sl + n))
    case None => None
  }

  /** `Number(s)` (also the coercion `s < 0` applies): the whole trimmed text must be a
      decimal literal, and blank text is 0. */
  function ToNumber(s: string): Num {
    var t := Trim(s);
    if t == "" then Fin(0.0)
    else
      match DecimalPrefix(t)
      case Some((v, n)) => if n == |t| then Fin(v) else NaN
      case None => NaN
  }

  /** `Number.parseFloat(s)`: the longest decimal literal after leading whitespace. */
  function ParseFloat(s: string): Num {
    match DecimalPrefix(TrimStart(s))
    case Some((v, _)) => Fin(v)
    case None => NaN
  }

  /** `Number.parseInt(s)` without a radix: leading whitespace, a sign, then hexadecimal
      digits after `0x`/`0X` or decimal digits otherwise; `NaN` when no digit follows. */
  function ParseInt(s: string): Num {
    var t := TrimStart(s);
    var sl := SignLength(t);
    var body := t[sl..];
    var hex := |body| >= 2 && body[0] == '0' && (body[1] == 'x' || body[1] == 'X');
    var radix := if hex then 16 else 10;
    var digits := if hex then body[2..] else body;
    var n := DigitRun(digits, radix);
    if n == 0 then NaN
    else Fin(Signed(t, Value(digits[..n], radix) as real))
  }

  /** Decimal digit strings convert to the number they spell, under both `Number` and `parseInt`. */
  lemma DigitsToNumber(s: string)
    requires |s| > 0 && AllDigitsIn(s, 10)
    ensures ToNumber(s) == Fin(Value(s, 10) as real)
    ensures ParseInt(s) == Fin(Value(s, 10) as real)
  {
    NoSpaceInDigits(s);
    DigitsAsDecimal(s);
    var body := s[SignLength(s)..];
    assert body == s;
    assert !(|body| >= 2 && body[0] == '0' && (body[1] == 'x' || body[1] == 'X'));
    assert DigitRun(s, 10) == |s|;
    assert s[..|s|] == s;
  }

  lemma NoSpaceInDigits(s: string)
    requires |s| > 0 && AllDigitsIn(s, 10)
    ensures Trim(s) == s && TrimStart(s) == s
  {
    assert !IsSpace(s[0]) && !IsSpace(s[|s| - 1]);
    assert LeadingSpace(s) == 0;
    assert s[0..] == s;
    assert TrailingSpace(s) == 0;
  }

  lemma DigitsAsDecimal(s: string)
    requires |s| > 0 && AllDigitsIn(s, 10)
    ensures DecimalPrefix(s) == Some((Value(s, 10) as real, |s|))
  {
    DigitsAsUnsigned(s);
    assert SignLength(s) == 0 && s[0..] == s;
    assert Signed(s, Value(s, 10) as real) == Value(s, 10) as real;
  }

  lemma DigitsAsUnsigned(s: string)
    requires |s| > 0 && AllDigitsIn(s, 10)
    ensures UnsignedDecimal(s) == Some((Value(s, 10) as real, |s|))
  {
    assert DigitRun(s, 10) == |s|;
    assert s[..|s|] + "" == s;
    assert ExponentPart(s[|s|..]) == (0, 0) by {
      assert s[|s|..] == "";
    }
  }

  /** Equal-length strings neither of which is below the other are equal. */
  lemma {:induction false} LessTotal(a: string, b: string)
    requires |a| == |b|
    requires !Less(a, b) && !Less(b, a)
    ensures a == b
    decreases |a|
  {
    if |a| > 0 {
      LessTotal(a[1..], b[1..]);
      assert a == [a[0]] + a[1..] && b == [b[0]] + b[1..];
    }
  }

  /** Dropping the last digit of two equal-length numerals: the shorter ones decide the order
      unless they are equal, in which case the last digits do. */
  lemma {:induction false} LessByLast(a: string, b: string)
    requires |a| == |b| > 0
    ensures Less(a, b) <==>
              Less(a[..|a| - 1], b[..|b| - 1]) || (a[..|a| - 1] == b[..|b| - 1] && a[|a| - 1] < b[|b| - 1])
    decreases |a|
  {
    if |a| > 1 {
      assert a[..|a| - 1][1..] == a[1..][..|a| - 2];
      assert b[..|b| - 1][1..] == b[1..][..|b| - 2];
      if a[0] == b[0] {
        LessByLast(a[1..], b[1..]);
        if a[1..][..|a| - 2] == b[1..][..|b| - 2] {
          assert a[..|a| - 1] == [a[0]] + a[1..][..|a| - 2];
          assert b[..|b| - 1] == [b[0]] + b[1..][..|b| - 2];
        }
      } else {
        assert a[..|a| - 1][0] == a[0];
      }
    }
  }

  /** For digit strings of equal length, string order and numeric order agree. */
  lemma {:induction false} DigitOrder(a: string, b: string)
    requires |a| == |b|
    requires AllDigitsIn(a, 10) && AllDigitsIn(b, 10)
    ensures Less(a, b) <==> Value(a, 10) < Value(b, 10)
    decreases |a|
  {
    if |a| > 0 {
      var a', b' := a[..|a| - 1], b[..|b| - 1];
      LessByLast(a, b);
      DigitOrder(a', b');
      DigitOrder(b', a');
      var da, db := DigitValue(a[|a| - 1]), DigitValue(b[|b| - 1]);
      assert Value(a, 10) == 10 * Value(a', 10) + da;
      assert Value(b, 10) == 10 * Value(b', 10) + db;
      assert a[|a| - 1] < b[|b| - 1] <==> da < db;
      if a' != b' && !Less(a', b') {
        assert Less(b', a') by {
          if !Less(b', a') { LessTotal(a', b'); }
        }
      }
    }
  }
}
