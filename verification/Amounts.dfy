/**
 Coin amounts as decimal strings (backend/app/services/payment_service.py): read into atoms, a
 hundred-millionth of a coin each, and written back.
 */
module Amounts {
  import opened Text
  import opened Wrappers
  import opened Decimals

  const DECIMALS := 8

  datatype AmountError = InvalidAmount | TooManyDecimals | TooLarge

  /** A number as written: the digits read as one number, and where the point goes. */
  datatype Numeral = Numeral(negative: bool, coefficient: nat, exponent: int)

  // ---------- Reading ----------

  predicate IsDigit(c: char) {
    '0' <= c <= '9'
  }

  predicate AllDigits(s: string) {
    forall i :: 0 <= i < |s| ==> IsDigit(s[i])
  }

  function DigitValue(c: char): nat
    requires IsDigit(c)
  {
    c as int - '0' as int
  }

  function Value(s: string): nat
    requires AllDigits(s)
  {
    if s == "" then 0 else Value(s[..|s| - 1]) * 10 + DigitValue(s[|s| - 1])
  }

  function WithoutUnderscores(s: string): string {
    if s == "" then ""
    else if s[0] == '_' then WithoutUnderscores(s[1..])
    else [s[0]] + WithoutUnderscores(s[1..])
  }

  /** How many digits a string starts with. */
  function DigitRun(s: string): (n: nat)
    ensures n <= |s| && AllDigits(s[..n])
  {
    if s != "" && IsDigit(s[0]) then 1 + DigitRun(s[1..]) else 0
  }

  predicate Signed(s: string) {
    s != "" && (s[0] == '+' || s[0] == '-')
  }

  /** The exponent part: nothing, or E with an optional sign and digits to the end. */
  function ReadExponent(s: string): Option<int> {
    if s == "" then Some(0)
    else if s[0] != 'e' && s[0] != 'E' then None
    else
      var digits := if Signed(s[1..]) then s[2..] else s[1..];
      if digits == "" || !AllDigits(digits) then None
      else
        var e: int := Value(digits);
        Some(if s[1] == '-' then -e else e)
  }

  /** A numeral of these digits, the last `places` of them after the point, and the exponent part `rest`. */
  function Assembled(digits: string, places: nat, rest: string, negative: bool): Option<Numeral>
    requires AllDigits(digits)
  {
    if digits == "" || ReadExponent(rest).None? then None
    else Some(Numeral(negative, Value(digits), ReadExponent(rest).value - places))
  }

  /** Digits, an optional point with more digits, an optional exponent; at least one digit before or
      after the point. */
  function ReadUnsigned(s: string, negative: bool): Option<Numeral> {
    var n := DigitRun(s);
    if n < |s| && s[n] == '.' then
      var f := DigitRun(s[n + 1..]);
      Assembled(s[..n] + s[n + 1..][..f], f, s[n + 1..][f..], negative)
    else
      Assembled(s[..n], 0, s[n..], negative)
  }

  /** A finite decimal numeral; the not-a-number and infinity forms are refused like malformed text. */
  function Read(s: string): Option<Numeral> {
    if Signed(s) then ReadUnsigned(s[1..], s[0] == '-') else ReadUnsigned(s, false)
  }

  /** A numeral's value counted in atoms. */
  function Atoms(n: Numeral): Dec {
    Dec(n.coefficient * Pow10(DECIMALS), n.exponent)
  }

  function Convert(n: Numeral): Result<nat, AmountError> {
    if n.negative || n.coefficient == 0 then Err(InvalidAmount)
    else
      var atoms := Rounded(Atoms(n));
      if atoms.None? then Err(TooLarge)
      else if Integral(atoms.value).None? then Err(TooManyDecimals)
      else Ok(Integral(atoms.value).value)
  }

  function ParseAmount(amount: string): Result<nat, AmountError> {
    var value := Strip(amount);
    var read := if value == "" then None else Read(WithoutUnderscores(value));
    if read.None? then Err(InvalidAmount) else Convert(read.value)
  }

  // ---------- Writing ----------

  function DigitChar(d: nat): (c: char)
    requires d < 10
    ensures IsDigit(c) && DigitValue(c) == d
  {
    (d + '0' as int) as char
  }

  function Digits(n: nat): (s: string)
    ensures s != "" && AllDigits(s)
  {
    if n < 10 then [DigitChar(n)] else Digits(n / 10) + [DigitChar(n % 10)]
  }

  function Zeroes(n: nat): (s: string)
    ensures |s| == n && AllDigits(s)
  {
    if n == 0 then "" else Zeroes(n - 1) + "0"
  }

  function ZeroFilled(s: string, width: nat): string {
    if |s| < width then Zeroes(width - |s|) + s else s
  }

  function WithoutTrailingZeroes(s: string): (r: string)
    ensures |r| <= |s| && r == s[..|r|] && (r != "" ==> r[|r| - 1] != '0')
  {
    if s != "" && s[|s| - 1] == '0' then WithoutTrailingZeroes(s[..|s| - 1]) else s
  }

  /** The digits after the point of so many atoms, without the zeroes at their end. */
  function Fraction(n: nat): string {
    WithoutTrailingZeroes(ZeroFilled(Digits(n % Pow10(DECIMALS)), DECIMALS))
  }

  function Written(whole: string, fraction: string): string {
    whole + (if fraction == "" then "" else "." + fraction)
  }

  function FormatAmount(atoms: int): string {
    var absolute := if atoms < 0 then -atoms else atoms;
    (if atoms < 0 then "-" else "") + Written(Digits(absolute / Pow10(DECIMALS)), Fraction(absolute))
  }

  // ---------- What parsing means ----------

  /** Only positive numerals convert. One all of whose digits the context keeps converts exactly when its
      value is a whole number of atoms, and to that number; any other can convert too, but never to its value. */
  lemma ConvertMeaning(n: Numeral, m: nat)
    ensures n.negative || n.coefficient == 0 ==> Convert(n) == Err(InvalidAmount)
    ensures !n.negative && n.coefficient > 0 && Rounded(Atoms(n)).None? ==> Convert(n) == Err(TooLarge)
    ensures !n.negative && n.coefficient > 0 && Rounded(Atoms(n)).Some? ==>
              && (Kept(Atoms(n)) ==> (Convert(n) == Ok(m) <==> Same(Dec(m, 0), Atoms(n))))
              && (Convert(n) == Ok(m) ==> (Same(Dec(m, 0), Atoms(n)) <==> Kept(Atoms(n))))
              && (Convert(n).Err? ==> Convert(n) == Err(TooManyDecimals))
  {
    PositiveProduct(n.coefficient, Pow10(DECIMALS));
    if n.coefficient > 0 && Rounded(Atoms(n)).Some? {
      WholeAfterRounding(Atoms(n), m);
    }
  }

  lemma PositiveProduct(x: int, p: int)
    requires p > 0
    ensures x > 0 ==> x * p > 0
  {
  }

  /** The digits of a numeral that the context keeps: at most 28 significant ones, and none so small that
      its value in atoms falls below the smallest unit. */
  lemma KeptAmount(n: Numeral)
    requires n.coefficient > 0
    ensures Kept(Atoms(n)) <==>
            Size(n.coefficient) - TrailingZeroes(n.coefficient) <= 28
            && n.exponent + 8 + TrailingZeroes(n.coefficient) >= -1000026
  {
    ShiftedSize(n.coefficient, DECIMALS);
    KeptMeaning(Atoms(n));
  }

  // ---------- Round trip ----------

  lemma {:induction false} ValueOfJoined(a: string, b: string)
    requires AllDigits(a) && AllDigits(b)
    ensures AllDigits(a + b) && Value(a + b) == Value(a) * Pow10(|b|) + Value(b)
    decreases |b|
  {
    if b == "" {
      assert a + b == a && Pow10(0) == 1;
    } else {
      var front := b[..|b| - 1];
      ValueOfJoined(a, front);
      assert (a + b)[..|a + b| - 1] == a + front;
      assert Pow10(|b|) == 10 * Pow10(|front|);
      Associate(Value(a), Pow10(|front|), 10);
    }
  }

  lemma {:induction false} DigitsOf(n: nat)
    ensures Value(Digits(n)) == n && |Digits(n)| == Size(n)
    decreases n
  {
    if n >= 10 {
      DigitsOf(n / 10);
    }
  }

  lemma {:induction false} ValueOfZeroes(n: nat)
    ensures Value(Zeroes(n)) == 0
    decreases n
  {
    if n > 0 {
      ValueOfZeroes(n - 1);
    }
  }

  lemma {:induction false} TrimmedValue(s: string)
    requires AllDigits(s)
    ensures var r := WithoutTrailingZeroes(s);
      AllDigits(r) && Value(s) == Value(r) * Pow10(|s| - |r|)
    decreases |s|
  {
    if s != "" && s[|s| - 1] == '0' {
      var front := s[..|s| - 1];
      TrimmedValue(front);
      var r := WithoutTrailingZeroes(front);
      assert Pow10(|s| - |r|) == 10 * Pow10(|front| - |r|);
      Associate(Value(r), Pow10(|front| - |r|), 10);
    } else {
      assert Pow10(0) == 1;
    }
  }

  lemma {:induction false} RunThrough(digits: string, rest: string)
    requires AllDigits(digits) && (rest == "" || !IsDigit(rest[0]))
    ensures DigitRun(digits + rest) == |digits|
    decreases |digits|
  {
    if digits == "" {
      assert digits + rest == rest;
    } else {
      assert (digits + rest)[1..] == digits[1..] + rest;
      RunThrough(digits[1..], rest);
    }
  }

  // ---------- What is ignored ----------

  lemma {:induction false} UnderscoresAppend(a: string, b: string)
    ensures WithoutUnderscores(a + b) == WithoutUnderscores(a) + WithoutUnderscores(b)
    decreases |a|
  {
    if a == "" {
      assert a + b == b;
    } else {
      assert (a + b)[1..] == a[1..] + b;
      UnderscoresAppend(a[1..], b);
    }
  }

  /** Space around an amount is ignored. */
  lemma SpaceIgnored(before: string, amount: string, after: string)
    requires AllSpace(before) && AllSpace(after)
    ensures ParseAmount(before + amount + after) == ParseAmount(amount)
  {
    StripAround(before, amount, after);
  }

  /** So is an underscore between two characters of it. */
  lemma UnderscoreIgnored(a: string, b: string)
    requires a != "" && b != "" && Strip(a + b) == a + b
    ensures ParseAmount(a + "_" + b) == ParseAmount(a + b)
  {
    var s, t := a + "_" + b, a + b;
    assert s[0] == t[0] && s[|s| - 1] == t[|t| - 1];
    StripsToItself(t);
    StripsToItself(s);
    UnderscoresAppend(a + "_", b);
    UnderscoresAppend(a, "_");
    UnderscoresAppend(a, b);
    assert WithoutUnderscores("_") == "";
    assert WithoutUnderscores(a) + "" == WithoutUnderscores(a);
  }

  lemma StripsToItself(s: string)
    requires s != ""
    ensures Strip(s) == s <==> !Space(s[0]) && !Space(s[|s| - 1])
  {
  }

  // ---------- What is read ----------

  /** An exponent as written: the letter, a sign or none, and digits. */
  datatype Power = Power(mark: char, sign: string, digits: string)

  /** A numeral as written: a sign or none, digits, a point with more digits or none, an exponent or none. */
  datatype Form = Form(sign: string, whole: string, pointed: bool, fraction: string, power: Option<Power>)

  predicate Proper(f: Form) {
    && (f.sign == "" || f.sign == "+" || f.sign == "-")
    && AllDigits(f.whole) && AllDigits(f.fraction) && f.whole + f.fraction != "" && (!f.pointed ==> f.fraction == "")
    && (f.power.Some? ==> ProperPower(f.power.value))
  }

  predicate ProperPower(p: Power) {
    && (p.mark == 'e' || p.mark == 'E') && (p.sign == "" || p.sign == "+" || p.sign == "-")
    && AllDigits(p.digits) && p.digits != ""
  }

  function PowerText(p: Option<Power>): string {
    if p.Some? then [p.value.mark] + p.value.sign + p.value.digits else ""
  }

  function BodyText(f: Form): string {
    f.whole + (if f.pointed then "." + f.fraction else "") + PowerText(f.power)
  }

  function FormText(f: Form): string {
    f.sign + BodyText(f)
  }

  function PowerOf(p: Option<Power>): int
    requires p.Some? ==> ProperPower(p.value)
  {
    if p == None then 0 else if p.value.sign == "-" then 0 - Value(p.value.digits) else Value(p.value.digits)
  }

  lemma ReadPower(p: Option<Power>)
    requires p.Some? ==> ProperPower(p.value)
    ensures ReadExponent(PowerText(p)) == Some(PowerOf(p))
    ensures PowerText(p) != "" ==> PowerText(p)[0] != '.' && !IsDigit(PowerText(p)[0])
  {
    if p.Some? {
      var s, digits := PowerText(p), p.value.digits;
      if p.value.sign == "" {
        assert s[1..] == digits && s[1] == digits[0] && IsDigit(digits[0]);
      } else {
        assert s[2..] == digits && s[1] == p.value.sign[0] && s[1..][0] == s[1];
      }
    }
  }

  /** `s` is the digits, a point with the digits after it or not, and the rest. */
  predicate Splits(s: string, whole: string, pointed: bool, fraction: string, rest: string) {
    && |whole| <= |s| && s[..|whole|] == whole && DigitRun(s) == |whole| && (pointed <==> |whole| < |s| && s[|whole|] == '.')
    && if pointed then
         && DigitRun(s[|whole| + 1..]) == |fraction| && s[|whole| + 1..][..|fraction|] == fraction
         && s[|whole| + 1..][|fraction|..] == rest
       else fraction == "" && s[|whole|..] == rest
  }

  lemma ReadSplits(s: string, whole: string, pointed: bool, fraction: string, rest: string, negative: bool)
    requires Splits(s, whole, pointed, fraction, rest) && AllDigits(whole + fraction)
    ensures ReadUnsigned(s, negative) == Assembled(whole + fraction, |fraction|, rest, negative)
  {
    assert whole + "" == whole;
  }

  predicate Undigited(rest: string) {
    rest == "" || (!IsDigit(rest[0]) && rest[0] != '.')
  }

  lemma PointedSplits(whole: string, fraction: string, rest: string)
    requires AllDigits(whole) && AllDigits(fraction) && Undigited(rest)
    ensures Splits(whole + ("." + fraction) + rest, whole, true, fraction, rest)
  {
    var after := fraction + rest;
    assert whole + ("." + fraction) + rest == whole + ("." + after);
    var s := whole + ("." + after);
    RunThrough(whole, "." + after);
    assert s[..|whole|] == whole && s[|whole|] == '.' && s[|whole| + 1..] == after;
    RunThrough(fraction, rest);
    assert after[..|fraction|] == fraction && after[|fraction|..] == rest;
  }

  lemma PlainSplits(whole: string, rest: string)
    requires AllDigits(whole) && Undigited(rest)
    ensures Splits(whole + "" + rest, whole, false, "", rest)
  {
    var s := whole + rest;
    assert whole + "" + rest == s;
    RunThrough(whole, rest);
    assert s[..|whole|] == whole && s[|whole|..] == rest;
  }

  lemma BodySplits(f: Form)
    requires Proper(f)
    ensures Splits(BodyText(f), f.whole, f.pointed, f.fraction, PowerText(f.power))
    ensures ReadExponent(PowerText(f.power)) == Some(PowerOf(f.power))
  {
    ReadPower(f.power);
    if f.pointed {
      PointedSplits(f.whole, f.fraction, PowerText(f.power));
    } else {
      PlainSplits(f.whole, PowerText(f.power));
    }
  }

  /** The number a form writes: its sign, its digits before and after the point as one number, and its exponent less
      the digits after the point. */
  predicate Writes(f: Form, n: Numeral)
    requires AllDigits(f.whole + f.fraction) && (f.power.Some? ==> ProperPower(f.power.value))
  {
    && (n.negative <==> f.sign == "-") && n.coefficient == Value(f.whole + f.fraction)
    && n.exponent == PowerOf(f.power) - |f.fraction|
  }

  /** Every proper form is read as that number. */
  lemma ReadForm(f: Form)
    requires Proper(f) && AllDigits(f.whole + f.fraction)
    ensures Read(FormText(f)).Some? && Writes(f, Read(FormText(f)).value)
  {
    var body, rest, e := BodyText(f), PowerText(f.power), PowerOf(f.power);
    BodySplits(f);
    BodyStarts(f);
    ReadSigned(f.sign, body);
    ReadSplits(body, f.whole, f.pointed, f.fraction, rest, f.sign == "-");
  }

  lemma BodyStarts(f: Form)
    requires Proper(f)
    ensures !Signed(BodyText(f))
  {
    var body := BodyText(f);
    assert f.whole != "" ==> body[0] == f.whole[0] && IsDigit(f.whole[0]);
    assert f.whole == "" ==> f.pointed && body[0] == '.';
  }

  lemma ReadSigned(sign: string, body: string)
    requires (sign == "" || sign == "+" || sign == "-") && !Signed(body)
    ensures Read(sign + body) == ReadUnsigned(body, sign == "-")
  {
    if sign == "" {
      assert sign + body == body;
    } else {
      assert (sign + body)[1..] == body;
    }
  }

  /** And nothing else is read. */
  lemma OnlyFormsAreRead(s: string)
    requires Read(s).Some?
    ensures exists f :: Proper(f) && FormText(f) == s
  {
    if Signed(s) {
      var f := BodyForm(s[1..], s[0] == '-', [s[0]]);
      assert [s[0]] + s[1..] == s;
      assert FormText(f) == s;
    } else {
      var f := BodyForm(s, false, "");
      assert "" + s == s;
      assert FormText(f) == s;
    }
  }

  lemma BodyForm(body: string, negative: bool, sign: string) returns (f: Form)
    requires ReadUnsigned(body, negative).Some? && (sign == "" || sign == "+" || sign == "-")
    ensures Proper(f) && BodyText(f) == body && f.sign == sign
  {
    var n := DigitRun(body);
    if n < |body| && body[n] == '.' {
      var after, k := body[n + 1..], DigitRun(body[n + 1..]);
      var power := PowerForm(after[k..]);
      f := Form(sign, body[..n], true, after[..k], power);
      Rejoined(body, n, k);
    } else {
      var power := PowerForm(body[n..]);
      f := Form(sign, body[..n], false, "", power);
      assert body == body[..n] + "" + body[n..];
    }
  }

  lemma Rejoined(s: string, n: nat, k: nat)
    requires n < |s| && s[n] == '.' && k <= |s[n + 1..]|
    ensures s == s[..n] + ("." + s[n + 1..][..k]) + s[n + 1..][k..]
  {
    assert s[n + 1..] == s[n + 1..][..k] + s[n + 1..][k..];
    assert s == s[..n] + [s[n]] + s[n + 1..];
  }

  lemma PowerForm(s: string) returns (p: Option<Power>)
    requires ReadExponent(s).Some?
    ensures PowerText(p) == s && (p.Some? ==> ProperPower(p.value))
  {
    if s == "" {
      p := None;
    } else if Signed(s[1..]) {
      p := Some(Power(s[0], s[1..2], s[2..]));
      assert s == [s[0]] + s[1..2] + s[2..] && s[1..2] == [s[1]] && s[1..][0] == s[1];
    } else {
      p := Some(Power(s[0], "", s[1..]));
      assert s == [s[0]] + "" + s[1..];
    }
  }

  lemma ReadWritten(whole: string, fraction: string)
    requires whole != "" && AllDigits(whole) && AllDigits(fraction) && AllDigits(whole + fraction)
    ensures Read(Written(whole, fraction)) == Some(Numeral(false, Value(whole + fraction), -|fraction|))
  {
    var f := Form("", whole, fraction != "", fraction, None);
    WrittenForm(f);
    ReadText(f, Written(whole, fraction), Numeral(false, Value(whole + fraction), -|fraction|));
  }

  /** A text that is a proper form is read as the number the form writes. */
  lemma ReadText(f: Form, text: string, n: Numeral)
    requires Proper(f) && AllDigits(f.whole + f.fraction) && text == FormText(f) && Writes(f, n)
    ensures Read(text) == Some(n)
  {
    ReadForm(f);
    OneNumeral(f, Read(FormText(f)).value, n);
  }

  lemma OneNumeral(f: Form, m: Numeral, n: Numeral)
    requires AllDigits(f.whole + f.fraction) && (f.power.Some? ==> ProperPower(f.power.value)) && Writes(f, m) && Writes(f, n)
    ensures m == n
  {
  }

  lemma WrittenForm(f: Form)
    requires f.sign == "" && f.power == None && (f.pointed <==> f.fraction != "")
    ensures FormText(f) == Written(f.whole, f.fraction)
  {
  }

  lemma {:induction false} NoUnderscores(s: string)
    requires forall i :: 0 <= i < |s| ==> s[i] != '_'
    ensures WithoutUnderscores(s) == s
    decreases |s|
  {
    if s != "" {
      NoUnderscores(s[1..]);
    }
  }

  lemma WrittenIsClean(whole: string, fraction: string)
    requires whole != "" && AllDigits(whole) && AllDigits(fraction)
    ensures Strip(Written(whole, fraction)) == Written(whole, fraction)
    ensures WithoutUnderscores(Written(whole, fraction)) == Written(whole, fraction)
  {
    var s := Written(whole, fraction);
    forall i | 0 <= i < |s|
      ensures s[i] != '_' && (IsDigit(s[i]) || s[i] == '.')
    {
      assert i < |whole| ==> s[i] == whole[i];
      assert i > |whole| ==> s[i] == fraction[i - |whole| - 1];
    }
    NoUnderscores(s);
    assert !Space(s[0]) && !Space(s[|s| - 1]);
  }

  lemma FilledValue(x: nat, width: nat)
    requires width > 0 && x < Pow10(width)
    ensures var s := ZeroFilled(Digits(x), width);
      |s| == width && AllDigits(s) && Value(s) == x
  {
    DigitsOf(x);
    SizeWithin(x, width);
    if |Digits(x)| < width {
      var zeroes := Zeroes(width - |Digits(x)|);
      ValueOfZeroes(width - |Digits(x)|);
      ValueOfJoined(zeroes, Digits(x));
      assert 0 * Pow10(|Digits(x)|) == 0;
    }
  }

  /** The digits after the point, at most eight, write the remainder. */
  lemma FractionValue(n: nat)
    ensures |Fraction(n)| <= DECIMALS && AllDigits(Fraction(n))
    ensures n % Pow10(DECIMALS) == Value(Fraction(n)) * Pow10(DECIMALS - |Fraction(n)|)
  {
    var x := n % Pow10(DECIMALS);
    FilledValue(x, DECIMALS);
    TrimmedValue(ZeroFilled(Digits(x), DECIMALS));
  }

  lemma SizeWithin(n: nat, k: nat)
    requires k > 0 && n < Pow10(k)
    ensures Size(n) <= k
  {
    if n > 0 {
      SizeBounds(n);
      PowOrder(Size(n) - 1, k);
    }
  }

  lemma PowOrder(a: nat, b: nat)
    ensures Pow10(a) < Pow10(b) ==> a < b
  {
    if b <= a {
      PowGrows(b, a);
    }
  }

  /** What was written is worth what it was written from. */
  lemma FormatKeepsValue(n: nat)
    ensures var whole, fraction := Digits(n / Pow10(DECIMALS)), Fraction(n);
      && AllDigits(fraction) && |fraction| <= DECIMALS && AllDigits(whole + fraction)
      && n * Pow10(|fraction|) == Value(whole + fraction) * Pow10(DECIMALS)
  {
    var whole, fraction := Digits(n / Pow10(DECIMALS)), Fraction(n);
    FractionValue(n);
    DigitsOf(n / Pow10(DECIMALS));
    ValueOfJoined(whole, fraction);
    JoinedValue(n, Value(fraction), |fraction|, Pow10(DECIMALS));
  }

  lemma JoinedValue(n: nat, v: nat, f: nat, p: int)
    requires p == Pow10(DECIMALS) && f <= DECIMALS && n % p == v * Pow10(DECIMALS - f)
    ensures n * Pow10(f) == (n / p * Pow10(f) + v) * p
  {
    PowAdd(DECIMALS - f, f);
    Recombine(n / p, v, p, Pow10(f), Pow10(DECIMALS - f), n);
  }

  lemma Recombine(w: int, v: int, p: int, pf: int, pr: int, n: int)
    requires p == pr * pf && n == w * p + v * pr
    ensures n * pf == (w * pf + v) * p
  {
    Associate(w, p, pf);
    Associate(w, pf, p);
    Associate(v, pr, pf);
    assert n * pf == w * p * pf + v * pr * pf;
    assert (w * pf + v) * p == w * pf * p + v * p;
  }

  /** Every positive amount survives writing and reading, exactly when it has at most 28 significant digits
      and at most a million digits in all. */
  lemma RoundTrip(n: nat)
    requires n > 0
    ensures ParseAmount(FormatAmount(n)) == Ok(n) <==> Size(n) - TrailingZeroes(n) <= 28 && Size(n) <= 1000000
  {
    var whole, fraction := Digits(n / Pow10(DECIMALS)), Fraction(n);
    FormatKeepsValue(n);
    ParseWritten(n, whole, fraction);
    ConvertWritten(n, Numeral(false, Value(whole + fraction), -|fraction|), |fraction|);
  }

  lemma ParseWritten(n: nat, whole: string, fraction: string)
    requires whole == Digits(n / Pow10(DECIMALS)) && fraction == Fraction(n)
    requires AllDigits(fraction) && AllDigits(whole + fraction)
    ensures ParseAmount(FormatAmount(n)) == Convert(Numeral(false, Value(whole + fraction), -|fraction|))
  {
    FormatWritten(n);
    ReadWritten(whole, fraction);
    WrittenIsClean(whole, fraction);
    ParseClean(Written(whole, fraction), Numeral(false, Value(whole + fraction), -|fraction|));
  }

  lemma FormatWritten(n: nat)
    ensures FormatAmount(n) == Written(Digits(n / Pow10(DECIMALS)), Fraction(n))
  {
    var text := Written(Digits(n / Pow10(DECIMALS)), Fraction(n));
    assert "" + text == text;
  }

  lemma ParseClean(s: string, n: Numeral)
    requires s != "" && Strip(s) == s && WithoutUnderscores(s) == s && Read(s) == Some(n)
    ensures ParseAmount(s) == Convert(n)
  {
  }

  lemma ConvertWritten(n: nat, read: Numeral, f: nat)
    requires n > 0 && !read.negative && read.exponent + f == 0 && f <= DECIMALS
    requires n * Pow10(f) == read.coefficient * Pow10(DECIMALS)
    ensures Convert(read) == Ok(n) <==>
            Size(n) - TrailingZeroes(n) <= PRECISION && Size(n) <= PRECISION + E_TOP
  {
    var v := Atoms(read);
    WrittenSize(n, read, f);
    KeptMeaning(v);
    ConvertMeaning(read, n);
    if Kept(v) {
      KeptFits(v);
    }
  }

  lemma WrittenSize(n: nat, read: Numeral, f: nat)
    requires n > 0 && read.exponent + f == 0 && f <= DECIMALS
    requires n * Pow10(f) == read.coefficient * Pow10(DECIMALS)
    ensures var v := Atoms(read);
      && read.coefficient > 0 && v.coefficient > 0 && Same(Dec(n, 0), v)
      && Size(v.coefficient) == Size(n) + f && TrailingZeroes(v.coefficient) == TrailingZeroes(n) + f
  {
    ShiftedSize(n, f);
    PositiveProduct(read.coefficient, Pow10(DECIMALS));
  }

  lemma KeptFits(a: Dec)
    requires a.coefficient > 0 && Kept(a)
    ensures Rounded(a).Some? <==> Unit(a) <= E_TOP
  {
    if Unit(a) > a.exponent {
      QuotientFits(a);
      HalfEvenExact(a.coefficient, Pow10(Unit(a) - a.exponent));
    }
  }

  /** A negative amount is written as its opposite after a minus sign, and zero as one digit. */
  lemma FormatSign(n: nat)
    ensures FormatAmount(0 - n) == if n == 0 then "0" else "-" + FormatAmount(n)
  {
    var text := Written(Digits(n / Pow10(DECIMALS)), Fraction(n));
    assert "" + text == text;
    if n == 0 {
      FormatZero();
    }
  }

  lemma FormatZero()
    ensures FormatAmount(0) == "0"
  {
    FractionValue(0);
    var f := Fraction(0);
    assert Digits(0) == "0";
    if f != "" {
      PositiveLast(f);
      assert false;
    }
    assert 0 / Pow10(DECIMALS) == 0 by { Unique(0, Pow10(DECIMALS), 0, 0); }
    FormatWritten(0);
  }

  lemma PositiveLast(s: string)
    requires s != "" && AllDigits(s) && s[|s| - 1] != '0'
    ensures Value(s) > 0
  {
  }

  /** In particular every positive amount below ten to the 28 atoms. */
  lemma EveryRealAmount(n: nat)
    requires 0 < n < Pow10(PRECISION)
    ensures ParseAmount(FormatAmount(n)) == Ok(n)
  {
    SizeWithin(n, PRECISION);
    RoundTrip(n);
  }

  // ---------- Where rounding shows ----------

  /** Ten to the 29 atoms and a tenth of one: nine decimals, 31 significant digits. */
  const LONG_WHOLE := "1" + Zeroes(21)
  const LONG_FRACTION := Zeroes(8) + "1"

  /** An amount with nine decimals is accepted, as another amount, when it has too many digits for the context. */
  lemma LongAmountAccepted()
    ensures AllDigits(LONG_WHOLE) && AllDigits(LONG_FRACTION) && |LONG_FRACTION| == 9
    ensures ParseAmount(LONG_WHOLE + "." + LONG_FRACTION) == Ok(Pow10(29))
  {
    LongValue();
    ReadWritten(LONG_WHOLE, LONG_FRACTION);
    WrittenIsClean(LONG_WHOLE, LONG_FRACTION);
    var s := LONG_WHOLE + "." + LONG_FRACTION;
    assert Written(LONG_WHOLE, LONG_FRACTION) == s;
    ParseClean(s, Numeral(false, Pow10(30) + 1, -9));
    LongRounded();
  }

  lemma LongValue()
    ensures LONG_WHOLE != "" && AllDigits(LONG_WHOLE) && AllDigits(LONG_FRACTION) && |LONG_FRACTION| == 9
    ensures AllDigits(LONG_WHOLE + LONG_FRACTION) && Value(LONG_WHOLE + LONG_FRACTION) == Pow10(30) + 1
  {
    LongParts();
    ValueOfJoined(LONG_WHOLE, LONG_FRACTION);
    PowAdd(21, 9);
  }

  lemma LongParts()
    ensures LONG_WHOLE != "" && AllDigits(LONG_WHOLE) && AllDigits(LONG_FRACTION) && |LONG_FRACTION| == 9
    ensures Value(LONG_WHOLE) == Pow10(21) && Value(LONG_FRACTION) == 1
  {
    OneThenZeroes(21);
    ZeroesThenOne(8);
  }

  lemma OneThenZeroes(n: nat)
    ensures AllDigits("1" + Zeroes(n)) && Value("1" + Zeroes(n)) == Pow10(n)
  {
    ValueOfZeroes(n);
    assert Value("1") == 1;
    ValueOfJoined("1", Zeroes(n));
  }

  lemma ZeroesThenOne(n: nat)
    ensures AllDigits(Zeroes(n) + "1") && Value(Zeroes(n) + "1") == 1
  {
    ValueOfZeroes(n);
    assert Value("1") == 1;
    ValueOfJoined(Zeroes(n), "1");
    assert 0 * Pow10(1) == 0;
  }

  lemma SizeFromBounds(n: nat, k: nat)
    requires Pow10(k) <= n < Pow10(k + 1)
    ensures Size(n) == k + 1
  {
    SizeBounds(n);
    PowOrder(k, Size(n));
    PowOrder(Size(n) - 1, k + 1);
  }

  lemma LongSize(k: nat, d: nat)
    requires k > 0
    ensures Size((Pow10(k) + 1) * Pow10(d)) == k + 1 + d
  {
    assert Pow10(k) == 10 * Pow10(k - 1) && Pow10(k + 1) == 10 * Pow10(k);
    SizeFromBounds(Pow10(k) + 1, k);
    ShiftedSize(Pow10(k) + 1, d);
  }

  /** Eleven digits are dropped, and what they were worth is less than half of the last one kept. */
  lemma LongQuotient(a: int, b: int, p: int)
    requires p > 0 && a >= 0 && 0 <= b && 2 * b < p
    ensures HalfEven(a * p + b, p) == a
  {
    Unique(a * p + b, p, a, b);
  }

  lemma LongPowers()
    ensures (Pow10(30) + 1) * Pow10(8) == Pow10(27) * Pow10(11) + Pow10(8)
    ensures 2 * Pow10(8) < Pow10(11) && Pow10(27) < Pow10(28) && Pow10(27) * Pow10(2) == Pow10(29)
  {
    PowAdd(30, 8);
    PowAdd(27, 11);
    PowAdd(27, 2);
  }

  lemma LongRounded()
    ensures Convert(Numeral(false, Pow10(30) + 1, -9)) == Ok(Pow10(29))
  {
    LongSize(30, DECIMALS);
    LongPowers();
    LongConverts(Numeral(false, Pow10(30) + 1, -9), Pow10(27), Pow10(11), Pow10(8));
  }

  lemma LongConverts(n: Numeral, a: nat, p: int, b: int)
    requires !n.negative && n.coefficient > 0 && n.exponent == -9
    requires Size(Atoms(n).coefficient) == 39 && Atoms(n).coefficient == a * p + b && 0 <= b && 2 * b < p
    requires p == Pow10(11) && a < Pow10(PRECISION)
    ensures Convert(n) == Ok(a * Pow10(2))
  {
    LongQuotient(a, b, p);
    ConvertRounded(Atoms(n), a, 2);
  }

  lemma ConvertRounded(v: Dec, q: nat, u: nat)
    requires Unit(v) == u && v.exponent < u <= E_TOP && HalfEven(v.coefficient, Pow10(u - v.exponent)) == q < Pow10(PRECISION)
    ensures Rounded(v) == Some(Dec(q, u)) && Integral(Dec(q, u)) == Some(q * Pow10(u))
  {
  }

  /** A positive amount below the smallest unit is accepted as zero. */
  lemma TinyAmountAccepted(n: Numeral)
    requires !n.negative && 0 < n.coefficient < Pow10(PRECISION) && n.exponent + DECIMALS + PRECISION < E_TINY
    ensures Convert(n) == Ok(0)
  {
    var v := Atoms(n);
    PositiveProduct(n.coefficient, Pow10(DECIMALS));
    ShiftedSize(n.coefficient, DECIMALS);
    SizeWithin(n.coefficient, PRECISION);
    assert Unit(v) == E_TINY;
    SizeBounds(v.coefficient);
    var k := E_TINY - n.exponent;
    PowGrows(Size(v.coefficient), k - 1);
    assert Pow10(k) == 10 * Pow10(k - 1);
    Unique(v.coefficient, Pow10(k), 0, v.coefficient);
    assert Rounded(v) == Some(Dec(0, E_TINY));
    Unique(0, Pow10(-E_TINY), 0, 0);
  }

  /** One times ten to the minus `k`, as one writes it. */
  function TinyAmount(k: nat): string {
    "1e-" + Digits(k)
  }

  lemma ReadTiny(k: nat)
    ensures Strip(TinyAmount(k)) == TinyAmount(k) && WithoutUnderscores(TinyAmount(k)) == TinyAmount(k)
    ensures Read(TinyAmount(k)) == Some(Numeral(false, 1, 0 - k))
  {
    var s := TinyAmount(k);
    DigitsOf(k);
    forall i | 0 <= i < |s|
      ensures s[i] != '_'
    {
      assert i >= 3 ==> s[i] == Digits(k)[i - 3];
    }
    NoUnderscores(s);
    assert s[|s| - 1] == Digits(k)[|Digits(k)| - 1] && !Space(s[0]) && !Space(s[|s| - 1]);
    ReadTinyForm(k);
  }

  lemma ReadTinyForm(k: nat)
    ensures Read(TinyAmount(k)) == Some(Numeral(false, 1, 0 - k))
  {
    var f := Form("", "1", false, "", Some(Power('e', "-", Digits(k))));
    assert "1" + "" == "1" && Value("1") == 1;
    DigitsOf(k);
    TinyText(k);
    ReadText(f, TinyAmount(k), Numeral(false, 1, 0 - k));
  }

  lemma TinyText(k: nat)
    ensures FormText(Form("", "1", false, "", Some(Power('e', "-", Digits(k))))) == TinyAmount(k)
  {
    assert ['e'] + "-" == "e-" && "1" + "" == "1" && "1" + ("e-" + Digits(k)) == "1e-" + Digits(k);
  }

  /** The amounts 1e-k are accepted down to one atom, and again, as zero, from 1e-1000035 on. */
  lemma TinyStringAccepted(k: nat)
    ensures ParseAmount(TinyAmount(k)).Ok? <==> k <= DECIMALS || k >= 1000035
    ensures k >= 1000035 ==> ParseAmount(TinyAmount(k)) == Ok(0)
  {
    ReadTiny(k);
    ParseClean(TinyAmount(k), Numeral(false, 1, 0 - k));
    if k >= 1000035 {
      TinyIsZero(k);
    } else {
      TinyIsItself(k);
    }
  }

  lemma TinyIsItself(k: nat)
    requires k < 1000035
    ensures Convert(Numeral(false, 1, 0 - k)).Ok? <==> k <= DECIMALS
  {
    var n := Numeral(false, 1, 0 - k);
    TinySize();
    KeptMeaning(Atoms(n));
    KeptFits(Atoms(n));
    if k <= DECIMALS {
      PowAdd(DECIMALS - k, k);
      ConvertMeaning(n, Pow10(DECIMALS - k));
    } else if Convert(n).Ok? {
      var m := Convert(n).value;
      ConvertMeaning(n, m);
      assert m * Pow10(k) == Pow10(DECIMALS);
      PowGrows(DECIMALS + 1, k);
      NoMultiple(m, Pow10(k), Pow10(DECIMALS));
    }
  }

  lemma TinySize()
    ensures Size(1 * Pow10(DECIMALS)) == DECIMALS + 1 && TrailingZeroes(1 * Pow10(DECIMALS)) == DECIMALS
  {
    ShiftedSize(1, DECIMALS);
  }

  lemma NoMultiple(m: nat, p: int, q: int)
    requires 0 < q < p
    ensures m * p != q
  {
    if m > 0 {
      AtLeastOnce(p, m);
    }
  }

  lemma TinyIsZero(k: nat)
    requires k >= 1000035
    ensures Convert(Numeral(false, 1, 0 - k)) == Ok(0)
  {
    var v := Atoms(Numeral(false, 1, 0 - k));
    TinySize();
    var j := E_TINY + k;
    assert Unit(v) == E_TINY && v.coefficient == Pow10(DECIMALS);
    PowGrows(DECIMALS + 1, j);
    assert Pow10(DECIMALS + 1) == 10 * Pow10(DECIMALS);
    Unique(v.coefficient, Pow10(j), 0, v.coefficient);
    assert Rounded(v) == Some(Dec(0, E_TINY));
    Unique(0, Pow10(-E_TINY), 0, 0);
  }
}
