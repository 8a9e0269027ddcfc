/** The text side of src/gpuopt/dcgm_ingestion.py: the regular expressions, `int`, `float` and `splitlines`.
    Letters and digits are the ASCII ones. */
module DcgmText {
  import opened Seqs

  // ---- characters ----

  predicate IsDigit(c: char) { '0' <= c <= '9' }

  predicate IsWord(c: char) { IsDigit(c) || 'a' <= c <= 'z' || 'A' <= c <= 'Z' || c == '_' }

  /** Where `str.splitlines` ends a line. */
  predicate IsBreak(c: char) {
    '\n' <= c <= '\r' || '\U{1c}' <= c <= '\U{1e}' || c == '\U{85}' || c == '\U{2028}' || c == '\U{2029}'
  }

  /** `str.isspace` and the class `\s`. */
  predicate IsSpace(c: char) {
    '\t' <= c <= '\r' || '\U{1c}' <= c <= '\U{20}' || c == '\U{85}' || c == '\U{a0}' || c == '\U{1680}' ||
    '\U{2000}' <= c <= '\U{200a}' || c == '\U{2028}' || c == '\U{2029}' || c == '\U{202f}' || c == '\U{205f}' ||
    c == '\U{3000}'
  }

  /** The class of the value group, `[\d.eE+-]`. */
  predicate IsValueChar(c: char) { IsDigit(c) || c == '.' || c == 'e' || c == 'E' || c == '+' || c == '-' }

  predicate NotBreak(c: char) { !IsBreak(c) }

  predicate NotClose(c: char) { c != '}' }

  predicate NotQuote(c: char) { c != '"' }

  predicate All(p: char -> bool, s: string) { forall i :: 0 <= i < |s| ==> p(s[i]) }

  /** The length of the longest prefix within a character class. Every class in the patterns is followed by a
      character outside it, so the greedy match is the only one. */
  function Run(p: char -> bool, s: string): (n: nat)
    ensures n <= |s| && All(p, s[..n]) && (n < |s| ==> !p(s[n]))
  {
    if s == [] || !p(s[0]) then 0 else 1 + Run(p, s[1..])
  }

  lemma {:induction false} RunIs(p: char -> bool, a: string, b: string)
    requires All(p, a) && (b == [] || !p(b[0]))
    ensures Run(p, a + b) == |a|
  {
    if a == [] {
      assert a + b == b;
    } else {
      RunIs(p, a[1..], b);
      assert (a + b)[1..] == a[1..] + b;
    }
  }

  lemma {:induction false} RunStops(p: char -> bool, s: string, i: nat)
    requires i < |s| && !p(s[i])
    ensures Run(p, s) <= i
  {
  }

  lemma AllConcat(p: char -> bool, a: string, b: string)
    requires All(p, a) && All(p, b)
    ensures All(p, a + b)
  {
  }

  function StripLeft(s: string): string { s[Run(IsSpace, s)..] }

  function StripRight(s: string): string {
    if s != [] && IsSpace(s[|s| - 1]) then StripRight(s[..|s| - 1]) else s
  }

  function Strip(s: string): string { StripRight(StripLeft(s)) }

  // ---- numbers ----

  /** Decimal digits; between two digits `int` allows a single underscore. */
  function ParseDigits(s: string, underscores: bool): Option<nat> {
    if s == [] || !IsDigit(s[|s| - 1]) then None
    else
      var d := (s[|s| - 1] - '0') as nat;
      var k := |s| - 1;
      if k == 0 then Some(d)
      else
        match ParseDigits(if underscores && s[k - 1] == '_' then s[..k - 1] else s[..k], underscores)
        case None => None
        case Some(high) => Some(10 * high + d)
  }

  /** Splits off an optional sign: whether it is a minus, and the rest. */
  function Sign(s: string): (bool, string) {
    if s != [] && (s[0] == '-' || s[0] == '+') then (s[0] == '-', s[1..]) else (false, s)
  }

  function Signed(minus: bool, n: int): int { if minus then -n else n }

  /** Python's `int(text)`. */
  function ParseInt(s: string): Option<int> {
    var (minus, rest) := Sign(Strip(s));
    match ParseDigits(rest, true)
    case None => None
    case Some(n) => Some(Signed(minus, n))
  }

  function Pow10(e: int): real
    decreases Abs(e)
  {
    if e == 0 then 1.0 else if e > 0 then 10.0 * Pow10(e - 1) else Pow10(e + 1) / 10.0
  }

  function Decimal(mantissa: int, exponent: int): real { mantissa as real * Pow10(exponent) }

  /** The exponent part of a float; no text means exponent zero. */
  function ParseExponent(s: string): Option<int> {
    if s == [] then Some(0)
    else if s[0] != 'e' && s[0] != 'E' then None
    else
      var (minus, rest) := Sign(s[1..]);
      match ParseDigits(rest, false)
      case None => None
      case Some(n) => Some(Signed(minus, n))
  }

  datatype FloatText = FloatText(minus: bool, digits: string, scale: nat, exponent: string)

  /** Splits float text into sign, digits, number of digits behind the point, and exponent part. */
  function ScanFloat(s: string): FloatText {
    var (minus, rest) := Sign(s);
    var i := Run(IsDigit, rest);
    if i < |rest| && rest[i] == '.' then
      var tail := rest[i + 1..];
      var f := Run(IsDigit, tail);
      FloatText(minus, rest[..i] + tail[..f], f, tail[f..])
    else FloatText(minus, rest[..i], 0, rest[i..])
  }

  function FloatValue(t: FloatText): Option<real> {
    match (ParseDigits(t.digits, false), ParseExponent(t.exponent))
    case (Some(digits), Some(e)) => Some(Decimal(Signed(t.minus, digits), e - t.scale))
    case _ => None
  }

  /** Python's `float(text)` for text of value characters, with exact results. */
  function ParseFloat(s: string): Option<real> { FloatValue(ScanFloat(s)) }

  // ---- what number texts mean ----

  function Tens(k: nat): nat { if k == 0 then 1 else 10 * Tens(k - 1) }

  /** The number that decimal digits spell: each digit counts for its place. */
  function Spelled(s: string): nat {
    if s == [] then 0 else (if IsDigit(s[0]) then (s[0] - '0') as nat else 0) * Tens(|s| - 1) + Spelled(s[1..])
  }

  lemma {:induction false} SpelledConcat(a: string, b: string)
    ensures Spelled(a + b) == Spelled(a) * Tens(|b|) + Spelled(b)
  {
    if a == [] {
      assert a + b == b;
    } else {
      SpelledConcat(a[1..], b);
      assert (a + b)[1..] == a[1..] + b;
      TensAdd(|a| - 1, |b|);
      PlaceValue(if IsDigit(a[0]) then (a[0] - '0') as nat else 0, Tens(|a| - 1), Spelled(a[1..]), Tens(|b|));
    }
  }

  lemma PlaceValue(d: nat, place: nat, rest: nat, shift: nat)
    ensures (d * place + rest) * shift == d * (place * shift) + rest * shift
  {
  }

  lemma {:induction false} TensAdd(a: nat, b: nat)
    ensures Tens(a + b) == Tens(a) * Tens(b)
  {
    if a > 0 {
      TensAdd(a - 1, b);
    }
  }

  /** What `int` accepts between sign and end: digits, with single underscores between them. */
  predicate DigitGroups(s: string) {
    && s != [] && IsDigit(s[0]) && IsDigit(s[|s| - 1])
    && (forall i :: 0 <= i < |s| ==> IsDigit(s[i]) || s[i] == '_')
    && (forall i :: 0 < i < |s| ==> s[i] == '_' ==> s[i - 1] != '_')
  }

  predicate Accepts(s: string, underscores: bool) {
    if underscores then DigitGroups(s) else s != [] && All(IsDigit, s)
  }

  /** Exactly the digit texts are parsed, to the number they spell without the underscores. */
  lemma {:induction false} DigitsIff(s: string, underscores: bool)
    ensures ParseDigits(s, underscores) == if Accepts(s, underscores) then Some(Spelled(Filter(IsDigit, s))) else None
  {
    if s != [] && IsDigit(s[|s| - 1]) && |s| > 1 {
      var k := |s| - 1;
      var t := if underscores && s[k - 1] == '_' then s[..k - 1] else s[..k];
      DigitsIff(t, underscores);
      AcceptsShorter(s, t, underscores);
      LastDigit(s, t);
    } else if |s| == 1 {
      assert Filter(IsDigit, s[1..]) == [];
    }
  }

  lemma AcceptsShorter(s: string, t: string, underscores: bool)
    requires |s| > 1 && IsDigit(s[|s| - 1])
    requires t == if underscores && s[|s| - 2] == '_' then s[..|s| - 2] else s[..|s| - 1]
    ensures Accepts(s, underscores) <==> Accepts(t, underscores)
  {
    if underscores && DigitGroups(t) {
      assert forall i :: 0 <= i < |t| ==> s[i] == t[i];
    }
    if !underscores && All(IsDigit, t) {
      assert forall i :: 0 <= i < |t| ==> s[i] == t[i];
    }
  }

  lemma LastDigit(s: string, t: string)
    requires |s| > 1 && IsDigit(s[|s| - 1])
    requires t == s[..|s| - 1] || (s[|s| - 2] == '_' && t == s[..|s| - 2])
    ensures Spelled(Filter(IsDigit, s)) == 10 * Spelled(Filter(IsDigit, t)) + (s[|s| - 1] - '0') as nat
  {
    hide Filter, Spelled, Tens;
    var (k, c) := (|s| - 1, s[|s| - 1]);
    assert s == s[..k] + [c];
    DigitsSnoc(s[..k], c);
    if t != s[..k] {
      assert s[..k] == t + ['_'];
      DigitsSnoc(t, '_');
      assert Filter(IsDigit, t) + [] == Filter(IsDigit, t);
    }
    SpelledSnoc(Filter(IsDigit, t), c);
  }

  lemma DigitsSnoc(s: string, c: char)
    ensures Filter(IsDigit, s + [c]) == Filter(IsDigit, s) + (if IsDigit(c) then [c] else [])
  {
    FilterConcat(IsDigit, s, [c]);
    FilterCons(IsDigit, c, []);
    assert [c] + [] == [c] && (if IsDigit(c) then [c] else []) + [] == if IsDigit(c) then [c] else [];
  }

  lemma SpelledSnoc(s: string, c: char)
    requires IsDigit(c)
    ensures Spelled(s + [c]) == 10 * Spelled(s) + (c - '0') as nat
  {
    SpelledConcat(s, [c]);
    assert Tens(1) == 10 && Tens(0) == 1 && Spelled([c][1..]) == 0;
  }

  lemma PlainDigits(s: string, underscores: bool)
    requires s != [] && All(IsDigit, s)
    ensures ParseDigits(s, underscores) == Some(Spelled(s))
  {
    DigitsIff(s, underscores);
    FilterAll(IsDigit, s);
  }

  predicate GoodSign(sign: string) { sign == "" || sign == "+" || sign == "-" }

  lemma SignSplits(sign: string, rest: string)
    requires GoodSign(sign) && (rest == [] || (rest[0] != '+' && rest[0] != '-'))
    ensures Sign(sign + rest) == (sign == "-", rest)
  {
    if sign == "" {
      assert sign + rest == rest;
    } else {
      assert (sign + rest)[1..] == rest;
    }
  }

  lemma {:induction false} StripRightPadded(core: string, b: string)
    requires All(IsSpace, b) && (core == [] || !IsSpace(core[|core| - 1]))
    ensures StripRight(core + b) == core
  {
    if b == [] {
      assert core + b == core;
    } else {
      assert (core + b)[..|core + b| - 1] == core + b[..|b| - 1];
      StripRightPadded(core, b[..|b| - 1]);
    }
  }

  /** Stripping takes off exactly the white space at both ends. */
  lemma StripPadded(a: string, core: string, b: string)
    requires All(IsSpace, a) && All(IsSpace, b)
    requires core != [] && !IsSpace(core[0]) && !IsSpace(core[|core| - 1])
    ensures Strip(a + core + b) == core
  {
    assert a + core + b == a + (core + b);
    RunIs(IsSpace, a, core + b);
    assert (a + (core + b))[|a|..] == core + b;
    StripRightPadded(core, b);
  }

  /** `int` reads white space, a sign and digit groups. */
  lemma IntParses(a: string, sign: string, digits: string, b: string)
    requires All(IsSpace, a) && All(IsSpace, b) && GoodSign(sign) && DigitGroups(digits)
    ensures ParseInt(a + (sign + digits) + b) == Some(Signed(sign == "-", Spelled(Filter(IsDigit, digits))))
  {
    StripPadded(a, sign + digits, b);
    SignSplits(sign, digits);
    DigitsIff(digits, true);
  }

  /** And nothing else: any text it accepts has this form. */
  lemma IntAccepts(s: string) returns (sign: string, digits: string)
    requires ParseInt(s).Some?
    ensures GoodSign(sign) && DigitGroups(digits) && Strip(s) == sign + digits
    ensures ParseInt(s) == Some(Signed(sign == "-", Spelled(Filter(IsDigit, digits))))
  {
    digits := Sign(Strip(s)).1;
    sign := Strip(s)[..|Strip(s)| - |digits|];
    DigitsIff(digits, true);
  }

  /** The text of a float: sign, digits before and behind an optional point, and an optional power of ten. */
  datatype Power = NoPower | Power(mark: char, sign: string, digits: string)

  datatype Number = Number(sign: string, whole: string, point: bool, frac: string, power: Power)

  predicate GoodPower(p: Power) {
    p.Power? ==> (p.mark == 'e' || p.mark == 'E') && GoodSign(p.sign) && p.digits != "" && All(IsDigit, p.digits)
  }

  /** A digit somewhere before the power, and digits behind the point only if there is one. */
  predicate GoodNumber(n: Number) {
    && GoodSign(n.sign) && All(IsDigit, n.whole) && All(IsDigit, n.frac) && n.whole + n.frac != ""
    && (n.frac == "" || n.point) && GoodPower(n.power)
  }

  function PrintPower(p: Power): string { if p.NoPower? then "" else [p.mark] + (p.sign + p.digits) }

  function PrintNumber(n: Number): string {
    n.sign + (n.whole + ((if n.point then "." + n.frac else "") + PrintPower(n.power)))
  }

  function PowerOf(p: Power): int { if p.NoPower? then 0 else Signed(p.sign == "-", Spelled(p.digits)) }

  /** All digits together, with sign, times ten to the power less the digits behind the point. */
  function NumberValue(n: Number): real {
    Decimal(Signed(n.sign == "-", Spelled(n.whole + n.frac)), PowerOf(n.power) - |n.frac|)
  }

  lemma PowerParses(p: Power)
    requires GoodPower(p)
    ensures ParseExponent(PrintPower(p)) == Some(PowerOf(p))
  {
    if p.Power? {
      assert PrintPower(p)[1..] == p.sign + p.digits;
      SignSplits(p.sign, p.digits);
      PlainDigits(p.digits, false);
    }
  }

  lemma PowerAccepts(s: string) returns (p: Power)
    requires ParseExponent(s).Some?
    ensures GoodPower(p) && PrintPower(p) == s
  {
    if s == "" {
      p := NoPower;
    } else {
      var digits := Sign(s[1..]).1;
      DigitsIff(digits, false);
      p := Power(s[0], s[1..][..|s| - 1 - |digits|], digits);
      assert s == [s[0]] + s[1..] && s[1..] == p.sign + p.digits;
    }
  }

  lemma ScanPoint(s: string, minus: bool, w: string, f: string, e: string)
    requires Sign(s) == (minus, w + ("." + (f + e)))
    requires All(IsDigit, w) && All(IsDigit, f) && (e == [] || !IsDigit(e[0]))
    ensures ScanFloat(s) == FloatText(minus, w + f, |f|, e)
  {
    hide Sign;
    var rest := w + ("." + (f + e));
    RunIs(IsDigit, w, "." + (f + e));
    RunIs(IsDigit, f, e);
    assert rest[..|w|] == w && rest[|w| + 1..] == f + e;
    assert (f + e)[..|f|] == f && (f + e)[|f|..] == e;
  }

  lemma ScanPlain(s: string, minus: bool, w: string, e: string)
    requires Sign(s) == (minus, w + e) && All(IsDigit, w) && (e == [] || (!IsDigit(e[0]) && e[0] != '.'))
    ensures ScanFloat(s) == FloatText(minus, w, 0, e)
  {
    hide Sign;
    RunIs(IsDigit, w, e);
    assert (w + e)[..|w|] == w && (w + e)[|w|..] == e;
  }

  lemma ScanNumber(n: Number)
    requires GoodNumber(n)
    ensures ScanFloat(PrintNumber(n)) == FloatText(n.sign == "-", n.whole + n.frac, |n.frac|, PrintPower(n.power))
  {
    hide ScanFloat, Sign;
    var power := PrintPower(n.power);
    if n.point {
      assert "." + n.frac + power == "." + (n.frac + power);
      SignSplits(n.sign, n.whole + ("." + (n.frac + power)));
      ScanPoint(PrintNumber(n), n.sign == "-", n.whole, n.frac, power);
    } else {
      assert "" + power == power && n.whole + n.frac == n.whole;
      SignSplits(n.sign, n.whole + power);
      ScanPlain(PrintNumber(n), n.sign == "-", n.whole, power);
    }
  }

  /** Every float text is read as the number it spells, with or without sign, point, either side of it, exponent. */
  lemma NumberParses(n: Number)
    requires GoodNumber(n)
    ensures ParseFloat(PrintNumber(n)) == Some(NumberValue(n))
  {
    hide ScanFloat, PrintNumber, PrintPower, ParseExponent, GoodPower, PowerOf, Spelled, ParseDigits, Pow10;
    ScanNumber(n);
    assert All(IsDigit, n.whole + n.frac);
    PlainDigits(n.whole + n.frac, false);
    PowerParses(n.power);
    ValueOf(ScanFloat(PrintNumber(n)), Spelled(n.whole + n.frac), PowerOf(n.power));
  }

  lemma ValueOf(t: FloatText, digits: nat, e: int)
    requires ParseDigits(t.digits, false) == Some(digits) && ParseExponent(t.exponent) == Some(e)
    ensures FloatValue(t) == Some(Decimal(Signed(t.minus, digits), e - t.scale))
  {
  }

  /** And nothing else: any text that `float` accepts has this form. */
  lemma FloatAccepts(s: string) returns (n: Number)
    requires ParseFloat(s).Some?
    ensures GoodNumber(n) && PrintNumber(n) == s
  {
    hide ScanFloat, ParseDigits, ParseExponent, Filter;
    var t := ScanFloat(s);
    n := ScanSplits(s);
    DigitsIff(t.digits, false);
    var power := PowerAccepts(t.exponent);
    n := n.(power := power);
  }

  /** The scan takes the text apart without loss; what follows the digits is left as it is. */
  lemma ScanSplits(s: string) returns (n: Number)
    ensures GoodSign(n.sign) && All(IsDigit, n.whole) && All(IsDigit, n.frac) && (n.frac == "" || n.point)
    ensures ScanFloat(s).digits == n.whole + n.frac
    ensures s == n.sign + (n.whole + ((if n.point then "." + n.frac else "") + ScanFloat(s).exponent))
  {
    hide Sign, Run, GoodSign, ScanFloat;
    var rest := SignRejoins(s);
    var sign := s[..|s| - |rest|];
    var i := Run(IsDigit, rest);
    ScanCases(s);
    if i < |rest| && rest[i] == '.' {
      var f := Run(IsDigit, rest[i + 1..]);
      PointRejoins(rest, i, f);
      n := Number(sign, rest[..i], true, rest[i + 1..][..f], NoPower);
    } else {
      PlainRejoins(rest, i);
      n := Number(sign, rest[..i], false, "", NoPower);
    }
  }

  lemma ScanCases(s: string)
    ensures
      var (rest, t) := (Sign(s).1, ScanFloat(s));
      var i := Run(IsDigit, rest);
      if i < |rest| && rest[i] == '.' then
        var tail := rest[i + 1..];
        t.digits == rest[..i] + tail[..Run(IsDigit, tail)] && t.exponent == tail[Run(IsDigit, tail)..]
      else t.digits == rest[..i] && t.exponent == rest[i..]
  {
    hide Run, Sign;
  }

  lemma PlainRejoins(s: string, i: nat)
    requires i <= |s|
    ensures s == s[..i] + ("" + s[i..]) && s[..i] + "" == s[..i]
  {
  }

  lemma SignRejoins(s: string) returns (rest: string)
    ensures rest == Sign(s).1 && |rest| <= |s| && s == s[..|s| - |rest|] + rest
    ensures GoodSign(s[..|s| - |rest|])
  {
    rest := Sign(s).1;
    if |rest| < |s| {
      assert s[..1] == [s[0]];
    } else {
      assert s[..0] == "";
    }
  }

  lemma PointRejoins(s: string, i: nat, f: nat)
    requires i < |s| && s[i] == '.' && f <= |s| - i - 1
    ensures s == s[..i] + (("." + s[i + 1..][..f]) + s[i + 1..][f..])
  {
    var tail := s[i + 1..];
    assert tail[..f] + tail[f..] == tail;
    assert ("." + tail[..f]) + tail[f..] == "." + tail;
    assert s == s[..i] + ("." + tail);
  }

  lemma {:induction false} PowNext(e: int)
    ensures Pow10(e + 1) == 10.0 * Pow10(e)
  {
  }

  lemma PowZero()
    ensures Pow10(0) == 1.0
  {
  }

  lemma Tenfold(x: real, y: real)
    ensures 10.0 * x * y == 10.0 * (x * y)
  {
  }

  /** Powers of ten multiply, for exponents of either sign. */
  lemma {:induction false} PowAdds(a: int, b: int)
    ensures Pow10(a + b) == Pow10(a) * Pow10(b)
    decreases Abs(a)
  {
    PowZero();
    hide Pow10;
    if a > 0 {
      PowAdds(a - 1, b);
      PowNext(a - 1);
      PowNext(a - 1 + b);
      Tenfold(Pow10(a - 1), Pow10(b));
    } else if a < 0 {
      PowAdds(a + 1, b);
      PowNext(a);
      PowNext(a + b);
      Tenfold(Pow10(a), Pow10(b));
    } else {
      assert Pow10(0) * Pow10(b) == Pow10(b);
    }
  }

  lemma {:induction false} PowTens(k: nat)
    ensures Pow10(k) == Tens(k) as real && Pow10(0 - k) * Tens(k) as real == 1.0
  {
    if k > 0 {
      PowTens(k - 1);
      PowNext(0 - k);
    }
  }

  /** A mantissa times a power of ten, in whole numbers. */
  lemma DecimalIs(mantissa: int, k: nat)
    ensures Decimal(mantissa, k) == (mantissa * Tens(k)) as real
    ensures Decimal(mantissa, 0 - k) * Tens(k) as real == mantissa as real
  {
    PowTens(k);
    assert mantissa as real * (Pow10(0 - k) * Tens(k) as real) == mantissa as real;
  }

  /** Without exponent the value is the whole part plus the digits behind the point over their power of ten. */
  lemma DecimalMeaning(n: Number)
    requires GoodNumber(n) && n.power.NoPower? && n.sign != "-"
    ensures Tens(|n.frac|) >= 1
    ensures NumberValue(n) == Spelled(n.whole) as real + Spelled(n.frac) as real / Tens(|n.frac|) as real
  {
    hide Spelled, Tens, Pow10;
    var (k, w, f) := (|n.frac|, Spelled(n.whole), Spelled(n.frac));
    SpelledConcat(n.whole, n.frac);
    PowTens(k);
    TensPositive(k);
    assert (w * Tens(k)) as real == w as real * Tens(k) as real;
    ScaledSum(w as real, f as real, Tens(k) as real, Pow10(0 - k));
  }

  lemma {:induction false} TensPositive(k: nat)
    ensures Tens(k) >= 1
  {
    if k > 0 {
      TensPositive(k - 1);
    }
  }

  lemma ScaledSum(w: real, f: real, t: real, p: real)
    requires t >= 1.0 && p * t == 1.0
    ensures (w * t + f) * p == w + f / t
  {
    assert (w * t + f) * p == w * (p * t) + f * p;
    assert f / t == f * p by { assert f == (f * p) * t; }
  }

  function PrintNat(n: nat): string {
    (if n < 10 then [] else PrintNat(n / 10)) + ['0' + (n % 10) as char]
  }

  function PrintInt(n: int): string { if n < 0 then "-" + PrintNat(-n) else PrintNat(n) }

  lemma {:induction false} PrintNatSpelled(n: nat)
    ensures PrintNat(n) != [] && All(IsDigit, PrintNat(n)) && Spelled(PrintNat(n)) == n
  {
    var last := ['0' + (n % 10) as char];
    if n >= 10 {
      PrintNatSpelled(n / 10);
      SpelledConcat(PrintNat(n / 10), last);
    }
    assert Spelled(last) == n % 10 by { assert Spelled(last[1..]) == 0 && Tens(0) == 1; }
    assert Tens(1) == 10 && [] + last == last;
  }

  lemma PrintIntParses(n: int)
    ensures ParseInt(PrintInt(n)) == Some(n)
  {
    hide ParseInt, Spelled, Filter, PrintNat;
    var (sign, digits) := (if n < 0 then "-" else "", PrintNat(Abs(n)));
    PrintNatSpelled(Abs(n));
    FilterAll(IsDigit, digits);
    IntParses("", sign, digits, "");
    assert "" + (sign + digits) + "" == sign + digits;
    assert sign + digits == PrintInt(n);
  }

  /** A text for a mantissa times a power of ten, which every finite float is. */
  function NumberOf(mantissa: int, exponent: int): Number {
    Number(if mantissa < 0 then "-" else "", PrintNat(Abs(mantissa)), false, "",
           Power('e', if exponent < 0 then "-" else "", PrintNat(Abs(exponent))))
  }

  lemma PrintFloatParses(mantissa: int, exponent: int)
    ensures GoodNumber(NumberOf(mantissa, exponent))
    ensures ParseFloat(PrintNumber(NumberOf(mantissa, exponent))) == Some(Decimal(mantissa, exponent))
  {
    hide PrintNumber, Spelled, PrintNat, Pow10, ParseFloat;
    var n := NumberOf(mantissa, exponent);
    PrintNatSpelled(Abs(mantissa));
    PrintNatSpelled(Abs(exponent));
    assert n.whole + n.frac == n.whole;
    NumberParses(n);
    assert PowerOf(n.power) == exponent && Signed(n.sign == "-", Abs(mantissa)) == mantissa;
  }

  lemma ValueCharNotSpace(c: char)
    ensures IsValueChar(c) ==> !IsSpace(c) && !IsBreak(c)
  {
  }

  lemma AllConcat4(p: char -> bool, a: string, b: string, c: string, d: string)
    requires All(p, a) && All(p, b) && All(p, c) && All(p, d)
    ensures All(p, a + (b + (c + d)))
  {
  }

  /** Float texts are made of the characters of the value group. */
  lemma NumberChars(n: Number)
    requires GoodNumber(n)
    ensures PrintNumber(n) != [] && All(IsValueChar, PrintNumber(n))
  {
    var point := if n.point then "." + n.frac else "";
    AllConcat4(IsValueChar, n.sign, n.whole, point, PrintPower(n.power));
  }

  // ---- lines ----

  function SplitLines(s: string): seq<string> {
    if s == [] then []
    else
      var n := Run(NotBreak, s);
      if n == |s| then [s]
      else [s[..n]] + SplitLines(s[NextLine(s, n)..])
  }

  lemma SplitFirstLine(line: string, rest: string)
    requires All(NotBreak, line)
    ensures SplitLines(line + "\n" + rest) == [line] + SplitLines(rest)
  {
    var s := line + "\n" + rest;
    assert s == line + ("\n" + rest);
    RunIs(NotBreak, line, "\n" + rest);
    assert s[..|line|] == line && s[|line| + 1..] == rest;
  }

  /** Where the line after a break at n starts. */
  function NextLine(s: string, n: nat): nat
    requires n < |s|
  {
    if s[n] == '\r' && n + 1 < |s| && s[n + 1] == '\n' then n + 2 else n + 1
  }

  /** Text that ends in a line feed has a first break, which more text behind it does not move. */
  lemma FirstBreak(s: string, t: string)
    requires s != [] && s[|s| - 1] == '\n'
    ensures
      var n := Run(NotBreak, s);
      n < |s| && Run(NotBreak, s + t) == n && NextLine(s + t, n) == NextLine(s, n) <= |s| && (s + t)[..n] == s[..n]
  {
    var n := Run(NotBreak, s);
    RunStops(NotBreak, s, |s| - 1);
    assert s + t == s[..n] + (s[n..] + t);
    RunIs(NotBreak, s[..n], s[n..] + t);
    assert (s + t)[..n] == s[..n];
  }

  /** Splitting distributes over concatenation behind a line feed. */
  lemma {:induction false} SplitConcat(s: string, t: string)
    requires s != [] ==> s[|s| - 1] == '\n'
    ensures SplitLines(s + t) == SplitLines(s) + SplitLines(t)
    decreases |s|
  {
    if s == [] {
      assert s + t == t;
    } else {
      hide Run, NextLine;
      FirstBreak(s, t);
      var n := Run(NotBreak, s);
      var next := NextLine(s, n);
      assert (s + t)[next..] == s[next..] + t;
      SplitConcat(s[next..], t);
      Associates([s[..n]], SplitLines(s[next..]), SplitLines(t));
    }
  }

  // ---- the two patterns ----

  const PREFIX := "DCGM_FI_DEV_"

  datatype Raw = Raw(metric: string, labels: string, value: string)

  /** `\s+(?P<value>[\d.eE+-]+)` */
  function MatchValue(s: string): Option<string> {
    var gap := Run(IsSpace, s);
    var v := Run(IsValueChar, s[gap..]);
    if gap == 0 || v == 0 then None else Some(s[gap..][..v])
  }

  /** `(?P<labels>[^}]+)\}`, then the value. */
  function MatchLabels(s: string): Option<(string, string)> {
    var l := Run(NotClose, s);
    if l == 0 || l == |s| then None
    else
      match MatchValue(s[l + 1..])
      case None => None
      case Some(value) => Some((s[..l], value))
  }

  /** `\w+)\{`, then labels and value. */
  function MatchName(s: string): Option<Raw> {
    var w := Run(IsWord, s);
    if w == 0 || w == |s| || s[w] != '{' then None
    else
      match MatchLabels(s[w + 1..])
      case None => None
      case Some(found) => Some(Raw(PREFIX + s[..w], found.0, found.1))
  }

  /** The whole pattern, `^(?P<metric>DCGM_FI_DEV_\w+)\{(?P<labels>[^}]+)\}\s+(?P<value>[\d.eE+-]+)`; it is
      anchored at the start only, so anything may follow the value. */
  function MatchMetric(s: string): Option<Raw> {
    if PREFIX <= s then MatchName(s[|PREFIX|..]) else None
  }

  datatype Label = Label(name: string, text: string)

  /** `(\w+)="([^"]*)"` at the start of the text; also what follows the match. */
  function MatchLabel(s: string): Option<(Label, string)> {
    var w := Run(IsWord, s);
    if w == 0 || w + 1 >= |s| || s[w] != '=' || s[w + 1] != '"' then None
    else
      var b := s[w + 2..];
      var v := Run(NotQuote, b);
      if v == |b| then None else Some((Label(s[..w], b[..v]), b[v + 1..]))
  }

  /** `findall`: matches from left to right, moving on by one character where there is none. */
  function FindLabels(s: string): seq<Label>
    decreases |s|
  {
    if s == [] then []
    else
      match MatchLabel(s)
      case None => FindLabels(s[1..])
      case Some(found) => [found.0] + FindLabels(found.1)
  }

  function Dict(labels: seq<Label>): map<string, string> {
    if labels == [] then map[] else Dict(labels[..|labels| - 1])[labels[|labels| - 1].name := labels[|labels| - 1].text]
  }

  function PrintLabel(tag: Label): string { tag.name + "=\"" + tag.text + "\"" }

  /** A label with the separator text before it. */
  datatype Spot = Spot(before: string, tag: Label)

  /** The label text: separators and labels in turn, and whatever separators follow the last one. */
  function PrintSpots(spots: seq<Spot>, after: string): string {
    if spots == [] then after else spots[0].before + (PrintLabel(spots[0].tag) + PrintSpots(spots[1..], after))
  }

  function Labels(spots: seq<Spot>): seq<Label> {
    if spots == [] then [] else [spots[0].tag] + Labels(spots[1..])
  }

  predicate GoodLabel(tag: Label) {
    && tag.name != [] && All(IsWord, tag.name)
    && forall i :: 0 <= i < |tag.text| ==> tag.text[i] != '"' && tag.text[i] != '}' && !IsBreak(tag.text[i])
  }

  /** Commas, blanks and the like: no word character, and nothing that ends the labels or the line. */
  predicate IsSeparator(c: char) { !IsWord(c) && c != '}' && !IsBreak(c) }

  predicate GoodSpots(spots: seq<Spot>, after: string) {
    && All(IsSeparator, after)
    && forall i :: 0 <= i < |spots| ==> All(IsSeparator, spots[i].before) && GoodLabel(spots[i].tag)
  }

  lemma LabelParts(tag: Label, rest: string)
    ensures
      var (s, b) := (PrintLabel(tag) + rest, tag.text + ("\"" + rest));
      && s == tag.name + ("=\"" + b) && s[..|tag.name|] == tag.name && s[|tag.name| + 2..] == b
      && s[|tag.name|] == '=' && s[|tag.name| + 1] == '"'
      && b[..|tag.text|] == tag.text && b[|tag.text| + 1..] == rest
  {
    var b := tag.text + ("\"" + rest);
    assert PrintLabel(tag) + rest == tag.name + ("=\"" + b);
  }

  lemma MatchPrintedLabel(tag: Label, rest: string)
    requires GoodLabel(tag)
    ensures MatchLabel(PrintLabel(tag) + rest) == Some((tag, rest))
  {
    hide Run, PrintLabel;
    var (name, value) := (tag.name, tag.text);
    var s := PrintLabel(tag) + rest;
    var b := value + ("\"" + rest);
    LabelParts(tag, rest);
    RunIs(IsWord, name, "=\"" + b);
    RunIs(NotQuote, value, "\"" + rest);
  }

  lemma {:induction false} FindBehindSeparator(before: string, s: string)
    requires All(IsSeparator, before)
    ensures FindLabels(before + s) == FindLabels(s)
  {
    if before == [] {
      assert before + s == s;
    } else {
      assert (before + s)[1..] == before[1..] + s;
      assert Run(IsWord, before + s) == 0;
      FindBehindSeparator(before[1..], s);
    }
  }

  lemma FindFirst(s: string, tag: Label, rest: string)
    requires MatchLabel(s) == Some((tag, rest))
    ensures FindLabels(s) == [tag] + FindLabels(rest)
  {
  }

  lemma {:induction false} FindPrintedLabels(spots: seq<Spot>, after: string)
    requires GoodSpots(spots, after)
    ensures FindLabels(PrintSpots(spots, after)) == Labels(spots)
  {
    if spots == [] {
      FindBehindSeparator(after, []);
      assert after + [] == after;
    } else {
      var rest := PrintSpots(spots[1..], after);
      FindBehindSeparator(spots[0].before, PrintLabel(spots[0].tag) + rest);
      MatchPrintedLabel(spots[0].tag, rest);
      FindFirst(PrintLabel(spots[0].tag) + rest, spots[0].tag, rest);
      FindPrintedLabels(spots[1..], after);
    }
  }

  /** The pattern takes nothing but a name, an equals sign and a quoted text up to the next quote. */
  lemma MatchedLabel(s: string)
    requires MatchLabel(s).Some?
    ensures
      var (tag, rest) := MatchLabel(s).value;
      && s == PrintLabel(tag) + rest
      && tag.name != [] && All(IsWord, tag.name) && All(NotQuote, tag.text)
  {
    var w := Run(IsWord, s);
    LabelRejoins(s, w, Run(NotQuote, s[w + 2..]));
  }

  lemma LabelRejoins(s: string, w: nat, v: nat)
    requires w + 2 + v < |s| && s[w] == '=' && s[w + 1] == '"' && s[w + 2 + v] == '"'
    ensures
      var b := s[w + 2..];
      s == PrintLabel(Label(s[..w], b[..v])) + b[v + 1..]
  {
    hide PrintLabel;
    var b := s[w + 2..];
    LabelParts(Label(s[..w], b[..v]), b[v + 1..]);
    assert b == b[..v] + ("\"" + b[v + 1..]);
    assert s == s[..w] + ("=\"" + b);
  }

  lemma {:induction false} PrintedLabelChars(spots: seq<Spot>, after: string)
    requires GoodSpots(spots, after)
    ensures All(NotClose, PrintSpots(spots, after)) && All(NotBreak, PrintSpots(spots, after))
    ensures spots != [] ==> PrintSpots(spots, after) != []
  {
    if spots != [] {
      PrintedLabelChars(spots[1..], after);
      LabelChars(spots[0].tag);
      AllConcat(NotClose, PrintLabel(spots[0].tag), PrintSpots(spots[1..], after));
      AllConcat(NotBreak, PrintLabel(spots[0].tag), PrintSpots(spots[1..], after));
    }
  }

  lemma LabelChars(tag: Label)
    requires GoodLabel(tag)
    ensures All(NotClose, PrintLabel(tag)) && All(NotBreak, PrintLabel(tag)) && PrintLabel(tag) != []
  {
  }

  // ---- metric lines ----

  /** The pattern matches this text: prefix and name, labels in braces, a gap, the value, and a rest that is free but
      does not go on with the value. */
  predicate Fits(s: string, suffix: string, labels: string, gap: string, value: string, rest: string) {
    && suffix != [] && All(IsWord, suffix)
    && labels != [] && All(NotClose, labels)
    && gap != [] && All(IsSpace, gap)
    && value != [] && All(IsValueChar, value)
    && (rest == [] || !IsValueChar(rest[0]))
    && s == PREFIX + (suffix + ("{" + (labels + ("}" + (gap + (value + rest))))))
  }

  lemma MatchValueFits(gap: string, value: string, rest: string)
    requires gap != [] && All(IsSpace, gap) && value != [] && All(IsValueChar, value)
    requires rest == [] || !IsValueChar(rest[0])
    ensures MatchValue(gap + (value + rest)) == Some(value)
  {
    ValueCharNotSpace(value[0]);
    RunIs(IsSpace, gap, value + rest);
    assert (gap + (value + rest))[|gap|..] == value + rest && (value + rest)[..|value|] == value;
    RunIs(IsValueChar, value, rest);
  }

  lemma MatchLabelsFit(labels: string, tail: string, value: string)
    requires labels != [] && All(NotClose, labels) && MatchValue(tail) == Some(value)
    ensures MatchLabels(labels + ("}" + tail)) == Some((labels, value))
  {
    RunIs(NotClose, labels, "}" + tail);
    var s := labels + ("}" + tail);
    assert s[|labels| + 1..] == tail && s[..|labels|] == labels;
  }

  lemma MatchNamed(suffix: string, body: string, labels: string, value: string)
    requires suffix != [] && All(IsWord, suffix) && MatchLabels(body) == Some((labels, value))
    ensures MatchName(suffix + ("{" + body)) == Some(Raw(PREFIX + suffix, labels, value))
  {
    var s := suffix + ("{" + body);
    RunIs(IsWord, suffix, "{" + body);
    assert s[|suffix| + 1..] == body && s[..|suffix|] == suffix;
  }

  /** Every text that fits is matched, and its three groups are found. */
  lemma FitsMatch(s: string, suffix: string, labels: string, gap: string, value: string, rest: string)
    requires Fits(s, suffix, labels, gap, value, rest)
    ensures MatchMetric(s) == Some(Raw(PREFIX + suffix, labels, value))
  {
    hide MatchName, MatchLabels, MatchValue;
    var tail := gap + (value + rest);
    var body := labels + ("}" + tail);
    MatchValueFits(gap, value, rest);
    MatchLabelsFit(labels, tail, value);
    MatchNamed(suffix, body, labels, value);
    CutPrefix(PREFIX, suffix + ("{" + body));
  }

  /** And no other text is. */
  lemma MatchFits(s: string) returns (suffix: string, gap: string, rest: string)
    requires MatchMetric(s).Some?
    ensures
      var raw := MatchMetric(s).value;
      raw.metric == PREFIX + suffix && Fits(s, suffix, raw.labels, gap, raw.value, rest)
  {
    var t := s[|PREFIX|..];
    assert s == PREFIX + t && MatchName(t).Some?;
    hide MatchMetric, Run;
    suffix := t[..Run(IsWord, t)];
    var body := NameFits(t);
    var labels, tail := LabelsFit(body);
    hide MatchName, MatchLabels, MatchValue;
    gap, rest := ValueFits(tail);
  }

  lemma NameFits(t: string) returns (body: string)
    requires MatchName(t).Some?
    ensures
      var suffix := t[..Run(IsWord, t)];
      && suffix != [] && t == suffix + ("{" + body) && MatchLabels(body).Some?
      && MatchName(t) == Some(Raw(PREFIX + suffix, MatchLabels(body).value.0, MatchLabels(body).value.1))
  {
    hide Run, MatchLabels;
    body := t[Run(IsWord, t) + 1..];
    assert t == t[..Run(IsWord, t)] + ("{" + body);
  }

  lemma LabelsFit(body: string) returns (labels: string, tail: string)
    requires MatchLabels(body).Some?
    ensures labels != [] && All(NotClose, labels) && body == labels + ("}" + tail)
    ensures MatchValue(tail).Some? && MatchLabels(body) == Some((labels, MatchValue(tail).value))
  {
    hide MatchValue;
    var l := Run(NotClose, body);
    labels, tail := body[..l], body[l + 1..];
    assert body == labels + ("}" + tail);
  }

  lemma ValueFits(tail: string) returns (gap: string, rest: string)
    requires MatchValue(tail).Some?
    ensures
      var value := MatchValue(tail).value;
      && gap != [] && All(IsSpace, gap) && value != [] && All(IsValueChar, value)
      && (rest == [] || !IsValueChar(rest[0])) && tail == gap + (value + rest)
  {
    gap := tail[..Run(IsSpace, tail)];
    var more := tail[|gap|..];
    rest := more[Run(IsValueChar, more)..];
  }

  lemma CutPrefix(p: string, rest: string)
    ensures p <= p + rest && (p + rest)[|p|..] == rest
  {
  }
}

/** Parsing one scrape into samples, and the round trip with the printed form. */
module DcgmParse {
  import opened Seqs
  import opened DcgmText

  datatype Sample = Sample(metric: string, gpuIndex: int, gpuUuid: string, hostname: string, value: real,
                           labels: map<string, string>)

  /** The metrics of `DcgmMetricType`, without their common prefix. */
  const SUFFIXES: set<string> := {
    "GPU_UTIL", "MEM_COPY_UTIL", "ENC_UTIL", "DEC_UTIL", "FB_USED", "FB_FREE", "GPU_TEMP", "MEM_MAX_TEMP",
    "POWER_USAGE", "POWER_MGMT_LIMIT", "SM_CLOCK", "MEM_CLOCK", "PCIE_TX_THROUGHPUT", "PCIE_RX_THROUGHPUT",
    "NVLINK_TX_THROUGHPUT", "NVLINK_RX_THROUGHPUT", "XID_ERRORS", "ECC_VOLATILE", "ECC_AGGREGATE",
    "TENSOR_ACTIVITY", "DRAM_ACTIVITY", "NVLINK_CRC_FLIT_ERRORS", "RETIRED_PAGES", "REMAPPED_ROWS"
  }

  predicate Known(metric: string) { PREFIX <= metric && metric[|PREFIX|..] in SUFFIXES }

  function Get(labels: map<string, string>, key: string, default: string): string {
    if key in labels then labels[key] else default
  }

  /** A line is passed over, gives a sample, or raises and ends the scrape. */
  datatype LineResult = Skip | Good(sample: Sample) | Raises

  function Interpret(metric: string, labels: map<string, string>, value: real): LineResult {
    match ParseInt(Get(labels, "gpu", "-1"))
    case None => Raises
    case Some(gpu) =>
      if !Known(metric) then Skip
      else
        Good(Sample(metric, gpu, Get(labels, "UUID", Get(labels, "gpu_uuid", "")),
                    Get(labels, "Hostname", Get(labels, "hostname", "")), value, labels))
  }

  function ParseLine(line: string): LineResult {
    match MatchMetric(Strip(line))
    case None => Skip
    case Some(raw) =>
      match ParseFloat(raw.value)
      case None => Skip
      case Some(value) => Interpret(raw.metric, Dict(FindLabels(raw.labels)), value)
  }

  function Lift(r: LineResult): Option<seq<Sample>> {
    match r
    case Skip => Some([])
    case Good(sample) => Some([sample])
    case Raises => None
  }

  function Join(a: Option<seq<Sample>>, b: Option<seq<Sample>>): Option<seq<Sample>> {
    if a.Some? && b.Some? then Some(a.value + b.value) else None
  }

  /** All samples in order, or None if some line raises. */
  function Collect(results: seq<LineResult>): Option<seq<Sample>> {
    if results == [] then Some([]) else Join(Collect(results[..|results| - 1]), Lift(results[|results| - 1]))
  }

  function ParseLines(lines: seq<string>): seq<LineResult> { Map(ParseLine, lines) }

  function ParseText(text: string): Option<seq<Sample>> { Collect(ParseLines(SplitLines(text))) }

  lemma JoinAssociates(a: Option<seq<Sample>>, b: Option<seq<Sample>>, c: Option<seq<Sample>>)
    ensures Join(Join(a, b), c) == Join(a, Join(b, c))
  {
    if a.Some? && b.Some? && c.Some? {
      assert (a.value + b.value) + c.value == a.value + (b.value + c.value);
    }
  }

  lemma JoinEmpty(a: Option<seq<Sample>>)
    ensures Join(a, Some([])) == a && Join(Some([]), a) == a
  {
    if a.Some? {
      assert a.value + [] == a.value && [] + a.value == a.value;
    }
  }

  lemma {:induction false} CollectConcat(a: seq<LineResult>, b: seq<LineResult>)
    ensures Collect(a + b) == Join(Collect(a), Collect(b))
  {
    if b == [] {
      assert a + b == a;
      JoinEmpty(Collect(a));
    } else {
      assert (a + b)[..|a + b| - 1] == a + b[..|b| - 1];
      CollectConcat(a, b[..|b| - 1]);
      JoinAssociates(Collect(a), Collect(b[..|b| - 1]), Lift(b[|b| - 1]));
    }
  }

  lemma CollectFirst(r: LineResult, rest: seq<LineResult>)
    ensures Collect([r] + rest) == Join(Lift(r), Collect(rest))
  {
    assert [r][..0] == [];
    JoinEmpty(Lift(r));
    CollectConcat([r], rest);
  }

  /** Parsing distributes over concatenation of texts that end in a line feed. */
  lemma ParseConcat(s: string, t: string)
    requires s != [] ==> s[|s| - 1] == '\n'
    ensures ParseText(s + t) == Join(ParseText(s), ParseText(t))
  {
    SplitConcat(s, t);
    MapConcat(ParseLine, SplitLines(s), SplitLines(t));
    CollectConcat(ParseLines(SplitLines(s)), ParseLines(SplitLines(t)));
  }

  lemma ParseFirstLine(line: string, rest: string)
    requires All(NotBreak, line)
    ensures ParseText(line + "\n" + rest) == Join(Lift(ParseLine(line)), ParseText(rest))
  {
    SplitFirstLine(line, rest);
    MapConcat(ParseLine, [line], SplitLines(rest));
    var first := ParseLines([line]);
    assert first == [first[0]];
    CollectFirst(first[0], ParseLines(SplitLines(rest)));
  }

  // ---- round trip ----

  /** How a metric line is written: indentation, name, labels with their separators, gap, and what follows the value
      (such as a timestamp). */
  datatype Line = Line(indent: string, suffix: string, spots: seq<Spot>, after: string, gap: string, trailer: string)

  /** One line of an exposition: a reading of a GPU, or some other line. */
  datatype Item = Reading(line: Line, gpu: int, number: Number) | Other(text: string)

  predicate Blank(s: string) { All(IsSpace, s) && All(NotBreak, s) }

  predicate GoodLine(line: Line) {
    && line.suffix != [] && All(IsWord, line.suffix)
    && line.spots != [] && GoodSpots(line.spots, line.after)
    && Blank(line.indent) && Blank(line.gap) && line.gap != []
    && All(NotBreak, line.trailer) && (line.trailer == [] || !IsValueChar(line.trailer[0]))
  }

  function PrintLine(line: Line, value: string): string {
    line.indent + (PrintCore(line, value) + line.trailer)
  }

  function PrintCore(line: Line, value: string): string {
    PREFIX + (line.suffix + ("{" + (PrintSpots(line.spots, line.after) + ("}" + (line.gap + value)))))
  }

  /** The label text, if there is one, spells the GPU index; without a label the index is -1. */
  predicate SpellsGpu(spots: seq<Spot>, gpu: int) {
    ParseInt(Get(Dict(Labels(spots)), "gpu", "-1")) == Some(gpu)
  }

  predicate WellFormed(item: Item) {
    match item
    case Reading(line, gpu, number) => GoodLine(line) && GoodNumber(number) && SpellsGpu(line.spots, gpu)
    case Other(text) => All(NotBreak, text) && ParseLine(text) == Skip
  }

  function PrintItem(item: Item): string {
    match item
    case Reading(line, _, number) => PrintLine(line, PrintNumber(number))
    case Other(text) => text
  }

  function PrintItems(items: seq<Item>): string {
    if items == [] then [] else PrintItem(items[0]) + "\n" + PrintItems(items[1..])
  }

  /** The samples that the readings of known metrics stand for. */
  function SamplesOf(items: seq<Item>): seq<Sample> {
    if items == [] then [] else SampleOf(items[0]) + SamplesOf(items[1..])
  }

  function SampleOf(item: Item): seq<Sample> {
    match item
    case Other(_) => []
    case Reading(line, gpu, number) =>
      if line.suffix !in SUFFIXES then []
      else
        var tags := Dict(Labels(line.spots));
        [Sample(PREFIX + line.suffix, gpu, Get(tags, "UUID", Get(tags, "gpu_uuid", "")),
                Get(tags, "Hostname", Get(tags, "hostname", "")), NumberValue(number), tags)]
  }

  predicate GoodValue(value: string) { value != [] && All(IsValueChar, value) }

  lemma WordsNotBreaks(s: string)
    requires All(IsWord, s) || All(IsValueChar, s)
    ensures All(NotBreak, s)
  {
  }

  lemma PrintedOnOneLine(line: Line, value: string)
    requires GoodLine(line) && GoodValue(value)
    ensures All(NotBreak, PrintLine(line, value))
  {
    hide GoodSpots;
    PrintedLabelChars(line.spots, line.after);
    WordsNotBreaks(line.suffix);
    WordsNotBreaks(value);
    WordsNotBreaks(PREFIX);
    AllConcat4(NotBreak, PrintSpots(line.spots, line.after), "}", line.gap, value);
    AllConcat(NotBreak, "{", PrintSpots(line.spots, line.after) + ("}" + (line.gap + value)));
    AllConcat(NotBreak, line.suffix, "{" + (PrintSpots(line.spots, line.after) + ("}" + (line.gap + value))));
    AllConcat(NotBreak, PrintCore(line, value), line.trailer);
  }

  /** Stripping drops the indentation and the blanks at the end of the trailer. */
  lemma StripPrinted(line: Line, value: string) returns (rest: string)
    requires GoodLine(line) && GoodValue(value)
    ensures Strip(PrintLine(line, value)) == PrintCore(line, value) + rest
    ensures rest == [] || !IsValueChar(rest[0])
  {
    hide GoodSpots;
    var core := PrintCore(line, value);
    assert core == PREFIX + core[|PREFIX|..];
    assert core[0] == PREFIX[0];
    RunIs(IsSpace, line.indent, core + line.trailer);
    assert PrintLine(line, value)[|line.indent|..] == core + line.trailer;
    assert core[|core| - 1] == value[|value| - 1];
    ValueCharNotSpace(value[|value| - 1]);
    rest := StripRight(line.trailer);
    StripBehind(core, line.trailer);
    StripPrefix(line.trailer);
  }

  lemma {:induction false} StripBehind(core: string, tail: string)
    requires core != [] && !IsSpace(core[|core| - 1])
    ensures StripRight(core + tail) == core + StripRight(tail)
  {
    if tail == [] {
      assert core + tail == core;
    } else if IsSpace(tail[|tail| - 1]) {
      assert (core + tail)[..|core + tail| - 1] == core + tail[..|tail| - 1];
      StripBehind(core, tail[..|tail| - 1]);
    }
  }

  lemma {:induction false} StripPrefix(s: string)
    ensures StripRight(s) <= s
  {
    if s != [] && IsSpace(s[|s| - 1]) {
      StripPrefix(s[..|s| - 1]);
    }
  }

  lemma MatchesAsPrinted(line: Line, value: string)
    requires GoodLine(line) && GoodValue(value)
    ensures MatchMetric(Strip(PrintLine(line, value)))
         == Some(Raw(PREFIX + line.suffix, PrintSpots(line.spots, line.after), value))
  {
    hide GoodSpots, Strip, MatchMetric, PrintLine;
    var labels := PrintSpots(line.spots, line.after);
    PrintedLabelChars(line.spots, line.after);
    var rest := StripPrinted(line, value);
    CoreWithRest(line, value, rest);
    FitsMatch(PrintCore(line, value) + rest, line.suffix, labels, line.gap, value, rest);
  }

  lemma CoreWithRest(line: Line, value: string, rest: string)
    ensures PrintCore(line, value) + rest == PREFIX + (line.suffix +
      ("{" + (PrintSpots(line.spots, line.after) + ("}" + (line.gap + (value + rest))))))
  {
  }

  lemma ParsePrintedReading(line: Line, number: Number)
    requires GoodLine(line) && GoodNumber(number)
    ensures ParseLine(PrintLine(line, PrintNumber(number)))
         == Interpret(PREFIX + line.suffix, Dict(Labels(line.spots)), NumberValue(number))
  {
    hide GoodSpots, GoodNumber, ParseFloat, NumberValue, PrintNumber, Strip, MatchMetric, FindLabels, Interpret;
    NumberChars(number);
    MatchesAsPrinted(line, PrintNumber(number));
    NumberParses(number);
    FindPrintedLabels(line.spots, line.after);
  }

  lemma ParsePrintedItem(item: Item)
    requires WellFormed(item)
    ensures All(NotBreak, PrintItem(item))
    ensures Lift(ParseLine(PrintItem(item))) == Some(SampleOf(item))
  {
    hide GoodSpots, GoodNumber, NumberValue, PrintNumber, ParseLine, PrintLine, ParseInt;
    match item
    case Reading(line, gpu, number) =>
      NumberChars(number);
      PrintedOnOneLine(line, PrintNumber(number));
      ParsePrintedReading(line, number);
      CutPrefix(PREFIX, line.suffix);
    case Other(_) =>
  }

  predicate AllWellFormed(items: seq<Item>) { forall i :: 0 <= i < |items| ==> WellFormed(items[i]) }

  /** The round trip: printing any readings, in whatever layout and with whatever number text, interleaved with other
      lines, and parsing the text gives back exactly the samples of the known metrics, in order. */
  lemma {:induction false} RoundTrip(items: seq<Item>)
    requires AllWellFormed(items)
    ensures ParseText(PrintItems(items)) == Some(SamplesOf(items))
  {
    hide WellFormed, ParseText, PrintItem, SampleOf, ParseLine;
    if items == [] {
      NothingParsed();
    } else {
      ParsePrintedItem(items[0]);
      ParseFirstLine(PrintItem(items[0]), PrintItems(items[1..]));
      RoundTrip(items[1..]);
    }
  }

  lemma NothingParsed()
    ensures ParseText([]) == Some([])
  {
  }

  /** Lines that do not start with the metric prefix, comments among them, are passed over. */
  lemma CommentSkipped(text: string)
    requires !(PREFIX <= Strip(text))
    ensures ParseLine(text) == Skip
  {
  }

  /** A metric line whose value text is no float is passed over, whatever its labels. */
  lemma BadValueSkipped(line: Line, value: string)
    requires GoodLine(line) && GoodValue(value) && !(exists n: Number :: GoodNumber(n) && PrintNumber(n) == value)
    ensures ParseLine(PrintLine(line, value)) == Skip
  {
    hide GoodLine, GoodValue, GoodNumber, PrintNumber, PrintLine, Strip, MatchMetric, ParseFloat;
    MatchesAsPrinted(line, value);
    if ParseFloat(value).Some? {
      var n := FloatAccepts(value);
    }
  }

  /** An unknown metric is passed over only if its GPU label is an integer: otherwise it fails the whole scrape. */
  lemma UnknownMetric(line: Line, number: Number)
    requires GoodLine(line) && GoodNumber(number) && line.suffix !in SUFFIXES
    ensures ParseLine(PrintLine(line, PrintNumber(number)))
         == if ParseInt(Get(Dict(Labels(line.spots)), "gpu", "-1")).Some? then Skip else Raises
  {
    hide GoodLine, GoodNumber, PrintNumber, PrintLine, ParseLine, ParseInt;
    ParsePrintedReading(line, number);
    CutPrefix(PREFIX, line.suffix);
  }

  /** The names of the known metrics are ones that the pattern can match. */
  lemma KnownNamesMatch(suffix: string)
    requires suffix in SUFFIXES
    ensures suffix != [] && All(IsWord, suffix)
  {
    NamesMatch1(suffix);
    NamesMatch2(suffix);
    NamesMatch3(suffix);
    NamesMatch4(suffix);
    NamesMatch5(suffix);
    NamesMatch6(suffix);
    NamesMatch7(suffix);
    NamesMatch8(suffix);
  }

  lemma NamesMatch1(suffix: string)
    ensures suffix in {"GPU_UTIL", "MEM_COPY_UTIL", "ENC_UTIL"} ==>
      suffix != [] && All(IsWord, suffix)
  {
  }

  lemma NamesMatch2(suffix: string)
    ensures suffix in {"DEC_UTIL", "FB_USED", "FB_FREE"} ==>
      suffix != [] && All(IsWord, suffix)
  {
  }

  lemma NamesMatch3(suffix: string)
    ensures suffix in {"GPU_TEMP", "MEM_MAX_TEMP", "POWER_USAGE"} ==>
      suffix != [] && All(IsWord, suffix)
  {
  }

  lemma NamesMatch4(suffix: string)
    ensures suffix in {"POWER_MGMT_LIMIT", "SM_CLOCK", "MEM_CLOCK"} ==>
      suffix != [] && All(IsWord, suffix)
  {
  }

  lemma NamesMatch5(suffix: string)
    ensures suffix in {"PCIE_TX_THROUGHPUT", "PCIE_RX_THROUGHPUT", "NVLINK_TX_THROUGHPUT"} ==>
      suffix != [] && All(IsWord, suffix)
  {
  }

  lemma NamesMatch6(suffix: string)
    ensures suffix in {"NVLINK_RX_THROUGHPUT", "XID_ERRORS", "ECC_VOLATILE"} ==>
      suffix != [] && All(IsWord, suffix)
  {
  }

  lemma NamesMatch7(suffix: string)
    ensures suffix in {"ECC_AGGREGATE", "TENSOR_ACTIVITY", "DRAM_ACTIVITY"} ==>
      suffix != [] && All(IsWord, suffix)
  {
  }

  lemma NamesMatch8(suffix: string)
    ensures suffix in {"NVLINK_CRC_FLIT_ERRORS", "RETIRED_PAGES", "REMAPPED_ROWS"} ==>
      suffix != [] && All(IsWord, suffix)
  {
  }
}

/** The pipeline object: the stored samples, the scan and the per-GPU index. */
module DcgmPipeline {
  import opened Seqs
  import opened DcgmText
  import opened DcgmParse

  datatype Discovery = Discovery(metrics: set<string>, sampleCount: nat, gpuCount: nat, gpuUuids: set<string>)

  /** One entry of the per-GPU index; values are keyed by metric. */
  datatype GpuRecord = GpuRecord(gpuIndex: int, gpuUuid: string, values: map<string, real>)

  function Metrics(samples: seq<Sample>): set<string> { set s | s in samples :: s.metric }

  function Uuids(samples: seq<Sample>): set<string> { set s | s in samples && s.gpuUuid != "" :: s.gpuUuid }

  function GpuIndices(samples: seq<Sample>): set<int> { set s | s in samples && s.gpuIndex >= 0 :: s.gpuIndex }

  function Describe(samples: seq<Sample>): Discovery {
    Discovery(Metrics(samples), |samples|, |GpuIndices(samples)|, Uuids(samples))
  }

  lemma StatsStep(samples: seq<Sample>, s: Sample)
    ensures Metrics(samples + [s]) == Metrics(samples) + {s.metric}
    ensures Uuids(samples + [s]) == Uuids(samples) + (if s.gpuUuid != "" then {s.gpuUuid} else {})
    ensures GpuIndices(samples + [s]) == GpuIndices(samples) + (if s.gpuIndex >= 0 then {s.gpuIndex} else {})
  {
  }

  lemma StatsNone()
    ensures Metrics([]) == {} && Uuids([]) == {} && GpuIndices([]) == {}
  {
  }

  const NOTHING := Discovery({}, 0, 0, {})

  function OfMetric(metric: string): Sample -> bool { (s: Sample) => s.metric == metric }

  function OfGpu(gpu: int): Sample -> bool { (s: Sample) => s.gpuIndex == gpu }

  /** The linear scan `get_metric`; a negative index asks for all GPUs. */
  function Scan(samples: seq<Sample>, metric: string, gpu: int): seq<Sample> {
    var found := Filter(OfMetric(metric), samples);
    if gpu >= 0 then Filter(OfGpu(gpu), found) else found
  }

  /** The samples of one metric on one GPU, whatever the sign of its index. */
  function Series(samples: seq<Sample>, metric: string, gpu: int): seq<Sample> {
    Filter(OfGpu(gpu), Filter(OfMetric(metric), samples))
  }

  /** The distinct GPU indices in the order in which they first occur. */
  function FirstSeen(samples: seq<Sample>): seq<int> {
    if samples == [] then []
    else
      var before := FirstSeen(samples[..|samples| - 1]);
      var gpu := samples[|samples| - 1].gpuIndex;
      if gpu in before then before else before + [gpu]
  }

  /** A record agrees with the linear scan: the first UUID, and for each metric the last value if there is one. */
  predicate Agrees(r: GpuRecord, samples: seq<Sample>) {
    var own := Filter(OfGpu(r.gpuIndex), samples);
    && own != [] && r.gpuUuid == own[0].gpuUuid
    && (forall m :: m in r.values ==> Series(samples, m, r.gpuIndex) != [])
    && (forall s :: s in own ==>
          s.metric in r.values && r.values[s.metric] == Last(Series(samples, s.metric, r.gpuIndex)))
  }

  function Last(samples: seq<Sample>): real { if samples == [] then 0.0 else samples[|samples| - 1].value }

  lemma {:induction false} FirstSeenMember(samples: seq<Sample>, gpu: int)
    ensures gpu in FirstSeen(samples) <==> exists s :: s in samples && s.gpuIndex == gpu
  {
    if samples != [] {
      FirstSeenMember(samples[..|samples| - 1], gpu);
      assert samples == samples[..|samples| - 1] + [samples[|samples| - 1]];
    }
  }

  /** Each index once, and in the order of first occurrence: what a part of the samples shows comes first. */
  lemma {:induction false} FirstSeenOrder(samples: seq<Sample>, k: nat)
    requires k <= |samples|
    ensures forall i, j :: 0 <= i < j < |FirstSeen(samples)| ==> FirstSeen(samples)[i] != FirstSeen(samples)[j]
    ensures FirstSeen(samples[..k]) <= FirstSeen(samples)
  {
    if samples != [] {
      var front := samples[..|samples| - 1];
      FirstSeenOrder(front, Min(k, |front|));
      if k < |samples| {
        assert front[..k] == samples[..k];
      } else {
        assert samples[..k] == samples;
      }
    }
  }

  /** One more sample appends to its own series and leaves the others alone. */
  lemma SeriesSnoc(samples: seq<Sample>, s: Sample, metric: string, gpu: int)
    ensures Series(samples + [s], metric, gpu) ==
      Series(samples, metric, gpu) + (if s.metric == metric && s.gpuIndex == gpu then [s] else [])
    ensures Filter(OfGpu(gpu), samples + [s]) == Filter(OfGpu(gpu), samples) + (if s.gpuIndex == gpu then [s] else [])
  {
    FilterConcat(OfMetric(metric), samples, [s]);
    FilterConcat(OfGpu(gpu), Filter(OfMetric(metric), samples), Filter(OfMetric(metric), [s]));
    FilterConcat(OfGpu(gpu), samples, [s]);
  }

  /** `get_metric` keeps, in order, exactly the samples of the metric, of one GPU or (for a negative index) of all. */
  lemma ScanSnoc(samples: seq<Sample>, s: Sample, metric: string, gpu: int)
    ensures Scan([], metric, gpu) == []
    ensures Scan(samples + [s], metric, gpu) ==
      Scan(samples, metric, gpu) + (if s.metric == metric && (gpu < 0 || s.gpuIndex == gpu) then [s] else [])
  {
    SeriesSnoc(samples, s, metric, gpu);
    FilterConcat(OfMetric(metric), samples, [s]);
    assert Filter(OfMetric(metric), [s][1..]) == [];
  }

  predicate Proper(gpu: int) { gpu >= 0 }

  /** The summary of a scrape: the metrics that a scan finds, the number of distinct proper GPU indices, and the
      non-empty UUIDs. */
  lemma DescribeIs(samples: seq<Sample>, metric: string, uuid: string)
    ensures Describe(samples).sampleCount == |samples|
    ensures metric in Describe(samples).metrics <==> Scan(samples, metric, -1) != []
    ensures Describe(samples).gpuCount == |Filter(Proper, FirstSeen(samples))|
    ensures uuid in Describe(samples).gpuUuids <==> uuid != "" && exists s :: s in samples && s.gpuUuid == uuid
  {
    IndicesCounted(samples);
    var found := Scan(samples, metric, -1);
    if found != [] {
      FilterMember(OfMetric(metric), samples, found[0]);
    }
    forall s | s in samples && s.metric == metric ensures found != [] {
      FilterMember(OfMetric(metric), samples, s);
    }
  }

  lemma NoIndices()
    ensures GpuIndices([]) == {} && FirstSeen([]) == [] && Filter(Proper, []) == []
  {
  }

  lemma ProperSnoc(gpus: seq<int>, gpu: int)
    ensures |Filter(Proper, gpus + [gpu])| == |Filter(Proper, gpus)| + (if gpu >= 0 then 1 else 0)
  {
    FilterConcat(Proper, gpus, [gpu]);
    assert Filter(Proper, [gpu][1..]) == [];
  }

  lemma {:induction false} IndicesCounted(samples: seq<Sample>)
    ensures |GpuIndices(samples)| == |Filter(Proper, FirstSeen(samples))|
    ensures forall i :: i in GpuIndices(samples) <==> i >= 0 && i in FirstSeen(samples)
  {
    hide GpuIndices, FirstSeen, Filter, Describe;
    if samples == [] {
      NoIndices();
    } else {
      var (front, s) := (samples[..|samples| - 1], samples[|samples| - 1]);
      IndicesCounted(front);
      assert samples == front + [s];
      StatsStep(front, s);
      FirstSeenSnoc(front, s);
      ProperSnoc(FirstSeen(front), s.gpuIndex);
    }
  }

  lemma OwnSeries(samples: seq<Sample>, metric: string, gpu: int)
    ensures Series(samples, metric, gpu) != [] <==> exists s :: s in Filter(OfGpu(gpu), samples) && s.metric == metric
  {
    var series := Series(samples, metric, gpu);
    if series != [] {
      FilterMember(OfGpu(gpu), Filter(OfMetric(metric), samples), series[0]);
      FilterMember(OfMetric(metric), samples, series[0]);
      FilterMember(OfGpu(gpu), samples, series[0]);
    }
    forall s | s in Filter(OfGpu(gpu), samples) && s.metric == metric ensures series != [] {
      FilterMember(OfGpu(gpu), samples, s);
      FilterMember(OfMetric(metric), samples, s);
      FilterMember(OfGpu(gpu), Filter(OfMetric(metric), samples), s);
    }
  }

  class DcgmIngestionPipeline {
    var samples: seq<Sample>

    constructor ()
      ensures samples == []
    {
      samples := [];
    }

    /** The loop over the lines, given what each of them parses to; None as soon as one raises. */
    method ReadLines(results: seq<LineResult>) returns (parsed: Option<seq<Sample>>, found: Discovery)
      ensures parsed == Collect(results)
      ensures parsed.Some? ==> found == Describe(parsed.value)
    {
      hide Metrics, Uuids, GpuIndices;
      StatsNone();
      var samples: seq<Sample> := [];
      var metrics: set<string>, uuids: set<string>, gpus: set<int> := {}, {}, {};
      for i := 0 to |results|
        invariant Collect(results[..i]) == Some(samples)
        invariant metrics == Metrics(samples) && uuids == Uuids(samples) && gpus == GpuIndices(samples)
      {
        assert results[..i + 1][..i] == results[..i];
        match results[i]
        case Skip =>
          JoinEmpty(Some(samples));
        case Raises =>
          CollectConcat(results[..i + 1], results[i + 1..]);
          assert results[..i + 1] + results[i + 1..] == results;
          return None, NOTHING;
        case Good(s) =>
          StatsStep(samples, s);
          metrics := metrics + {s.metric};
          if s.gpuUuid != "" { uuids := uuids + {s.gpuUuid}; }
          if s.gpuIndex >= 0 { gpus := gpus + {s.gpuIndex}; }
          samples := samples + [s];
      }
      assert results[..|results|] == results;
      parsed, found := Some(samples), Discovery(metrics, |samples|, |gpus|, uuids);
    }

    /** `response` is None when the fetch raises. A scrape that raises keeps the stored samples. */
    method Scrape(response: Option<string>) returns (found: Discovery)
      modifies this
      ensures
        match if response.Some? then ParseText(response.value) else None
        case None => samples == old(samples) && found == NOTHING
        case Some(parsed) => samples == parsed && found == Describe(parsed)
    {
      if response.None? { return NOTHING; }
      var parsed, stats := ReadLines(ParseLines(SplitLines(response.value)));
      if parsed.None? { return NOTHING; }
      samples, found := parsed.value, stats;
    }

    function GetMetric(metric: string, gpu: int): seq<Sample>
      reads this
    {
      Scan(samples, metric, gpu)
    }

    /** The loop body of the index: a first sample opens the record, every sample overwrites its metric. */
    static method IndexOne(order: seq<int>, byGpu: map<int, GpuRecord>, ghost before: seq<Sample>, s: Sample)
      returns (order': seq<int>, byGpu': map<int, GpuRecord>)
      requires Indexed(order, byGpu, before)
      ensures Indexed(order', byGpu', before + [s])
    {
      hide Indexed;
      IndexStep(order, byGpu, before, s);
      order', byGpu' := order, byGpu;
      if s.gpuIndex !in byGpu {
        order' := order + [s.gpuIndex];
        byGpu' := byGpu[s.gpuIndex := GpuRecord(s.gpuIndex, s.gpuUuid, map[])];
      }
      var r := byGpu'[s.gpuIndex];
      byGpu' := byGpu'[s.gpuIndex := Put(r, s)];
      assert byGpu' == byGpu[s.gpuIndex := Put(r, s)];
    }

    /** The per-GPU index: one record per distinct GPU in first-seen order, each agreeing with the scan. */
    method BuildTelemetrySamples() returns (records: seq<GpuRecord>)
      ensures |records| == |FirstSeen(samples)|
      ensures forall i :: 0 <= i < |records| ==>
          records[i].gpuIndex == FirstSeen(samples)[i] && Agrees(records[i], samples)
    {
      var order: seq<int>, byGpu: map<int, GpuRecord> := [], map[];
      for i := 0 to |samples|
        invariant Indexed(order, byGpu, samples[..i])
      {
        assert samples[..i + 1] == samples[..i] + [samples[i]];
        order, byGpu := IndexOne(order, byGpu, samples[..i], samples[i]);
      }
      assert samples[..|samples|] == samples && Indexed(order, byGpu, samples);
      records := Values(order, byGpu);
    }
  }

  /** `list(by_gpu.values())`, in insertion order. */
  function Values(order: seq<int>, byGpu: map<int, GpuRecord>): (records: seq<GpuRecord>)
    requires forall i :: 0 <= i < |order| ==> order[i] in byGpu
    ensures |records| == |order| && forall i :: 0 <= i < |order| ==> records[i] == byGpu[order[i]]
  {
    if order == [] then [] else [byGpu[order[0]]] + Values(order[1..], byGpu)
  }

  function Put(r: GpuRecord, s: Sample): GpuRecord { r.(values := r.values[s.metric := s.value]) }

  /** The loop invariant: the keys in order of first occurrence, and a record for each that agrees with the scan. */
  predicate Indexed(order: seq<int>, byGpu: map<int, GpuRecord>, samples: seq<Sample>) {
    && order == FirstSeen(samples)
    && (forall i :: 0 <= i < |order| ==> order[i] in byGpu)
    && (forall g :: g in byGpu ==> g in order)
    && (forall g :: g in byGpu ==> byGpu[g].gpuIndex == g && Agrees(byGpu[g], samples))
  }

  lemma FirstSeenSnoc(samples: seq<Sample>, s: Sample)
    ensures FirstSeen(samples + [s]) ==
      if s.gpuIndex in FirstSeen(samples) then FirstSeen(samples) else FirstSeen(samples) + [s.gpuIndex]
  {
    assert (samples + [s])[..|samples|] == samples;
  }

  lemma PutKeepsIndex(r: GpuRecord, s: Sample)
    ensures Put(r, s).gpuIndex == r.gpuIndex
  {
  }

  lemma IndexStep(order: seq<int>, byGpu: map<int, GpuRecord>, samples: seq<Sample>, s: Sample)
    requires Indexed(order, byGpu, samples)
    ensures
      var known := s.gpuIndex in byGpu;
      var start := if known then byGpu[s.gpuIndex] else GpuRecord(s.gpuIndex, s.gpuUuid, map[]);
      Indexed(if known then order else order + [s.gpuIndex], byGpu[s.gpuIndex := Put(start, s)], samples + [s])
  {
    hide Agrees, FirstSeen, Put;
    var longer := samples + [s];
    FirstSeenSnoc(samples, s);
    var start := if s.gpuIndex in byGpu then byGpu[s.gpuIndex] else GpuRecord(s.gpuIndex, s.gpuUuid, map[]);
    var after := byGpu[s.gpuIndex := Put(start, s)];
    forall g | g in after ensures after[g].gpuIndex == g && Agrees(after[g], longer) {
      PutKeepsIndex(start, s);
      AgreesStep(samples, s, g, if g in byGpu then Some(byGpu[g]) else None, after[g]);
    }
  }

  /** How one loop step changes the record of GPU g. */
  lemma AgreesStep(samples: seq<Sample>, s: Sample, g: int, old': Option<GpuRecord>, r: GpuRecord)
    requires old'.Some? ==> old'.value.gpuIndex == g && Agrees(old'.value, samples)
    requires old'.None? ==> g == s.gpuIndex && g !in FirstSeen(samples)
    requires
      var start := if old'.Some? then old'.value else GpuRecord(g, s.gpuUuid, map[]);
      r == if g == s.gpuIndex then Put(start, s) else start
    ensures Agrees(r, samples + [s])
  {
    hide Filter, FirstSeen;
    if old'.Some? && g == s.gpuIndex {
      AgreesMore(samples, s, old'.value);
    } else if old'.Some? {
      AgreesStill(samples, s, r);
    } else {
      AgreesFirst(samples, s);
    }
  }

  /** A sample of another GPU. */
  lemma AgreesStill(samples: seq<Sample>, s: Sample, r: GpuRecord)
    requires Agrees(r, samples) && r.gpuIndex != s.gpuIndex
    ensures Agrees(r, samples + [s])
  {
    hide Filter, Series;
    SeriesSnoc(samples, s, s.metric, r.gpuIndex);
    forall m ensures Series(samples + [s], m, r.gpuIndex) == Series(samples, m, r.gpuIndex) {
      SeriesSnoc(samples, s, m, r.gpuIndex);
    }
  }

  /** A further sample of the same GPU. */
  lemma AgreesMore(samples: seq<Sample>, s: Sample, r: GpuRecord)
    requires Agrees(r, samples) && r.gpuIndex == s.gpuIndex
    ensures Agrees(Put(r, s), samples + [s])
  {
    hide Filter, Series;
    SeriesSnoc(samples, s, s.metric, r.gpuIndex);
    forall m ensures Series(samples + [s], m, r.gpuIndex)
                  == Series(samples, m, r.gpuIndex) + (if m == s.metric then [s] else []) {
      SeriesSnoc(samples, s, m, r.gpuIndex);
    }
  }

  /** The first sample of a GPU. */
  lemma AgreesFirst(samples: seq<Sample>, s: Sample)
    requires s.gpuIndex !in FirstSeen(samples)
    ensures Agrees(Put(GpuRecord(s.gpuIndex, s.gpuUuid, map[]), s), samples + [s])
  {
    hide Filter, FirstSeen, Series;
    FirstSeenMember(samples, s.gpuIndex);
    FilterNone(OfGpu(s.gpuIndex), samples);
    SeriesSnoc(samples, s, s.metric, s.gpuIndex);
    assert Filter(OfGpu(s.gpuIndex), samples + [s]) == [s];
  }

  /** For a GPU with a proper index the record holds exactly the metrics that `get_metric` finds, each with the value
      of the last sample found. */
  lemma IndexMatchesScan(r: GpuRecord, samples: seq<Sample>, metric: string)
    requires Agrees(r, samples) && r.gpuIndex >= 0
    ensures metric in r.values <==> Scan(samples, metric, r.gpuIndex) != []
    ensures metric in r.values ==> r.values[metric] == Last(Scan(samples, metric, r.gpuIndex))
  {
    OwnSeries(samples, metric, r.gpuIndex);
  }
}
