/** `getInterval` (main.go:86-99): the refresh interval in seconds, taken
    from the value of the AWS_API_INTERVAL environment variable, which is
    passed in as a string.

    `Atoi` stands for Go's `strconv.Atoi` on a 64-bit platform. It accepts an
    optional '+' or '-', then one or more ASCII digits and nothing else, with
    a value that fits a signed 64-bit integer. It rejects everything else
    with a syntax error or a range error. The digits are read left to right
    as an unsigned 64-bit number, and a range error is reported as soon as
    that number overflows, even when a character that is not a digit
    follows. */
module Interval {
  import opened Wrappers
  import opened Errors

  const DefaultIntervalSeconds := 300

  const MinInt := -0x8000_0000_0000_0000
  const MaxInt := 0x7fff_ffff_ffff_ffff
  const MaxUint := 0xffff_ffff_ffff_ffff

  predicate IsDigit(c: char) {
    '0' <= c <= '9'
  }

  predicate IsSign(c: char) {
    c == '+' || c == '-'
  }

  predicate AllDigits(s: string) {
    forall i :: 0 <= i < |s| ==> IsDigit(s[i])
  }

  /** An optional sign followed by at least one digit, and nothing else. */
  predicate IsDecimalText(s: string) {
    |s| > 0 && (IsSign(s[0]) ==> |s| > 1) &&
    forall i :: 0 <= i < |s| ==> IsDigit(s[i]) || (i == 0 && IsSign(s[i]))
  }

  function DigitValue(c: char): nat
    requires IsDigit(c)
  {
    c as int - '0' as int
  }

  /** The value of a string of decimal digits. */
  function Decimal(s: string): nat
    requires AllDigits(s)
    decreases |s|
  {
    if |s| == 0 then 0 else Decimal(s[..|s| - 1]) * 10 + DigitValue(s[|s| - 1])
  }

  /** The longest run of digits at the start of `s`. */
  function DigitPrefix(s: string): (p: string)
    ensures |p| <= |s| && p == s[..|p|] && AllDigits(p)
    ensures |p| < |s| ==> !IsDigit(s[|p|])
    decreases |s|
  {
    if |s| == 0 || !IsDigit(s[0]) then [] else [s[0]] + DigitPrefix(s[1..])
  }

  /** `strconv.Atoi`: the value of a signed decimal string, or the kind of
      error it reports. */
  function Atoi(s: string): (r: Result<int, NumError>)
    ensures r.Ok? ==> IsDecimalText(s) && MinInt <= r.value <= MaxInt
    ensures r.Ok? && s[0] == '-' ==> r.value <= 0
    ensures IsDecimalText(s) ==> r != Err(ErrSyntax)
    ensures !IsDecimalText(s) ==> r.Err?
  {
    var body := if |s| > 0 && IsSign(s[0]) then s[1..] else s;
    assert forall i :: 0 < i < |s| && IsSign(s[0]) ==> s[i] == body[i - 1];
    var digits := DigitPrefix(body);
    if Decimal(digits) > MaxUint then Err(ErrRange)
    else if |body| == 0 || |digits| < |body| then Err(ErrSyntax)
    else
      assert digits == body;
      var n: int := if s[0] == '-' then -(Decimal(digits) as int) else Decimal(digits);
      if MinInt <= n <= MaxInt then Ok(n) else Err(ErrRange)
  }

  /** `getInterval`: 300 when the setting is empty, otherwise its decimal
      value, or a configuration error that wraps `Atoi`'s error. */
  function GetInterval(env: string): (r: Result<int, Error>)
    ensures env == "" ==> r == Ok(DefaultIntervalSeconds)
    ensures env != "" ==> (r.Ok? <==> Atoi(env).Ok?)
    ensures env != "" && r.Ok? ==> r.value == Atoi(env).value
    ensures r.Err? ==> r.error == ConfigFailed(env, Atoi(env).error)
  {
    if |env| == 0 then Ok(DefaultIntervalSeconds)
    else match Atoi(env)
      case Err(e) => Err(ConfigFailed(env, e))
      case Ok(n) => Ok(n)
  }

  // ---------------------------------------------------------------------
  // A decimal formatter, `Itoa`, the inverse the parser is proved against
  // ---------------------------------------------------------------------

  function DigitChar(d: nat): (c: char)
    requires d < 10
    ensures IsDigit(c) && DigitValue(c) == d
  {
    ('0' as int + d) as char
  }

  /** The shortest decimal digits of `m`. */
  function NatDigits(m: nat): (s: string)
    ensures |s| > 0 && AllDigits(s)
    decreases m
  {
    if m < 10 then [DigitChar(m)] else NatDigits(m / 10) + [DigitChar(m % 10)]
  }

  /** The decimal form of `n`, as `strconv.Itoa` writes it. */
  function Itoa(n: int): string {
    if n < 0 then "-" + NatDigits(-n) else NatDigits(n)
  }

  /** `k` zeros. */
  function Zeros(k: nat): (s: string)
    ensures |s| == k && AllDigits(s)
    decreases k
  {
    if k == 0 then "" else "0" + Zeros(k - 1)
  }

  /** The value that `sign` ("", "+" or "-") gives to the magnitude `m`. */
  function Signed(sign: string, m: nat): int {
    if sign == "-" then -(m as int) else m
  }

  lemma {:induction false} DecimalOfDigits(m: nat)
    ensures Decimal(NatDigits(m)) == m
    decreases m
  {
    if m >= 10 {
      DecimalOfDigits(m / 10);
      var s := NatDigits(m);
      assert s[..|s| - 1] == NatDigits(m / 10);
    }
  }

  lemma {:induction false} DecimalOfZeroPrefix(s: string)
    requires AllDigits(s)
    ensures AllDigits("0" + s) && Decimal("0" + s) == Decimal(s)
    decreases |s|
  {
    assert AllDigits("0" + s);
    if |s| > 0 {
      var p := s[..|s| - 1];
      DecimalOfZeroPrefix(p);
      assert ("0" + s)[..|"0" + s| - 1] == "0" + p;
    }
  }

  lemma {:induction false} DecimalOfZeros(k: nat, s: string)
    requires AllDigits(s)
    ensures AllDigits(Zeros(k) + s) && Decimal(Zeros(k) + s) == Decimal(s)
    decreases k
  {
    if k > 0 {
      var t := Zeros(k - 1) + s;
      DecimalOfZeros(k - 1, s);
      DecimalOfZeroPrefix(t);
      assert Zeros(k) + s == "0" + t;
    } else {
      assert Zeros(k) + s == s;
    }
  }

  lemma {:induction false} DecimalPositive(d: string)
    requires |d| > 0 && AllDigits(d) && d[0] != '0'
    ensures Decimal(d) >= 1
    decreases |d|
  {
    if |d| > 1 {
      DecimalPositive(d[..|d| - 1]);
    }
  }

  /** Digits without a leading zero are the shortest form of their value. */
  lemma {:induction false} CanonicalDigits(d: string)
    requires |d| > 0 && AllDigits(d) && d[0] != '0'
    ensures NatDigits(Decimal(d)) == d
    decreases |d|
  {
    var x := d[|d| - 1];
    assert DigitChar(DigitValue(x)) == x;
    if |d| > 1 {
      var p := d[..|d| - 1];
      DecimalPositive(p);
      CanonicalDigits(p);
      assert Decimal(d) / 10 == Decimal(p) && Decimal(d) % 10 == DigitValue(x);
      assert d == p + [x];
    } else {
      assert d == [x];
    }
  }

  /** Every non-empty digit string is `k` zeros followed by the shortest
      digits of its value. */
  lemma {:induction false} DigitsShape(d: string) returns (k: nat)
    requires |d| > 0 && AllDigits(d)
    ensures d == Zeros(k) + NatDigits(Decimal(d))
    decreases |d|
  {
    if d[0] != '0' || |d| == 1 {
      if d[0] != '0' {
        CanonicalDigits(d);
      } else {
        assert d == NatDigits(0);
      }
      k := 0;
      assert Zeros(0) + NatDigits(Decimal(d)) == NatDigits(Decimal(d));
    } else {
      var d' := d[1..];
      assert d == "0" + d';
      DecimalOfZeroPrefix(d');
      var k' := DigitsShape(d');
      k := k' + 1;
      ConcatAssoc("0", Zeros(k'), NatDigits(Decimal(d')));
    }
  }

  lemma {:induction false} DigitPrefixOf(d: string, rest: string)
    requires AllDigits(d) && (|rest| == 0 || !IsDigit(rest[0]))
    ensures DigitPrefix(d + rest) == d
    decreases |d|
  {
    if |d| > 0 {
      assert (d + rest)[1..] == d[1..] + rest;
      DigitPrefixOf(d[1..], rest);
      assert d == [d[0]] + d[1..];
    } else {
      assert d + rest == rest;
    }
  }

  lemma ConcatAssoc(a: string, b: string, c: string)
    ensures a + b + c == a + (b + c)
  {
  }

  /** Every well-formed setting: an optional sign, any number of leading
      zeros and the digits of `m` parse to the signed value when it fits 64
      bits, and give a range error otherwise. With `DigitsShape` this covers
      every string of the form `IsDecimalText` describes. */
  lemma AtoiShapes(sign: string, k: nat, m: nat)
    requires sign == "" || sign == "+" || sign == "-"
    ensures Atoi(sign + Zeros(k) + NatDigits(m)) ==
              if MinInt <= Signed(sign, m) <= MaxInt then Ok(Signed(sign, m)) else Err(ErrRange)
  {
    var zeros, digits := Zeros(k), NatDigits(m);
    var body := zeros + digits;
    DecimalOfZeros(k, digits);
    DecimalOfDigits(m);
    DigitPrefixOf(body, "");
    assert body + "" == body;
    ConcatAssoc(sign, zeros, digits);
    AtoiOfBody(sign, body);
  }

  /** `Atoi` on a sign followed by a non-empty digit string. */
  lemma AtoiOfBody(sign: string, body: string)
    requires sign == "" || sign == "+" || sign == "-"
    requires |body| > 0 && AllDigits(body) && DigitPrefix(body) == body
    ensures Atoi(sign + body) ==
              if MinInt <= Signed(sign, Decimal(body)) <= MaxInt then Ok(Signed(sign, Decimal(body))) else Err(ErrRange)
  {
    var s := sign + body;
    if sign == "" {
      assert s == body && !IsSign(s[0]);
    } else {
      assert s[1..] == body && IsSign(s[0]);
      assert (s[0] == '-') == (sign == "-");
    }
  }

  /** Every string `IsDecimalText` accepts is a sign ("", "+" or "-"),
      `k` zeros and the shortest digits of a magnitude `m`, so `AtoiShapes`
      gives the outcome of `Atoi` on all of them. */
  lemma DecimalTextShape(s: string) returns (sign: string, k: nat, m: nat)
    requires IsDecimalText(s)
    ensures sign == "" || sign == "+" || sign == "-"
    ensures s == sign + Zeros(k) + NatDigits(m)
  {
    var body;
    if IsSign(s[0]) {
      sign, body := s[..1], s[1..];
    } else {
      sign, body := "", s;
    }
    assert s == sign + body;
    assert AllDigits(body) by {
      forall i | 0 <= i < |body| ensures IsDigit(body[i]) {
        assert body[i] == s[i + |sign|];
      }
    }
    k := DigitsShape(body);
    m := Decimal(body);
    ConcatAssoc(sign, Zeros(k), NatDigits(m));
  }

  /** Parsing the decimal form of an integer gives that integer back
      exactly when it fits 64 bits, and a range error otherwise. */
  lemma AtoiItoa(n: int)
    ensures Atoi(Itoa(n)) == if MinInt <= n <= MaxInt then Ok(n) else Err(ErrRange)
  {
    if n < 0 {
      AtoiShapes("-", 0, -n);
      assert "-" + Zeros(0) + NatDigits(-n) == Itoa(n);
    } else {
      AtoiShapes("", 0, n);
      assert "" + Zeros(0) + NatDigits(n) == Itoa(n);
    }
  }

  /** The order of Go's checks: after an optional sign, digits whose value
      overflows an unsigned 64-bit number give a range error even when a
      non-digit follows them, whatever comes after it; with a smaller value
      the non-digit gives a syntax error. */
  lemma AtoiOverflowBeforeSyntax(sign: string, k: nat, m: nat, c: char, rest: string)
    requires sign == "" || sign == "+" || sign == "-"
    requires !IsDigit(c)
    ensures Atoi(sign + Zeros(k) + NatDigits(m) + [c] + rest) ==
              if m > MaxUint then Err(ErrRange) else Err(ErrSyntax)
  {
    var d, tail := Zeros(k) + NatDigits(m), [c] + rest;
    DecimalOfZeros(k, NatDigits(m));
    DecimalOfDigits(m);
    DigitPrefixOf(d, tail);
    Regroup(sign, Zeros(k), NatDigits(m), [c], rest);
    AtoiOfDigitsThenTail(sign, d, tail);
  }

  lemma Regroup(a: string, b: string, c: string, d: string, e: string)
    ensures a + b + c + d + e == a + ((b + c) + (d + e))
  {
  }

  /** `Atoi` on a sign, a non-empty digit string and a tail that starts
      with a non-digit. */
  lemma AtoiOfDigitsThenTail(sign: string, d: string, tail: string)
    requires sign == "" || sign == "+" || sign == "-"
    requires |d| > 0 && AllDigits(d) && |tail| > 0 && !IsDigit(tail[0]) && DigitPrefix(d + tail) == d
    ensures Atoi(sign + (d + tail)) == if Decimal(d) > MaxUint then Err(ErrRange) else Err(ErrSyntax)
  {
    var s := sign + (d + tail);
    if sign == "" {
      assert s == d + tail && s[0] == d[0];
    } else {
      assert s[1..] == d + tail && IsSign(s[0]);
    }
  }

  /** The interval setting: the default for an empty setting, the value
      itself for the decimal form of any 64-bit integer (zero and negative
      values included), a range error for the decimal form of any other
      integer, and an error for a setting with anything but digits after an
      optional sign. */
  lemma GetIntervalCases(n: int, env: string)
    ensures GetInterval("") == Ok(300)
    ensures MinInt <= n <= MaxInt ==> GetInterval(Itoa(n)) == Ok(n)
    ensures !(MinInt <= n <= MaxInt) ==> GetInterval(Itoa(n)) == Err(ConfigFailed(Itoa(n), ErrRange))
    ensures (exists i :: 0 <= i < |env| && !IsDigit(env[i]) && !(i == 0 && IsSign(env[i]))) ==>
              GetInterval(env).Err? && GetInterval(env).error.input == env
  {
    AtoiItoa(n);
    assert Itoa(n) != "" by {
      assert |NatDigits(if n < 0 then -n else n)| > 0;
    }
  }
}
