/**
 * Decimal conversions of Go's `strconv` package as the handlers use them:
 * `ParseUint(s, 10, 64)` (backend variant), `Atoi(s)` (root variant) and the
 * `%d` formatting that puts an id into an error message.
 */
module Strconv {
  import opened Wrappers
  import opened Ints

  predicate IsDigit(c: char) { '0' <= c <= '9' }

  /** Every character of `s` is a decimal digit (`s` may be empty). */
  predicate IsDecimal(s: string) {
    forall i :: 0 <= i < |s| ==> IsDigit(s[i])
  }

  function DigitValue(c: char): nat
    requires IsDigit(c)
  {
    c as int - '0' as int
  }

  function DigitChar(d: nat): (c: char)
    requires d < 10
    ensures IsDigit(c) && DigitValue(c) == d
  {
    ('0' as int + d) as char
  }

  /** The number a digit string denotes, most significant digit first. */
  function Value(s: string): nat
    requires IsDecimal(s)
    decreases |s|
  {
    if s == [] then 0 else Value(s[..|s| - 1]) * 10 + DigitValue(s[|s| - 1])
  }

  /** A digit string without superfluous leading zeros: the form `%d` prints. */
  predicate Canonical(s: string) {
    s != [] && IsDecimal(s) && (s[0] == '0' ==> |s| == 1)
  }

  /** `%d` of a non-negative integer. */
  function FormatUint(n: nat): (s: string)
    ensures s != [] && IsDecimal(s)
    ensures s[0] == '0' <==> n == 0
    ensures |s| == 1 <==> n < 10
    decreases n
  {
    if n < 10 then [DigitChar(n)] else FormatUint(n / 10) + [DigitChar(n % 10)]
  }

  /** `%d` of a signed integer: a minus sign, then the digits of its magnitude. */
  function Itoa(v: i64): (s: string)
    ensures s != [] && (s[0] == '-' <==> v < 0)
    ensures 0 <= v ==> IsDecimal(s)
  {
    if v < 0 then "-" + FormatUint(-(v as int)) else FormatUint(v as int)
  }

  /**
   * `strconv.ParseUint(s, 10, 64)`. Only decimal digits are accepted: no sign,
   * no underscore, no surrounding space, not the empty string; leading zeros
   * are allowed; a value above 2^64 - 1 is a range error. Both kinds of error
   * are `None` here.
   */
  function ParseUint(s: string): (r: Option<u64>)
    ensures r.Some? ==> s != [] && IsDecimal(s)
  {
    if s != [] && IsDecimal(s) && Value(s) < Two64 then Some(Value(s) as u64) else None
  }

  /**
   * `strconv.Atoi(s)` with Go's 64-bit `int`. One optional sign (`+` or `-`)
   * followed by at least one decimal digit; the value must lie in
   * [-2^63, 2^63 - 1]. Syntax and range errors are both `None`.
   */
  function Atoi(s: string): (r: Option<i64>)
    ensures r.Some? ==> s != [] && (s[0] == '-' || s[0] == '+' || IsDigit(s[0]))
  {
    if s == [] then None
    else
      var digits := if s[0] == '-' || s[0] == '+' then s[1..] else s;
      if digits == [] || !IsDecimal(digits) then None
      else
        var magnitude: int := Value(digits);
        var v := if s[0] == '-' then -magnitude else magnitude;
        if -Two63 <= v < Two63 then Some(v as i64) else None
  }

  /** Reading back what `%d` printed gives the number again. */
  lemma {:induction false} ValueOfFormatUint(n: nat)
    ensures Value(FormatUint(n)) == n
    decreases n
  {
    var s := FormatUint(n);
    if n >= 10 {
      ValueOfFormatUint(n / 10);
      assert s[..|s| - 1] == FormatUint(n / 10);
    } else {
      assert s[..|s| - 1] == [];
    }
  }

  /** A digit string whose first digit is not zero denotes a positive number. */
  lemma {:induction false} PositiveValue(s: string)
    requires s != [] && IsDecimal(s) && s[0] != '0'
    ensures Value(s) > 0
    decreases |s|
  {
    if |s| > 1 {
      PositiveValue(s[..|s| - 1]);
    } else {
      assert s[..|s| - 1] == [];
    }
  }

  /** A canonical digit string is exactly what `%d` prints for its value. */
  lemma {:induction false} FormatValue(s: string)
    requires Canonical(s)
    ensures FormatUint(Value(s)) == s
    decreases |s|
  {
    var p, c := s[..|s| - 1], s[|s| - 1];
    if |s| == 1 {
      assert p == [];
      assert FormatUint(Value(s)) == [DigitChar(DigitValue(c))];
    } else {
      assert p[0] == s[0];
      FormatValue(p);
      PositiveValue(p);
      var n := Value(s);
      assert n == Value(p) * 10 + DigitValue(c);
      assert n / 10 == Value(p) && n % 10 == DigitValue(c);
      assert s == p + [c];
    }
  }

  /** A leading zero does not change the value of a digit string. */
  lemma {:induction false} ValueLeadingZero(s: string)
    requires IsDecimal(s)
    ensures IsDecimal("0" + s) && Value("0" + s) == Value(s)
    decreases |s|
  {
    var z := "0" + s;
    assert IsDecimal(z) by {
      forall i | 0 <= i < |z| ensures IsDigit(z[i]) {
        if i > 0 { assert z[i] == s[i - 1]; }
      }
    }
    if s == [] {
      assert z[..0] == [];
    } else {
      var p := s[..|s| - 1];
      ValueLeadingZero(p);
      assert z[..|z| - 1] == "0" + p;
    }
  }

  /** Every uint64 printed with `%d` parses back to itself; larger numbers are rejected. */
  lemma ParseUintFormat(n: nat)
    ensures ParseUint(FormatUint(n)) == if n < Two64 then Some(n as u64) else None
  {
    ValueOfFormatUint(n);
  }

  /** A canonical string that `ParseUint` accepts is the `%d` form of the result. */
  lemma FormatParseUint(s: string)
    requires Canonical(s) && ParseUint(s).Some?
    ensures FormatUint(ParseUint(s).value as int) == s
  {
    FormatValue(s);
  }

  /** `ParseUint` ignores leading zeros: "/todo/007" names the same id as "/todo/7". */
  lemma ParseUintLeadingZero(s: string)
    requires s != []
    ensures ParseUint("0" + s) == ParseUint(s)
  {
    if IsDecimal(s) {
      ValueLeadingZero(s);
    } else {
      var i :| 0 <= i < |s| && !IsDigit(s[i]);
      assert ("0" + s)[i + 1] == s[i];
    }
  }

  /** Every int64 printed with `%d` parses back to itself under `Atoi`. */
  lemma AtoiItoa(v: i64)
    ensures Atoi(Itoa(v)) == Some(v)
  {
    var s := Itoa(v);
    if v < 0 {
      var f := FormatUint(-(v as int));
      ValueOfFormatUint(-(v as int));
      assert s == "-" + f && s[1..] == f;
    } else {
      ValueOfFormatUint(v as int);
      assert IsDigit(s[0]);
    }
  }

  /**
   * On unsigned digit strings `Atoi` and `ParseUint` agree below 2^63; from
   * 2^63 on only `ParseUint` accepts. `Atoi` also accepts a sign.
   */
  lemma AtoiParseUint(s: string)
    requires ParseUint(s).Some?
    ensures Atoi(s).Some? <==> ParseUint(s).value as int < Two63
    ensures Atoi(s).Some? ==> Atoi(s).value as int == ParseUint(s).value as int
  {
  }
}
