/** The parts of Python's built-in behaviour that the receiver code relies on:
    string slicing, `dict.get`, `int()` on text, `str()` of an integer,
    `str.zfill` and `str.encode("ASCII")`. */
module Builtins {

  datatype Option<+T> = None | Some(value: T)

  datatype Result<+T, +E> = Ok(value: T) | Err(error: E)

  /** The exceptions the modelled code can raise out of a call. */
  datatype PyError =
    | IndexError   // a string index past the end
    | ValueError   // int() of text that is not a base-10 literal
    | TypeError    // None + str

  newtype Byte = b: int | 0 <= b < 256

  function Min(a: int, b: int): int { if a < b then a else b }

  /** Python's `s[i:j]` for non-negative bounds: both bounds are clamped to
      the length, and an empty range gives the empty string. */
  function Slice(s: string, i: nat, j: nat): (r: string)
    ensures |r| == if Min(j, |s|) <= i then 0 else Min(j, |s|) - i
    ensures forall k :: 0 <= k < |r| ==> r[k] == s[i + k]
  {
    if Min(j, |s|) <= i then "" else s[i..Min(j, |s|)]
  }

  /** `m.get(k)`: the value at `k`, or None when `k` is not a key. */
  function Get(m: map<string, string>, k: string): (r: Option<string>)
    ensures r.Some? <==> k in m
    ensures r.Some? ==> r.value == m[k]
  {
    if k in m then Some(m[k]) else None
  }

  // ---------------------------------------------------------------------
  // int() of a string, base 10

  /** The characters `int()` skips around a literal: the ASCII white space
      `\t \n \v \f \r` and space, and the non-ASCII characters that
      `str.isspace()` accepts. The ASCII separators U+001C to U+001F, which
      `str.isspace()` also accepts, are not skipped. */
  predicate IntSpace(c: char)
  {
    || c == ' ' || '\t' <= c <= '\r'
    || c == '\U{85}' || c == '\U{a0}' || c == '\U{1680}'
    || '\U{2000}' <= c <= '\U{200a}' || c == '\U{2028}' || c == '\U{2029}'
    || c == '\U{202f}' || c == '\U{205f}' || c == '\U{3000}'
  }

  predicate IsDigit(c: char) { '0' <= c <= '9' }

  function DigitValue(c: char): nat { if IsDigit(c) then c as int - '0' as int else 0 }

  function TrimStart(s: string): string
  {
    if s != [] && IntSpace(s[0]) then TrimStart(s[1..]) else s
  }

  function TrimEnd(s: string): string
  {
    if s != [] && IntSpace(s[|s| - 1]) then TrimEnd(s[..|s| - 1]) else s
  }

  function Strip(s: string): string { TrimEnd(TrimStart(s)) }

  /** A run of digits in which single underscores may separate two digits,
      the only digit text `int()` accepts in base 10. Read from the end: a
      last digit, preceded by nothing, by a shorter run, or by an underscore
      that follows a shorter run. */
  predicate IsDigitRun(t: string)
  {
    && t != [] && IsDigit(t[|t| - 1])
    && (|| |t| == 1
        || (IsDigitRun(t[..|t| - 1]) && IsDigit(t[|t| - 2]))
        || (|t| >= 3 && t[|t| - 2] == '_' && IsDigitRun(t[..|t| - 2])))
  }

  /** The value of a digit run, reading the digits positionally and
      skipping the separators. */
  function DigitsValue(t: string): nat
  {
    if t == [] then 0
    else if t[|t| - 1] == '_' then DigitsValue(t[..|t| - 1])
    else 10 * DigitsValue(t[..|t| - 1]) + DigitValue(t[|t| - 1])
  }

  /** `int(s)`: surrounding white space is ignored, an optional sign is
      followed by a digit run; any other text raises ValueError. */
  function ParseInt(s: string): (r: Result<int, PyError>)
    ensures r.Err? ==> r.error == ValueError
  {
    ParseLiteral(Strip(s))
  }

  /** `int()` raises ValueError on text holding a character that is not
      white space, a digit, an underscore or a sign. */
  lemma ParseIntRejects(s: string, c: char)
    requires c in s && !IntSpace(c) && !IsDigit(c) && c != '_' && c != '+' && c != '-'
    ensures ParseInt(s) == Err(ValueError)
  {
    TrimStartKeeps(s, c);
    TrimEndKeeps(TrimStart(s), c);
    ParseLiteralChars(Strip(s));
  }

  /** Trimming the front removes white space only. */
  lemma {:induction false} TrimStartKeeps(s: string, c: char)
    requires c in s && !IntSpace(c)
    ensures c in TrimStart(s)
  {
    if s != [] && IntSpace(s[0]) {
      assert s == [s[0]] + s[1..];
      TrimStartKeeps(s[1..], c);
    }
  }

  /** Trimming the back removes white space only. */
  lemma {:induction false} TrimEndKeeps(s: string, c: char)
    requires c in s && !IntSpace(c)
    ensures c in TrimEnd(s)
  {
    if s != [] && IntSpace(s[|s| - 1]) {
      assert s == s[..|s| - 1] + [s[|s| - 1]];
      TrimEndKeeps(s[..|s| - 1], c);
    }
  }

  /** A digit run holds digits and underscores only. */
  lemma {:induction false} DigitRunChars(t: string)
    requires IsDigitRun(t)
    ensures forall k :: 0 <= k < |t| ==> IsDigit(t[k]) || t[k] == '_'
  {
    if |t| > 1 {
      if IsDigitRun(t[..|t| - 1]) && IsDigit(t[|t| - 2]) {
        DigitRunChars(t[..|t| - 1]);
        assert forall k :: 0 <= k < |t| - 1 ==> t[k] == t[..|t| - 1][k];
      } else {
        DigitRunChars(t[..|t| - 2]);
        assert forall k :: 0 <= k < |t| - 2 ==> t[k] == t[..|t| - 2][k];
      }
    }
  }

  /** Stripped text that `int()` accepts holds only digits, underscores and
      signs. */
  lemma ParseLiteralChars(t: string)
    ensures ParseLiteral(t).Ok? ==>
      forall k :: 0 <= k < |t| ==> IsDigit(t[k]) || t[k] == '_' || t[k] == '+' || t[k] == '-'
  {
    if t != [] && (t[0] == '+' || t[0] == '-') {
      if IsDigitRun(t[1..]) {
        DigitRunChars(t[1..]);
        assert forall k :: 1 <= k < |t| ==> t[k] == t[1..][k - 1];
      }
    } else if IsDigitRun(t) {
      DigitRunChars(t);
    }
  }

  /** `int()` of text with the white space already removed. */
  function ParseLiteral(t: string): (r: Result<int, PyError>)
    ensures r.Err? ==> r.error == ValueError
  {
    if t != [] && (t[0] == '+' || t[0] == '-') then
      if IsDigitRun(t[1..]) then
        var v: int := DigitsValue(t[1..]);
        Ok(if t[0] == '-' then -v else v)
      else Err(ValueError)
    else if IsDigitRun(t) then Ok(DigitsValue(t))
    else Err(ValueError)
  }

  // ---------------------------------------------------------------------
  // str() of an integer and str.zfill

  function DigitChar(d: nat): (c: char)
    requires d < 10
    ensures IsDigit(c) && DigitValue(c) == d
  {
    ('0' as int + d) as char
  }

  /** The decimal digits of `n`, most significant first, without leading zeros. */
  function Decimal(n: nat): (r: string)
    ensures r != [] && (|r| > 1 ==> r[0] != '0')
    ensures forall k :: 0 <= k < |r| ==> IsDigit(r[k])
  {
    if n < 10 then [DigitChar(n)] else Decimal(n / 10) + [DigitChar(n % 10)]
  }

  /** `str(n)` for an int. */
  function Str(n: int): string
  {
    if n < 0 then "-" + Decimal(-n) else Decimal(n)
  }

  function Zeros(k: nat): (r: string)
    ensures |r| == k && forall i :: 0 <= i < k ==> r[i] == '0'
  {
    seq(k, _ => '0')
  }

  /** `s.zfill(width)`: pads with '0' on the left up to `width`, keeping a
      leading sign in front of the padding. */
  function ZFill(s: string, width: nat): (r: string)
    ensures |r| == if |s| >= width then |s| else width
    ensures |s| >= width ==> r == s
    ensures |s| < width && s != [] && (s[0] == '+' || s[0] == '-') ==>
              r[0] == s[0] && r[width - |s| + 1..] == s[1..]
    ensures |s| < width && (s == [] || (s[0] != '+' && s[0] != '-')) ==>
              r[width - |s|..] == s
  {
    if |s| >= width then s
    else if s != [] && (s[0] == '+' || s[0] == '-') then [s[0]] + Zeros(width - |s|) + s[1..]
    else Zeros(width - |s|) + s
  }

  // ---------------------------------------------------------------------
  // str.encode("ASCII")

  predicate IsAscii(s: string)
  {
    forall k :: 0 <= k < |s| ==> s[k] as int < 128
  }

  /** The bytes of ASCII text, one per character. */
  function AsciiBytes(s: string): (r: seq<Byte>)
    requires IsAscii(s)
    ensures |r| == |s| && forall k :: 0 <= k < |s| ==> r[k] as int == s[k] as int
  {
    seq(|s|, k requires 0 <= k < |s| && IsAscii(s) => s[k] as int as Byte)
  }

  /** `s.encode("ASCII")`: one byte per character, or None (the
      UnicodeEncodeError) when some character is outside ASCII. */
  function EncodeAscii(s: string): (r: Option<seq<Byte>>)
    ensures r.Some? <==> IsAscii(s)
    ensures r.Some? ==> |r.value| == |s| && forall k :: 0 <= k < |s| ==> r.value[k] as int == s[k] as int
  {
    if IsAscii(s) then Some(AsciiBytes(s)) else None
  }

  // ---------------------------------------------------------------------
  // Lemmas

  lemma {:induction false} StripUnpadded(s: string)
    requires s != [] && !IntSpace(s[0]) && !IntSpace(s[|s| - 1])
    ensures Strip(s) == s
  {
  }

  lemma {:induction false} ZerosValue(k: nat)
    ensures DigitsValue(Zeros(k)) == 0
  {
    if k > 0 {
      assert Zeros(k)[..k - 1] == Zeros(k - 1);
      ZerosValue(k - 1);
    }
  }

  /** Leading zeros do not change the value of a digit run. */
  lemma {:induction false} LeadingZerosValue(k: nat, t: string)
    ensures DigitsValue(Zeros(k) + t) == DigitsValue(t)
  {
    if t == [] {
      assert Zeros(k) + t == Zeros(k);
      ZerosValue(k);
    } else {
      var u := Zeros(k) + t;
      assert u[..|u| - 1] == Zeros(k) + t[..|t| - 1];
      assert u[|u| - 1] == t[|t| - 1];
      LeadingZerosValue(k, t[..|t| - 1]);
    }
  }

  lemma {:induction false} DecimalValue(n: nat)
    ensures DigitsValue(Decimal(n)) == n
  {
    if n >= 10 {
      var d := Decimal(n);
      assert d[..|d| - 1] == Decimal(n / 10);
      DecimalValue(n / 10);
    }
  }

  lemma {:induction false} DigitRunOfDigits(t: string)
    requires t != [] && forall k :: 0 <= k < |t| ==> IsDigit(t[k])
    ensures IsDigitRun(t)
  {
    if |t| > 1 {
      DigitRunOfDigits(t[..|t| - 1]);
    }
  }

  /** `int(str(n)) == n` for every integer. */
  lemma {:induction false} ParseIntStr(n: int)
    ensures ParseInt(Str(n)) == Ok(n)
  {
    if n < 0 {
      ParseSignedPaddedDecimal(0, n);
      assert Zeros(0) + Decimal(-n) == Decimal(-n);
    } else {
      DecimalValue(n);
      ParseDigits(Decimal(n));
    }
  }

  /** `int()` of plain digit text is its positional value. */
  lemma ParseDigits(t: string)
    requires t != [] && forall k :: 0 <= k < |t| ==> IsDigit(t[k])
    ensures ParseInt(t) == Ok(DigitsValue(t) as int)
  {
    DigitRunOfDigits(t);
    StripUnpadded(t);
  }

  /** `int()` of a minus sign and digit text is the negated positional value. */
  lemma ParseNegativeDigits(t: string)
    requires t != [] && forall k :: 0 <= k < |t| ==> IsDigit(t[k])
    ensures ParseInt("-" + t) == Ok(-(DigitsValue(t) as int))
  {
    var z := "-" + t;
    DigitRunOfDigits(t);
    assert z[0] == '-' && z[|z| - 1] == t[|t| - 1];
    assert z[1..] == t;
    assert ParseLiteral(z) == Ok(-(DigitsValue(t) as int));
    StripUnpadded(z);
  }

  /** Zeros followed by a decimal are all digits. */
  lemma PaddedDigits(pad: nat, m: nat)
    ensures var z := Zeros(pad) + Decimal(m);
      z != [] && forall k :: 0 <= k < |z| ==> IsDigit(z[k])
  {
    var z := Zeros(pad) + Decimal(m);
    forall k | 0 <= k < |z| ensures IsDigit(z[k]) {
      if k < pad {
        assert z[k] == Zeros(pad)[k];
      } else {
        assert z[k] == Decimal(m)[k - pad];
      }
    }
  }

  /** A sign-free zero-padded decimal reads back as the number. */
  lemma {:induction false} ParsePaddedDecimal(pad: nat, m: nat)
    ensures ParseInt(Zeros(pad) + Decimal(m)) == Ok(m)
  {
    DecimalValue(m);
    LeadingZerosValue(pad, Decimal(m));
    PaddedDigits(pad, m);
    ParseDigits(Zeros(pad) + Decimal(m));
  }

  /** A negative zero-padded decimal reads back as the number. */
  lemma {:induction false} ParseSignedPaddedDecimal(pad: nat, n: int)
    requires n < 0
    ensures ParseInt("-" + (Zeros(pad) + Decimal(-n))) == Ok(n)
  {
    var u := Zeros(pad) + Decimal(-n);
    DecimalValue(-n);
    LeadingZerosValue(pad, Decimal(-n));
    PaddedDigits(pad, -n);
    ParseNegativeDigits(u);
    var v: int := DigitsValue(u);
    assert v == -n;
    var expected: Result<int, PyError> := Ok(-v);
    assert expected == Ok(n);
  }

  /** How `str.zfill` pads the text of a negative number. */
  lemma ZFillNegative(n: int, width: nat)
    requires n < 0 && |Str(n)| < width
    ensures ZFill(Str(n), width) == "-" + (Zeros(width - |Str(n)|) + Decimal(-n))
  {
    var s := Str(n);
    var pad := Zeros(width - |s|);
    assert s[0] == '-' && s[1..] == Decimal(-n);
    assert [s[0]] + pad + s[1..] == "-" + (pad + Decimal(-n));
  }

  /** How `str.zfill` pads the text of a non-negative number. */
  lemma ZFillNonNegative(n: int, width: nat)
    requires n >= 0 && |Str(n)| < width
    ensures ZFill(Str(n), width) == Zeros(width - |Str(n)|) + Decimal(n)
  {
    assert Str(n)[0] != '-' && Str(n)[0] != '+';
  }

  /** `int(str(n).zfill(w)) == n` for every integer and width: the padding
      `str.zfill` adds never changes the number the text denotes. */
  lemma {:induction false} ParseIntZFill(n: int, width: nat)
    ensures ParseInt(ZFill(Str(n), width)) == Ok(n)
  {
    var s := Str(n);
    if |s| >= width {
      ParseIntStr(n);
    } else if n < 0 {
      ParseIntZFillNegative(n, width);
    } else {
      ParseIntZFillNonNegative(n, width);
    }
  }

  lemma ParseIntZFillNegative(n: int, width: nat)
    requires n < 0 && |Str(n)| < width
    ensures ParseInt(ZFill(Str(n), width)) == Ok(n)
  {
    var pad: nat := width - |Str(n)|;
    ParseSignedPaddedDecimal(pad, n);
    ZFillNegative(n, width);
  }

  lemma ParseIntZFillNonNegative(n: int, width: nat)
    requires n >= 0 && |Str(n)| < width
    ensures ParseInt(ZFill(Str(n), width)) == Ok(n)
  {
    ZFillNonNegative(n, width);
    ParsePaddedDecimal(width - |Str(n)|, n);
  }

  /** Three ASCII digits read as `int()` does give their positional value. */
  lemma ParseThreeDigits(t: string)
    requires |t| == 3 && IsDigit(t[0]) && IsDigit(t[1]) && IsDigit(t[2])
    ensures ParseInt(t) == Ok(100 * DigitValue(t[0]) + 10 * DigitValue(t[1]) + DigitValue(t[2]))
  {
    StripUnpadded(t);
    DigitRunOfDigits(t);
    assert t[..2][..1] == t[..1];
    assert t[..1][..0] == [];
    assert DigitsValue(t[..1]) == DigitValue(t[0]);
    assert DigitsValue(t[..2]) == 10 * DigitValue(t[0]) + DigitValue(t[1]);
  }
}
