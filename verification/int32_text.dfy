/** Decimal text for 32-bit integers, as the .NET runtime reads and writes it:
    `int.TryParse(s, out n)` with the default integer number style (leading and
    trailing white space, an optional sign, decimal digits, Int32 range), and
    `n.ToString()` for the counters logged as telemetry. Culture-specific signs
    are not modelled: the invariant culture is assumed. Digits are '0' to '9' only,
    as in the runtime. */
module Int32Text {
  import opened Wrappers
  import opened Seqs

  const MinInt32: int := -0x8000_0000
  const MaxInt32: int := 0x7fff_ffff

  predicate InInt32(n: int) {
    MinInt32 <= n <= MaxInt32
  }

  /** The white space the integer number style skips: U+0009 through U+000D and U+0020. */
  predicate IsWhite(c: char) {
    c == ' ' || '\t' <= c <= '\r'
  }

  predicate IsDigit(c: char) {
    '0' <= c <= '9'
  }

  predicate AllDigits(s: string) {
    forall i :: 0 <= i < |s| ==> IsDigit(s[i])
  }

  function DigitValue(c: char): (d: nat)
    requires IsDigit(c)
    ensures d < 10
  {
    (c as int) - ('0' as int)
  }

  function DigitChar(d: nat): (c: char)
    requires d < 10
    ensures IsDigit(c) && DigitValue(c) == d
  {
    ('0' as int + d) as char
  }

  /** Drops the leading white space: what remains is a suffix of `s`. */
  function TrimStart(s: string): (t: string)
    ensures |t| <= |s| && t == s[|s| - |t|..]
    ensures |t| > 0 ==> !IsWhite(t[0])
    ensures forall j :: 0 <= j < |s| - |t| ==> IsWhite(s[j])
  {
    if |s| > 0 && IsWhite(s[0]) then TrimStart(s[1..]) else s
  }

  /** Drops the trailing white space: what remains is a prefix of `s`. */
  function TrimEnd(s: string): (t: string)
    ensures t <= s
    ensures |t| > 0 ==> !IsWhite(t[|t| - 1])
    ensures forall j :: |t| <= j < |s| ==> IsWhite(s[j])
  {
    if |s| > 0 && IsWhite(s[|s| - 1]) then TrimEnd(s[..|s| - 1]) else s
  }

  /** The value of a digit string, most significant digit first. */
  function DigitsValue(s: string): nat
    requires AllDigits(s)
  {
    if |s| == 0 then 0 else 10 * DigitsValue(s[..|s| - 1]) + DigitValue(s[|s| - 1])
  }

  /** Splits an optional leading sign off a string: (negative, rest). */
  function SplitSign(t: string): (string, bool)
  {
    if |t| > 0 && t[0] == '-' then (t[1..], true)
    else if |t| > 0 && t[0] == '+' then (t[1..], false)
    else (t, false)
  }

  function Signed(negative: bool, magnitude: nat): int {
    if negative then -(magnitude as int) else magnitude
  }

  /** The value of a sign and a run of digits, when they are well formed and in range. */
  function ParseSigned(digits: string, negative: bool): (r: Option<int>)
    ensures r.Some? ==> InInt32(r.value)
  {
    if |digits| == 0 || !AllDigits(digits) then None
    else
      var v := Signed(negative, DigitsValue(digits));
      if InInt32(v) then Some(v) else None
  }

  /** `int.TryParse`: `Some(n)` when the call returns true with `n`, `None` when it returns false. */
  function ParseInt32(s: string): (r: Option<int>)
    ensures r.Some? ==> InInt32(r.value)
  {
    var sign := SplitSign(TrimEnd(TrimStart(s)));
    ParseSigned(sign.0, sign.1)
  }

  /** Canonical decimal digits of a natural number: no leading zero. */
  function Digits(n: nat): (s: string)
    ensures |s| > 0 && AllDigits(s)
    ensures s[0] == '0' ==> n == 0
  {
    if n < 10 then [DigitChar(n)] else Digits(n / 10) + [DigitChar(n % 10)]
  }

  /** `ToString()` of an integer in the invariant culture. */
  function FormatInt(n: int): (s: string)
    ensures |s| > 0
    ensures s[0] == '-' <==> n < 0
    ensures var digits := if n < 0 then s[1..] else s;
      && |digits| > 0 && AllDigits(digits) && (digits[0] == '0' ==> n == 0)
      && DigitsValue(digits) == (if n < 0 then -n else n)
  {
    var magnitude: nat := if n < 0 then -n else n;
    DigitsValueOfDigits(magnitude);
    if n < 0 then
      assert ("-" + Digits(magnitude))[1..] == Digits(magnitude);
      "-" + Digits(magnitude)
    else
      Digits(magnitude)
  }

  lemma {:induction false} DigitsValueOfDigits(n: nat)
    ensures DigitsValue(Digits(n)) == n
  {
    if n >= 10 {
      DigitsValueOfDigits(n / 10);
      var s := Digits(n / 10);
      var t := s + [DigitChar(n % 10)];
      assert t[..|t| - 1] == s;
    }
  }

  /** A string that neither starts nor ends with white space is left alone by trimming. */
  lemma NothingToTrim(s: string)
    requires |s| > 0 && !IsWhite(s[0]) && !IsWhite(s[|s| - 1])
    ensures TrimEnd(TrimStart(s)) == s
  {
    assert TrimStart(s) == s;
  }

  /** `ToString()` output read back by `int.TryParse`: the same integer when it
      is an Int32, a rejection otherwise. */
  lemma ParseOfFormat(n: int)
    ensures ParseInt32(FormatInt(n)) == if InInt32(n) then Some(n) else None
  {
    var m: nat := if n < 0 then -n else n;
    DigitsValueOfDigits(m);
    var d := Digits(m);
    var s := FormatInt(n);
    var negative := n < 0;
    assert Signed(negative, DigitsValue(d)) == n;
    if negative {
      assert s == "-" + d;
      assert s[|s| - 1] == d[|d| - 1];
      assert s[1..] == d;
      NothingToTrim(s);
      assert SplitSign(s) == (d, true);
    } else {
      assert s == d;
      NothingToTrim(s);
      assert SplitSign(s) == (d, false);
    }
    assert ParseInt32(s) == ParseSigned(d, negative);
  }

  /** Reading back what `ToString()` wrote gives the same integer, for every Int32. */
  lemma ParseFormatRoundTrip(n: int)
    requires InInt32(n)
    ensures ParseInt32(FormatInt(n)) == Some(n)
  {
    ParseOfFormat(n);
  }

  /** A value outside the Int32 range is rejected even when it is well formed. */
  predicate AllWhite(s: string) {
    forall j :: 0 <= j < |s| ==> IsWhite(s[j])
  }

  /** Leading white space before a non-white character is exactly what `TrimStart` drops. */
  lemma {:induction false} TrimStartSkips(lead: string, x: string)
    requires AllWhite(lead) && (x == [] || !IsWhite(x[0]))
    ensures TrimStart(lead + x) == x
    decreases |lead|
  {
    if |lead| > 0 {
      assert (lead + x)[1..] == lead[1..] + x;
      TrimStartSkips(lead[1..], x);
    } else {
      assert lead + x == x;
    }
  }

  /** Trailing white space after a non-white character is exactly what `TrimEnd` drops. */
  lemma {:induction false} TrimEndSkips(x: string, trail: string)
    requires AllWhite(trail) && (x == [] || !IsWhite(x[|x| - 1]))
    ensures TrimEnd(x + trail) == x
    decreases |trail|
  {
    if |trail| > 0 {
      var shorter := trail[..|trail| - 1];
      assert (x + trail)[..|x + trail| - 1] == x + shorter;
      TrimEndSkips(x, shorter);
    } else {
      assert x + trail == x;
    }
  }

  /** White space on both sides of a text that starts and ends with other characters is all that is trimmed. */
  lemma TrimsTo(lead: string, body: string, trail: string)
    requires AllWhite(lead) && AllWhite(trail)
    requires |body| > 0 && !IsWhite(body[0]) && !IsWhite(body[|body| - 1])
    ensures TrimEnd(TrimStart(lead + body + trail)) == body
  {
    assert lead + body + trail == lead + (body + trail);
    TrimStartSkips(lead, body + trail);
    TrimEndSkips(body, trail);
  }

  /** An optional sign in front of digits is split off, and only '-' makes the value negative. */
  lemma SignSplits(sign: string, digits: string)
    requires sign == "" || sign == "+" || sign == "-"
    requires |digits| > 0 && AllDigits(digits)
    ensures SplitSign(sign + digits) == (digits, sign == "-")
  {
    if sign == "" {
      assert sign + digits == digits;
    } else {
      assert (sign + digits)[1..] == digits;
    }
  }

  /** The parts of a text the integer number style accepts: white space, an
      optional sign, a non-empty run of ASCII digits, white space. */
  predicate IntegerParts(lead: string, sign: string, digits: string, trail: string) {
    && AllWhite(lead) && AllWhite(trail)
    && (sign == "" || sign == "+" || sign == "-")
    && |digits| > 0 && AllDigits(digits)
  }

  /** `s` is integer text whose signed value is `n`, whether or not `n` is an Int32. */
  ghost predicate IsIntegerText(s: string, n: int) {
    exists lead, sign, digits, trail ::
      && IntegerParts(lead, sign, digits, trail)
      && s == lead + sign + digits + trail
      && n == Signed(sign == "-", DigitsValue(digits))
  }

  /** Any run of ASCII digits, leading zeros allowed, with an optional sign and
      white space around it, reads as its value when that is an Int32 and is
      rejected otherwise. */
  lemma ParseWellFormed(lead: string, sign: string, digits: string, trail: string)
    requires IntegerParts(lead, sign, digits, trail)
    ensures var v := Signed(sign == "-", DigitsValue(digits));
      ParseInt32(lead + sign + digits + trail) == if InInt32(v) then Some(v) else None
  {
    var body := sign + digits;
    Assoc(lead, sign, digits);
    assert body[|body| - 1] == digits[|digits| - 1];
    assert !IsWhite(body[0]) by {
      if sign == "" {
        assert body[0] == digits[0];
      } else {
        assert body[0] == sign[0];
      }
    }
    TrimsTo(lead, body, trail);
    SignSplits(sign, digits);
    assert ParseInt32(lead + body + trail) == ParseSigned(digits, sign == "-");
  }

  /** Well-formed digits whose value lies outside the Int32 range are rejected,
      whatever the padding, sign or leading zeros. */
  lemma ParseRejectsOutOfRange(lead: string, sign: string, digits: string, trail: string)
    requires IntegerParts(lead, sign, digits, trail)
    requires !InInt32(Signed(sign == "-", DigitsValue(digits)))
    ensures ParseInt32(lead + sign + digits + trail) == None
  {
    ParseWellFormed(lead, sign, digits, trail);
  }

  /** What `TrimStart` drops is white space in front of what it keeps. */
  lemma TrimStartSplits(s: string) returns (lead: string)
    ensures AllWhite(lead) && s == lead + TrimStart(s)
  {
    lead := s[..|s| - |TrimStart(s)|];
    assert s == lead + TrimStart(s);
  }

  /** What `TrimEnd` drops is white space after what it keeps. */
  lemma TrimEndSplits(u: string) returns (trail: string)
    ensures AllWhite(trail) && u == TrimEnd(u) + trail
  {
    var body := TrimEnd(u);
    trail := u[|body|..];
    assert u == body + trail;
    forall j | 0 <= j < |trail|
      ensures IsWhite(trail[j])
    {
      assert trail[j] == u[|body| + j];
    }
  }

  /** Trimming splits a text into leading white space, the trimmed body and
      trailing white space. */
  lemma TrimSplits(s: string) returns (lead: string, trail: string)
    ensures AllWhite(lead) && AllWhite(trail)
    ensures s == lead + TrimEnd(TrimStart(s)) + trail
  {
    lead := TrimStartSplits(s);
    trail := TrimEndSplits(TrimStart(s));
    Assoc(lead, TrimEnd(TrimStart(s)), trail);
  }

  /** The sign `SplitSign` takes off, written out: empty, "+" or "-". */
  lemma SignSplitOff(body: string) returns (sign: string)
    ensures sign == "" || sign == "+" || sign == "-"
    ensures body == sign + SplitSign(body).0
    ensures SplitSign(body).1 <==> sign == "-"
  {
    if |body| > 0 && (body[0] == '-' || body[0] == '+') {
      sign := [body[0]];
    } else {
      sign := "";
    }
    assert body == sign + SplitSign(body).0;
  }

  /** Only integer text is accepted: every text `int.TryParse` reads splits into
      white space, an optional sign, digits and white space, and reads as the
      signed value of those digits. */
  lemma ParseAcceptsOnlyIntegerText(s: string) returns (lead: string, sign: string, digits: string, trail: string)
    requires ParseInt32(s).Some?
    ensures IntegerParts(lead, sign, digits, trail) && s == lead + sign + digits + trail
    ensures ParseInt32(s) == Some(Signed(sign == "-", DigitsValue(digits)))
  {
    var body := TrimEnd(TrimStart(s));
    lead, trail := TrimSplits(s);
    sign := SignSplitOff(body);
    digits := SplitSign(body).0;
    assert ParseSigned(digits, SplitSign(body).1).Some?;
    assert |digits| > 0 && AllDigits(digits);
    assert lead + body == lead + sign + digits by {
      Assoc(lead, sign, digits);
    }
  }

  /** `int.TryParse` accepts exactly the integer text whose value is an Int32,
      and then returns that value. */
  lemma ParseInt32Iff(s: string, n: int)
    ensures ParseInt32(s) == Some(n) <==> IsIntegerText(s, n) && InInt32(n)
  {
    if ParseInt32(s) == Some(n) {
      var lead, sign, digits, trail := ParseAcceptsOnlyIntegerText(s);
      assert IsIntegerText(s, n);
    }
    if IsIntegerText(s, n) && InInt32(n) {
      var lead, sign, digits, trail :| && IntegerParts(lead, sign, digits, trail)
                                      && s == lead + sign + digits + trail
                                      && n == Signed(sign == "-", DigitsValue(digits));
      ParseWellFormed(lead, sign, digits, trail);
    }
  }

  /** White space or a sign inside the digits, two signs, or white space alone
      are not integer text: "1 2", "1-2", "+-1" and "  " are rejected. */
  lemma ParseRejectsMisplaced()
    ensures ParseInt32("1 2") == None
    ensures ParseInt32("1-2") == None
    ensures ParseInt32("+-1") == None
    ensures ParseInt32("  ") == None
  {
    NothingToTrim("1 2");
    assert !IsDigit("1 2"[1]);
    NothingToTrim("1-2");
    assert !IsDigit("1-2"[1]);
    NothingToTrim("+-1");
    assert SplitSign("+-1").0 == "-1";
    assert !IsDigit("-1"[0]);
    assert TrimStart("  ") == "" by {
      assert "  "[1..] == " ";
      assert " "[1..] == "";
    }
  }

  /** A character that is not white space survives the trimming, at index `j`. */
  lemma KeptByTrim(s: string, i: int) returns (j: int)
    requires 0 <= i < |s| && !IsWhite(s[i])
    ensures 0 <= j < |TrimEnd(TrimStart(s))| && TrimEnd(TrimStart(s))[j] == s[i]
  {
    var u := TrimStart(s);
    var a := |s| - |u|;
    assert a <= i;
    assert u[i - a] == s[i];
    j := i - a;
  }

  /** A character that is not a sign survives the sign split, at index `k`. */
  lemma KeptBySign(t: string, j: int) returns (k: int)
    requires 0 <= j < |t| && t[j] != '-' && t[j] != '+'
    ensures 0 <= k < |SplitSign(t).0| && SplitSign(t).0[k] == t[j]
  {
    if |SplitSign(t).0| < |t| {
      k := j - 1;
    } else {
      k := j;
    }
  }

  /** A string holding a character that is neither white space, a sign nor a
      digit never parses: "abc" is rejected. */
  lemma ParseRejectsForeignChar(s: string, i: int)
    requires 0 <= i < |s|
    requires !IsWhite(s[i]) && !IsDigit(s[i]) && s[i] != '-' && s[i] != '+'
    ensures ParseInt32(s) == None
  {
    var j := KeptByTrim(s, i);
    var k := KeptBySign(TrimEnd(TrimStart(s)), j);
    assert !AllDigits(SplitSign(TrimEnd(TrimStart(s))).0);
  }

  /** Inputs named in the option rules: "0" and "-5" parse, "abc", "" and a lone sign do not. */
  lemma ParseExamples()
    ensures ParseInt32("0") == Some(0)
    ensures ParseInt32("-5") == Some(-5)
    ensures ParseInt32("") == None
    ensures ParseInt32("-") == None
    ensures ParseInt32("abc") == None
  {
    assert FormatInt(0) == "0";
    ParseFormatRoundTrip(0);
    assert FormatInt(-5) == "-5";
    ParseFormatRoundTrip(-5);
    ParseRejectsForeignChar("abc", 0);
  }

  /** Surrounding white space and a plus sign are accepted. */
  lemma ParseSkipsWhiteSpace()
    ensures ParseInt32(" +7\t") == Some(7)
  {
    var s := " +7\t";
    assert TrimStart(s) == "+7\t" by {
      assert s[1..] == "+7\t";
    }
    assert TrimEnd("+7\t") == "+7" by {
      assert "+7\t"[..2] == "+7";
    }
    assert SplitSign("+7") == ("7", false) by {
      assert "+7"[1..] == "7";
    }
    assert DigitsValue("7") == 7 by {
      assert "7"[..0] == "";
    }
  }
}
