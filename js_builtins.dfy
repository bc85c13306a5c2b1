/** The JavaScript built-ins the bill-creation controller relies on, over
    strings as sequences of characters: `String.prototype.lastIndexOf`,
    `String.prototype.slice` with one argument, `String.prototype.toLowerCase`,
    the global `parseInt` without a radix, and the conversion of an integral
    Number to its decimal string. */
module JsBuiltins {
  import opened Wrappers

  // ---------------------------------------------------------------------
  // lastIndexOf, slice, toLowerCase
  // ---------------------------------------------------------------------

  /** `s.lastIndexOf(c)`: the index of the last occurrence of `c`, or -1. */
  function LastIndexOf(s: string, c: char): (r: int)
    ensures -1 <= r < |s|
    ensures r == -1 <==> c !in s
    ensures r >= 0 ==> s[r] == c
    ensures forall j :: r < j < |s| ==> s[j] != c
  {
    if s == [] then -1
    else if s[|s| - 1] == c then |s| - 1
    else LastIndexOf(s[..|s| - 1], c)
  }

  /** `s.slice(start)`: the suffix of `s` from `start`; a negative `start`
      counts back from the end and is clamped at the beginning, a `start`
      past the end gives the empty string. */
  function Slice(s: string, start: int): (r: string)
    ensures |r| <= |s| && r == s[|s| - |r|..]
    ensures start < 0 ==> |r| == if -start <= |s| then -start else |s|
    ensures 0 <= start ==> |r| == if start <= |s| then |s| - start else 0
  {
    if start < 0 then
      (if |s| + start < 0 then s else s[|s| + start..])
    else if start <= |s| then s[start..]
    else []
  }

  predicate IsUpper(c: char) { 'A' <= c <= 'Z' }

  /** Lower-casing of one character. Only the Latin capitals A-Z are mapped;
      every other character is left as it is. */
  function LowerChar(c: char): (r: char)
    ensures !IsUpper(r)
    ensures r == c || (IsUpper(c) && 'a' <= r <= 'z')
    ensures IsUpper(c) ==> r as int - 'a' as int == c as int - 'A' as int
  {
    if IsUpper(c) then (c as int - 'A' as int + 'a' as int) as char else c
  }

  /** `s.toLowerCase()`, character by character. */
  function ToLowerCase(s: string): (r: string)
    ensures |r| == |s|
    ensures forall i :: 0 <= i < |s| ==> r[i] == LowerChar(s[i])
  {
    if s == [] then [] else ToLowerCase(s[..|s| - 1]) + [LowerChar(s[|s| - 1])]
  }

  // ---------------------------------------------------------------------
  // parseInt(s) with no radix argument
  // ---------------------------------------------------------------------

  /** The characters `parseInt` skips at the start of its argument: the
      ECMAScript WhiteSpace and LineTerminator characters. */
  predicate IsWhiteSpace(c: char) {
    c == '\t' || c == '\n' || c == '\U{000B}' || c == '\U{000C}' || c == '\r'
    || c == ' ' || c == '\U{00A0}' || c == '\U{1680}'
    || ('\U{2000}' <= c <= '\U{200A}')
    || c == '\U{2028}' || c == '\U{2029}' || c == '\U{202F}' || c == '\U{205F}'
    || c == '\U{3000}' || c == '\U{FEFF}'
  }

  /** The number of white-space characters at the start of `s`. */
  function WhiteSpaceRun(s: string): (n: nat)
    ensures n <= |s|
  {
    if s == [] || !IsWhiteSpace(s[0]) then 0 else 1 + WhiteSpaceRun(s[1..])
  }

  /** The string with its leading white space removed. */
  function TrimStart(s: string): (r: string)
    ensures |r| <= |s| && r == s[|s| - |r|..]
  {
    s[WhiteSpaceRun(s)..]
  }

  predicate IsHexDigit(c: char) {
    ('0' <= c <= '9') || ('a' <= c <= 'f') || ('A' <= c <= 'F')
  }

  /** The value of a hexadecimal digit (0 for any other character). */
  function DigitValue(c: char): (d: nat)
    ensures d < 16
    ensures IsHexDigit(c) ==> (d < 10 <==> '0' <= c <= '9')
  {
    if '0' <= c <= '9' then c as int - '0' as int
    else if 'a' <= c <= 'f' then c as int - 'a' as int + 10
    else if 'A' <= c <= 'F' then c as int - 'A' as int + 10
    else 0
  }

  /** A digit of base `radix`, which `parseInt` without a radix argument
      only ever sets to 10 or 16: a decimal digit, or for base 16 also a
      letter `a`-`f` in either case. */
  predicate IsRadixDigit(c: char, radix: nat) {
    ('0' <= c <= '9') || (radix == 16 && IsHexDigit(c))
  }

  /** The length of the longest prefix of `s` made of base-`radix` digits. */
  function DigitRun(s: string, radix: nat): (n: nat)
    ensures n <= |s|
  {
    if s == [] || !IsRadixDigit(s[0], radix) then 0 else 1 + DigitRun(s[1..], radix)
  }

  /** The number a string of base-`radix` digits denotes, most significant first. */
  function DigitsValue(ds: string, radix: nat): nat
  {
    if ds == [] then 0 else DigitsValue(ds[..|ds| - 1], radix) * radix + DigitValue(ds[|ds| - 1])
  }

  /** The leading base-`radix` number of `body`, or `None` when `body` does
      not start with a digit of that base. */
  function LeadingNumber(body: string, radix: nat): Option<int>
  {
    var n := DigitRun(body, radix);
    if n == 0 then None else Some(DigitsValue(body[..n], radix))
  }

  /** Whether `u` starts with the `0x`/`0X` prefix of a hexadecimal number. */
  predicate HasHexPrefix(u: string) {
    |u| >= 2 && u[0] == '0' && (u[1] == 'x' || u[1] == 'X')
  }

  /** The unsigned part of `parseInt`: a `0x`/`0X` prefix selects base 16,
      anything else base 10. */
  function ParseMagnitude(u: string): Option<int>
  {
    if HasHexPrefix(u) then LeadingNumber(u[2..], 16) else LeadingNumber(u, 10)
  }

  /** `-x` for a Number that is an integer or `NaN`. */
  function Negate(n: Option<int>): Option<int> {
    match n
    case None => None
    case Some(m) => Some(-m)
  }

  /** `parseInt` once the leading white space is gone: an optional sign,
      then the magnitude. */
  function ParseSigned(t: string): Option<int>
  {
    if t != [] && t[0] == '-' then Negate(ParseMagnitude(t[1..]))
    else if t != [] && t[0] == '+' then ParseMagnitude(t[1..])
    else ParseMagnitude(t)
  }

  /** `parseInt(s)`: skip leading white space, read an optional sign, then
      the magnitude. No digit at all gives `NaN`, modelled as `None`; `-0` is
      the integer 0. */
  function ParseInt(s: string): Option<int>
  {
    ParseSigned(TrimStart(s))
  }

  // ---------------------------------------------------------------------
  // Number to string, for integral values
  // ---------------------------------------------------------------------

  function DecimalDigit(d: nat): (c: char)
    requires d < 10
    ensures IsRadixDigit(c, 10) && DigitValue(c) == d
  {
    ('0' as int + d) as char
  }

  function ShowNat(n: nat): (r: string)
    ensures r != []
    ensures forall i :: 0 <= i < |r| ==> IsRadixDigit(r[i], 10)
    ensures r[0] == '0' ==> r == "0"
  {
    if n < 10 then [DecimalDigit(n)] else ShowNat(n / 10) + [DecimalDigit(n % 10)]
  }

  /** `String(n)` for an integral Number `n`: its decimal digits, with a
      leading `-` when it is negative. */
  function ShowInt(n: int): (r: string)
    ensures r != [] && (r[0] == '-' <==> n < 0)
    ensures (if n < 0 then r[1..] else r) == ShowNat(if n < 0 then -n else n)
  {
    if n < 0 then "-" + ShowNat(-n) else ShowNat(n)
  }

  /** `String(x)` for a Number `x` that is an integer (`Some`) or `NaN`
      (`None`). */
  function NumberToString(n: Option<int>): (r: string)
    ensures r != []
    ensures r == "NaN" <==> n.None?
  {
    match n
    case None => "NaN"
    case Some(k) => ShowInt(k)
  }

  // ---------------------------------------------------------------------
  // Lemmas
  // ---------------------------------------------------------------------

  /** A blank string gives `NaN`; a string whose first non-blank character
      is a digit from 1 to 9 gives a non-negative integer. */
  lemma ParseIntBlankOrDigit(s: string)
    ensures TrimStart(s) == [] ==> ParseInt(s).None?
    ensures TrimStart(s) != [] && '1' <= TrimStart(s)[0] <= '9' ==>
              ParseInt(s).Some? && ParseInt(s).value >= 0
  {
  }

  /** Lower-casing maps a character to `.` exactly when it is `.`. */
  lemma LowerCharDot(c: char)
    ensures LowerChar(c) == '.' <==> c == '.'
  {
  }

  /** `WhiteSpaceRun` counts exactly the white space at the start. */
  lemma {:induction false} WhiteSpaceRunIsLongest(s: string)
    ensures forall i :: 0 <= i < WhiteSpaceRun(s) ==> IsWhiteSpace(s[i])
    ensures WhiteSpaceRun(s) < |s| ==> !IsWhiteSpace(s[WhiteSpaceRun(s)])
  {
    if s != [] && IsWhiteSpace(s[0]) {
      WhiteSpaceRunIsLongest(s[1..]);
    }
  }

  /** `TrimStart` removes white space only, and all of it. */
  lemma TrimStartRemovesWhiteSpace(s: string)
    ensures forall i :: 0 <= i < |s| - |TrimStart(s)| ==> IsWhiteSpace(s[i])
    ensures TrimStart(s) != [] ==> !IsWhiteSpace(TrimStart(s)[0])
  {
    WhiteSpaceRunIsLongest(s);
  }

  /** `DigitRun` counts exactly the digits at the start. */
  lemma {:induction false} DigitRunIsLongest(s: string, radix: nat)
    ensures forall i :: 0 <= i < DigitRun(s, radix) ==> IsRadixDigit(s[i], radix)
    ensures DigitRun(s, radix) < |s| ==> !IsRadixDigit(s[DigitRun(s, radix)], radix)
  {
    if s != [] && IsRadixDigit(s[0], radix) {
      DigitRunIsLongest(s[1..], radix);
    }
  }

  lemma {:induction false} DigitsValueShowNat(n: nat)
    ensures DigitsValue(ShowNat(n), 10) == n
  {
    var ds := ShowNat(n);
    if n < 10 {
      assert ds[..|ds| - 1] == [];
    } else {
      assert ds[..|ds| - 1] == ShowNat(n / 10);
      DigitsValueShowNat(n / 10);
    }
  }

  /** A run of digits followed by a non-digit (or by nothing) is read whole. */
  lemma {:induction false} DigitRunOfDigits(ds: string, rest: string, radix: nat)
    requires forall i :: 0 <= i < |ds| ==> IsRadixDigit(ds[i], radix)
    requires rest == [] || !IsRadixDigit(rest[0], radix)
    ensures DigitRun(ds + rest, radix) == |ds|
  {
    if ds != [] {
      assert (ds + rest)[1..] == ds[1..] + rest;
      DigitRunOfDigits(ds[1..], rest, radix);
    } else {
      assert ds + rest == rest;
    }
  }

  /** A decimal run not followed by a digit or an `x`/`X` is read as a
      base-10 magnitude. */
  lemma DecimalMagnitude(ds: string, rest: string)
    requires ds != [] && forall i :: 0 <= i < |ds| ==> IsRadixDigit(ds[i], 10)
    requires rest == [] || (!IsRadixDigit(rest[0], 10) && rest[0] != 'x' && rest[0] != 'X')
    ensures ParseMagnitude(ds + rest) == Some(DigitsValue(ds, 10))
  {
    var u := ds + rest;
    assert !HasHexPrefix(u) by {
      if |ds| >= 2 {
        assert u[1] == ds[1];
      } else if |u| >= 2 {
        assert u[1] == rest[0];
      }
    }
    DigitRunOfDigits(ds, rest, 10);
    assert u[..|ds|] == ds;
  }

  /** A string that does not start with white space is its own trimmed form. */
  lemma TrimStartNoWhiteSpace(s: string)
    requires s == [] || !IsWhiteSpace(s[0])
    ensures TrimStart(s) == s
  {
    assert WhiteSpaceRun(s) == 0;
  }

  /** A decimal run not followed by a digit or an `x`/`X` is read by
      `parseInt` as that run's value. */
  lemma ParseIntDecimal(ds: string, rest: string)
    requires ds != [] && forall i :: 0 <= i < |ds| ==> IsRadixDigit(ds[i], 10)
    requires rest == [] || (!IsRadixDigit(rest[0], 10) && rest[0] != 'x' && rest[0] != 'X')
    ensures ParseInt(ds + rest) == Some(DigitsValue(ds, 10))
  {
    var s := ds + rest;
    assert s[0] == ds[0] && IsRadixDigit(ds[0], 10);
    TrimStartNoWhiteSpace(s);
    DecimalMagnitude(ds, rest);
  }

  /** A leading `-` negates whatever magnitude follows it. */
  lemma ParseIntMinus(u: string)
    ensures ParseInt(['-'] + u) == Negate(ParseMagnitude(u))
  {
    var s := ['-'] + u;
    assert s[0] == '-' && s[1..] == u;
    TrimStartNoWhiteSpace(s);
  }

  /** A leading `+` is skipped: the magnitude that follows is the result. */
  lemma ParseIntPlus(u: string)
    ensures ParseInt(['+'] + u) == ParseMagnitude(u)
  {
    var s := ['+'] + u;
    assert s[0] == '+' && s[1..] == u;
    TrimStartNoWhiteSpace(s);
  }

  /** The same run behind a `-` is read as its value negated. */
  lemma ParseIntMinusDecimal(ds: string, rest: string)
    requires ds != [] && forall i :: 0 <= i < |ds| ==> IsRadixDigit(ds[i], 10)
    requires rest == [] || (!IsRadixDigit(rest[0], 10) && rest[0] != 'x' && rest[0] != 'X')
    ensures ParseInt(['-'] + (ds + rest)) == Negate(Some(DigitsValue(ds, 10)))
  {
    ParseIntMinus(ds + rest);
    DecimalMagnitude(ds, rest);
  }

  /** The decimal string of a negative integer is read back. */
  lemma ParseIntShowNegative(n: int, rest: string)
    requires n < 0
    requires rest == [] || (!IsRadixDigit(rest[0], 10) && rest[0] != 'x' && rest[0] != 'X')
    ensures ParseInt(ShowInt(n) + rest) == Some(n)
  {
    var m: nat := -n;
    var ds := ShowNat(m);
    calc {
      ParseInt(ShowInt(n) + rest);
      { assert ShowInt(n) + rest == ['-'] + (ds + rest); }
      ParseInt(['-'] + (ds + rest));
      { ParseIntMinusDecimal(ds, rest); }
      Negate(Some(DigitsValue(ds, 10)));
      { DigitsValueShowNat(m); }
      Negate(Some(m));
    }
  }

  /** The decimal string of a non-negative integer is read back. */
  lemma ParseIntShowNonNegative(n: nat, rest: string)
    requires rest == [] || (!IsRadixDigit(rest[0], 10) && rest[0] != 'x' && rest[0] != 'X')
    ensures ParseInt(ShowInt(n) + rest) == Some(n)
  {
    ParseIntDecimal(ShowNat(n), rest);
    DigitsValueShowNat(n);
  }

  /** `parseInt` reads back the decimal string of any integer, whatever
      follows it, provided what follows does not continue the number (a
      decimal digit) or turn a leading `0` into a hexadecimal prefix. */
  lemma ParseIntShowInt(n: int, rest: string)
    requires rest == [] || (!IsRadixDigit(rest[0], 10) && rest[0] != 'x' && rest[0] != 'X')
    ensures ParseInt(ShowInt(n) + rest) == Some(n)
  {
    if n < 0 {
      ParseIntShowNegative(n, rest);
    } else {
      ParseIntShowNonNegative(n, rest);
    }
  }

  /** `parseInt` reads the string of an integral or `NaN` Number back as the
      same value. */
  lemma NumberToStringParsesBack(n: Option<int>)
    ensures ParseInt(NumberToString(n)) == n
  {
    match n
    case None =>
      ParseIntNaN();
    case Some(k) =>
      ParseIntShowInt(k, "");
      assert ShowInt(k) + "" == ShowInt(k);
  }

  lemma ShowIntExamples()
    ensures ShowInt(10) == "10" && ShowInt(0) == "0" && ShowInt(12) == "12" && ShowInt(-7) == "-7"
  {
    assert ShowNat(1) == ['1'];
    assert ShowNat(10) == ShowNat(1) + ['0'];
    assert ShowNat(12) == ShowNat(1) + ['2'];
  }

  /** Decimal cases of `parseInt` that a form field can produce. */
  lemma ParseIntTen()
    ensures ParseInt("10") == Some(10)
  {
    ShowIntExamples();
    ParseIntShowInt(10, "");
    assert ShowInt(10) + "" == "10";
  }

  lemma ParseIntZero()
    ensures ParseInt("0") == Some(0)
  {
    ShowIntExamples();
    ParseIntShowInt(0, "");
    assert ShowInt(0) + "" == "0";
  }

  lemma ParseIntStopsAtPoint()
    ensures ParseInt("12.5") == Some(12)
  {
    ShowIntExamples();
    ParseIntShowInt(12, ".5");
    assert ShowInt(12) + ".5" == "12.5";
  }

  lemma ParseIntNegative()
    ensures ParseInt("-7px") == Some(-7)
  {
    ShowIntExamples();
    ParseIntShowInt(-7, "px");
    assert ShowInt(-7) + "px" == "-7px";
  }

  /** `parseInt` gives `NaN` when, after the leading white space, neither a
      sign nor a decimal digit follows. */
  lemma ParseIntWithoutDigit(s: string)
    requires var t := TrimStart(s); t == [] || (t[0] != '-' && t[0] != '+' && !IsRadixDigit(t[0], 10))
    ensures ParseInt(s) == None
  {
    var t := TrimStart(s);
    assert DigitRun(t, 10) == 0;
  }

  lemma ParseIntNaN()
    ensures ParseInt("NaN") == None
  {
    var s := "NaN";
    assert s[0] == 'N';
    TrimStartNoWhiteSpace(s);
    ParseIntWithoutDigit(s);
  }

  /** Without any digit `parseInt` gives `NaN`. */
  lemma ParseIntNaNExamples()
    ensures ParseInt("") == None
    ensures ParseInt(" ") == None
    ensures ParseInt("abc") == None
  {
    TrimStartNoWhiteSpace("");
    ParseIntWithoutDigit("");
    var blank := " ";
    assert WhiteSpaceRun(blank) == 1 by {
      assert blank[0] == ' ' && blank[1..] == [];
    }
    ParseIntWithoutDigit(blank);
    var abc := "abc";
    assert abc[0] == 'a';
    TrimStartNoWhiteSpace(abc);
    ParseIntWithoutDigit(abc);
  }

  /** A `0x` prefix switches `parseInt` to base 16. */
  lemma ParseIntHexExample()
    ensures ParseInt("0x1A") == Some(26)
  {
    var s := "0x1A";
    assert s[0] == '0';
    TrimStartNoWhiteSpace(s);
    assert HasHexPrefix(s);
    var body := s[2..];
    assert body == ['1', 'A'];
    assert DigitRun(body, 16) == 2 by {
      assert body[1..] == ['A'];
      assert body[1..][1..] == [];
    }
    assert body[..2] == body;
    var one := ['1'];
    assert one[..0] == [];
    assert DigitsValue(one, 16) == 1;
    assert body[..1] == one;
    assert DigitsValue(body, 16) == 26;
    assert LeadingNumber(body, 16) == Some(26);
  }

  /** `"+10"` parses as 10. */
  lemma ParseIntPlusTen()
    ensures ParseInt("+10") == Some(10)
  {
    ParseIntPlus("10");
    assert ['+'] + "10" == "+10";
    DecimalMagnitude("10", "");
    assert "10" + "" == "10";
    assert DigitsValue("10", 10) == 10 by {
      assert "10"[..1] == "1";
      assert "1"[..0] == [];
    }
  }

  /** An upper-case `0X` prefix also makes `parseInt` read base 16. */
  lemma ParseIntUpperHexExample()
    ensures ParseInt("0X10") == Some(16)
  {
    var s := "0X10";
    assert s[0] == '0';
    TrimStartNoWhiteSpace(s);
    assert HasHexPrefix(s);
    var body := s[2..];
    assert body == ['1', '0'];
    assert DigitRun(body, 16) == 2 by {
      assert body[1..] == ['0'];
      assert body[1..][1..] == [];
    }
    assert body[..2] == body;
    var one := ['1'];
    assert one[..0] == [];
    assert DigitsValue(one, 16) == 1;
    assert body[..1] == one;
    assert DigitsValue(body, 16) == 16;
  }
}
