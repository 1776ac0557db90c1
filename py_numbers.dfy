/** Python's `int(s)` and `float(s)` on a string, as far as the upscaler needs
    them: which strings they accept (the others raise `ValueError`) and, for
    `int`, the value. Only ASCII input is modelled. The syntax predicates are
    written as recursive scans; what they mean in terms of single characters is
    stated by the lemmas beside them. */
module PyNumbers {
  import opened Wrappers
  import PyStrings

  /** The white space `int()` and `float()` strip around a number on ASCII
      input (CPython's `Py_ISSPACE`): tab, line feed, vertical tab, form feed,
      carriage return and the space. The information separators U+001C to
      U+001F, although `str.isspace` holds for them, are not stripped. */
  predicate IsSpace(c: char) {
    (9 <= c as int <= 13) || c as int == 32
  }

  /** The string without its leading white space. */
  function TrimStart(s: string): string {
    if |s| > 0 && IsSpace(s[0]) then TrimStart(s[1..]) else s
  }

  /** The string without its trailing white space. */
  function TrimEnd(s: string): string {
    if |s| > 0 && IsSpace(s[|s| - 1]) then TrimEnd(s[..|s| - 1]) else s
  }

  /** The string without surrounding white space. */
  function Strip(s: string): string {
    TrimEnd(TrimStart(s))
  }

  /** `TrimStart(s)` is what follows the white space at the start of `s`:
      a suffix of `s`, whatever it drops is white space, and it does not
      itself start with white space. */
  lemma {:induction false} TrimStartDropsSpace(s: string)
    ensures |TrimStart(s)| <= |s|
    ensures TrimStart(s) == s[|s| - |TrimStart(s)|..]
    ensures TrimStart(s) == "" || !IsSpace(TrimStart(s)[0])
    ensures forall i :: 0 <= i < |s| - |TrimStart(s)| ==> IsSpace(s[i])
  {
    if |s| > 0 && IsSpace(s[0]) {
      TrimStartDropsSpace(s[1..]);
      forall i | 1 <= i < |s| - |TrimStart(s)| ensures IsSpace(s[i]) {
        assert s[i] == s[1..][i - 1];
      }
    }
  }

  /** `TrimEnd(s)` is what precedes the white space at the end of `s`: a
      prefix of `s`, whatever it drops is white space, and it does not itself
      end with white space. */
  lemma {:induction false} TrimEndDropsSpace(s: string)
    ensures |TrimEnd(s)| <= |s|
    ensures TrimEnd(s) == s[..|TrimEnd(s)|]
    ensures TrimEnd(s) == "" || !IsSpace(TrimEnd(s)[|TrimEnd(s)| - 1])
    ensures forall i :: |TrimEnd(s)| <= i < |s| ==> IsSpace(s[i])
  {
    if |s| > 0 && IsSpace(s[|s| - 1]) {
      TrimEndDropsSpace(s[..|s| - 1]);
      assert s[..|s| - 1][..|TrimEnd(s)|] == s[..|TrimEnd(s)|];
    }
  }

  predicate IsDigit(c: char) {
    '0' <= c <= '9'
  }

  /** Python's `digitpart ::= digit (["_"] digit)*`: decimal digits, with single
      underscores allowed between two digits. */
  predicate IsDigitPart(s: string)
    decreases |s|
  {
    && |s| > 0
    && IsDigit(s[0])
    && (|s| == 1 || IsDigitPart(s[1..]) || (s[1] == '_' && IsDigitPart(s[2..])))
  }

  /** A digit part, character by character: it starts and ends with a digit,
      holds nothing but digits and underscores, and every underscore is
      followed by a digit. */
  predicate DigitPartChars(s: string) {
    && |s| > 0
    && IsDigit(s[0])
    && IsDigit(s[|s| - 1])
    && (forall i :: 0 <= i < |s| ==> IsDigit(s[i]) || s[i] == '_')
    && (forall i :: 0 <= i < |s| - 1 && s[i] == '_' ==> IsDigit(s[i + 1]))
  }

  lemma {:induction false} DigitPartIff(s: string)
    ensures IsDigitPart(s) <==> DigitPartChars(s)
    decreases |s|
  {
    if |s| >= 2 {
      DigitPartIff(s[1..]);
      DigitPartIff(s[2..]);
      assert forall i :: 1 <= i < |s| ==> s[i] == s[1..][i - 1];
      assert forall i :: 2 <= i < |s| ==> s[i] == s[2..][i - 2];
      if DigitPartChars(s) {
        if s[1] == '_' {
          assert DigitPartChars(s[2..]);
        } else {
          assert DigitPartChars(s[1..]);
        }
      }
    }
  }

  /** The string with its underscores removed. */
  function DropUnderscores(s: string): (r: string)
    ensures |r| <= |s|
  {
    if s == [] then []
    else (if s[0] == '_' then [] else [s[0]]) + DropUnderscores(s[1..])
  }

  /** Removing the underscores of a digit part leaves digits only. */
  lemma {:induction false} DropUnderscoresOfDigitPart(s: string)
    requires IsDigitPart(s)
    ensures forall i :: 0 <= i < |DropUnderscores(s)| ==> IsDigit(DropUnderscores(s)[i])
    decreases |s|
  {
    if |s| >= 2 {
      if IsDigitPart(s[1..]) {
        DropUnderscoresOfDigitPart(s[1..]);
      } else {
        DropUnderscoresOfDigitPart(s[2..]);
        assert s[1..][1..] == s[2..];
        assert DropUnderscores(s[1..]) == DropUnderscores(s[2..]);
      }
    }
  }

  /** A string without underscores is left as it is. */
  lemma {:induction false} DropUnderscoresOfDigits(s: string)
    requires forall i :: 0 <= i < |s| ==> IsDigit(s[i])
    ensures DropUnderscores(s) == s
  {
    if s != [] {
      assert forall i :: 0 <= i < |s| - 1 ==> s[1..][i] == s[i + 1];
      DropUnderscoresOfDigits(s[1..]);
    }
  }

  function DigitOf(c: char): nat
    requires IsDigit(c)
  {
    c as int - '0' as int
  }

  /** The number a string of decimal digits denotes. */
  function DigitsValue(ds: string): nat
    requires forall i :: 0 <= i < |ds| ==> IsDigit(ds[i])
  {
    if ds == [] then 0
    else DigitsValue(ds[..|ds| - 1]) * 10 + DigitOf(ds[|ds| - 1])
  }

  /** An optional leading sign, split off: whether it was '-', and the rest. */
  function SplitSign(t: string): (bool, string) {
    if |t| > 0 && (t[0] == '-' || t[0] == '+') then (t[0] == '-', t[1..]) else (false, t)
  }

  /** Python's default limit on the number of digits `int()` converts
      (`sys.get_int_max_str_digits()`); a longer decimal string raises
      `ValueError`. */
  const IntMaxStrDigits: nat := 4300

  /** `int(s)`: `Some(n)` when Python's `int(s)` returns `n`, `None` when it
      raises `ValueError`. Accepted: surrounding white space, an optional sign,
      and a digit part of at most `IntMaxStrDigits` digits. */
  function ParseInt(s: string): Option<int> {
    var (negative, body) := SplitSign(Strip(s));
    if IsDigitPart(body) && |DropUnderscores(body)| <= IntMaxStrDigits then
      DropUnderscoresOfDigitPart(body);
      var n: int := DigitsValue(DropUnderscores(body));
      Some(if negative then -n else n)
    else
      None
  }

  /** A decimal digit character. */
  function DigitChar(d: nat): (c: char)
    requires d < 10
    ensures IsDigit(c) && c as int - '0' as int == d
  {
    ('0' as int + d) as char
  }

  /** `str(n)` for a natural number: its decimal digits, without leading zeros. */
  function Show(n: nat): (r: string)
    ensures |r| > 0 && forall i :: 0 <= i < |r| ==> IsDigit(r[i])
  {
    if n < 10 then [DigitChar(n)] else Show(n / 10) + [DigitChar(n % 10)]
  }

  /** `str(i)` for an integer. */
  function IntToString(i: int): string {
    if i < 0 then "-" + Show(-i) else Show(i)
  }

  lemma {:induction false} ShowValue(n: nat)
    ensures DigitsValue(Show(n)) == n
  {
    if n >= 10 {
      var s := Show(n);
      assert s[..|s| - 1] == Show(n / 10);
      ShowValue(n / 10);
    }
  }

  /** A string of digits is a digit part. */
  lemma {:induction false} DigitsAreDigitPart(s: string)
    requires |s| > 0 && forall i :: 0 <= i < |s| ==> IsDigit(s[i])
    ensures IsDigitPart(s)
  {
    DigitPartIff(s);
  }

  /** `int(str(i)) == i` for every integer `str` can convert. */
  lemma ParseIntToString(i: int)
    requires |Show(if i < 0 then -i else i)| <= IntMaxStrDigits
    ensures ParseInt(IntToString(i)) == Some(i)
  {
    var n: nat := if i < 0 then -i else i;
    var t := IntToString(i);
    assert Strip(t) == t;
    assert SplitSign(t).1 == Show(n);
    ShowValue(n);
    DigitsAreDigitPart(Show(n));
    DropUnderscoresOfDigits(Show(n));
  }

  lemma {:induction false} TrimStartSpaces(ws: string, t: string)
    requires forall i :: 0 <= i < |ws| ==> IsSpace(ws[i])
    requires t == "" || !IsSpace(t[0])
    ensures TrimStart(ws + t) == t
  {
    if ws != [] {
      assert (ws + t)[1..] == ws[1..] + t;
      TrimStartSpaces(ws[1..], t);
    }
  }

  lemma {:induction false} TrimEndSpaces(t: string, ws: string)
    requires forall i :: 0 <= i < |ws| ==> IsSpace(ws[i])
    requires t == "" || !IsSpace(t[|t| - 1])
    ensures TrimEnd(t + ws) == t
  {
    if ws != [] {
      assert (t + ws)[..|t + ws| - 1] == t + ws[..|ws| - 1];
      TrimEndSpaces(t, ws[..|ws| - 1]);
    }
  }

  /** Surrounding white space is stripped: a literal with no surrounding white
      space of its own reads the same with any amount of it added. */
  lemma StripPadded(pre: string, t: string, post: string)
    requires forall i :: 0 <= i < |pre| ==> IsSpace(pre[i])
    requires forall i :: 0 <= i < |post| ==> IsSpace(post[i])
    requires t != "" && !IsSpace(t[0]) && !IsSpace(t[|t| - 1])
    ensures Strip(pre + t + post) == t
  {
    assert pre + t + post == pre + (t + post);
    TrimStartSpaces(pre, t + post);
    TrimEndSpaces(t, post);
  }

  /** White space around a literal changes neither what `int()` nor what
      `float()` makes of it: padding is ignored for every literal, accepted or
      not, that has no white space at its own ends. */
  lemma PaddingIgnored(pre: string, t: string, post: string)
    requires forall i :: 0 <= i < |pre| ==> IsSpace(pre[i])
    requires forall i :: 0 <= i < |post| ==> IsSpace(post[i])
    requires t != "" && !IsSpace(t[0]) && !IsSpace(t[|t| - 1])
    ensures ParseInt(pre + t + post) == ParseInt(t)
    ensures ParseFloat(pre + t + post) == ParseFloat(t)
  {
    StripPadded(pre, t, post);
    StripPadded("", t, "");
    assert "" + t + "" == t;
  }

  /** `int(" 12\n") == 12`: white space around the digits of `str(i)` is
      accepted. */
  lemma ParseIntPadded(pre: string, i: int, post: string)
    requires forall k :: 0 <= k < |pre| ==> IsSpace(pre[k])
    requires forall k :: 0 <= k < |post| ==> IsSpace(post[k])
    requires |Show(if i < 0 then -i else i)| <= IntMaxStrDigits
    ensures ParseInt(pre + IntToString(i) + post) == Some(i)
  {
    var t := IntToString(i);
    assert t[0] == '-' || IsDigit(t[0]);
    assert IsDigit(t[|t| - 1]);
    PaddingIgnored(pre, t, post);
    ParseIntToString(i);
  }

  /** `int()` refuses a string of more than `IntMaxStrDigits` decimal digits,
      leading zeros included, even though it denotes a natural number. */
  lemma TooManyDigits(s: string)
    requires |s| > IntMaxStrDigits && forall i :: 0 <= i < |s| ==> IsDigit(s[i])
    ensures ParseInt(s) == None
  {
    assert IsDigit(s[0]) && IsDigit(s[|s| - 1]);
    assert Strip(s) == s;
    DropUnderscoresOfDigits(s);
  }

  /** A value made only of white space is truthy in Python but is rejected by
      both `int()` and `float()`. */
  lemma BlankIsNotNumber(s: string)
    requires forall i :: 0 <= i < |s| ==> IsSpace(s[i])
    ensures ParseInt(s) == None
    ensures ParseFloat(s) == None
  {
    assert s + "" == s;
    TrimStartSpaces(s, "");
    assert Strip(s) == "";
  }

  /** The value of a Python float. Only the validated literal is kept: its
      conversion to the nearest binary64 number is not modelled. */
  datatype Float = Float(literal: string)

  /** The index of the first 'e' or 'E' in `s`, or `|s|` if there is none. */
  function ExponentStart(s: string): (r: nat)
    ensures r <= |s|
    ensures r < |s| ==> s[r] == 'e' || s[r] == 'E'
  {
    if s == [] || s[0] == 'e' || s[0] == 'E' then 0 else 1 + ExponentStart(s[1..])
  }

  /** The index of the first '.' in `s`, or `|s|` if there is none. */
  function PointIndex(s: string): (r: nat)
    ensures r <= |s|
    ensures r < |s| ==> s[r] == '.'
  {
    if s == [] || s[0] == '.' then 0 else 1 + PointIndex(s[1..])
  }

  /** The part of a float literal before its exponent: `digitpart`,
      `digitpart "."`, `"." digitpart` or `digitpart "." digitpart`. */
  predicate IsMantissa(m: string) {
    var p := PointIndex(m);
    if p == |m| then IsDigitPart(m)
    else
      var whole, fraction := m[..p], m[p + 1..];
      && (whole != "" || fraction != "")
      && (whole == "" || IsDigitPart(whole))
      && (fraction == "" || IsDigitPart(fraction))
  }

  /** `("e" | "E") ["+" | "-"] digitpart`. */
  predicate IsExponent(x: string) {
    && |x| >= 2
    && (x[0] == 'e' || x[0] == 'E')
    && (IsDigitPart(x[1..]) || (|x| >= 3 && (x[1] == '+' || x[1] == '-') && IsDigitPart(x[2..])))
  }

  /** `s.lower() == word` for a lower-case ASCII `word`. */
  predicate LowerEquals(s: string, word: string)
    decreases |s|
  {
    |s| == |word| && (s == [] || (PyStrings.LowerChar(s[0]) == word[0] && LowerEquals(s[1..], word[1..])))
  }

  /** Python's float syntax without the sign, on a stripped string: infinity
      and not-a-number in any letter case, or a decimal number. */
  predicate IsUnsignedFloat(b: string) {
    || LowerEquals(b, "inf") || LowerEquals(b, "infinity") || LowerEquals(b, "nan")
    || (var e := ExponentStart(b); IsMantissa(b[..e]) && (e == |b| || IsExponent(b[e..])))
  }

  /** `float(s)`: `Some` when Python's `float(s)` returns a number, `None` when
      it raises `ValueError`. */
  function ParseFloat(s: string): Option<Float> {
    var t := Strip(s);
    if IsUnsignedFloat(SplitSign(t).1) then Some(Float(t)) else None
  }

  lemma {:induction false} NoExponentMark(s: string)
    requires forall k :: 0 <= k < |s| ==> IsDigit(s[k]) || s[k] == '_'
    ensures ExponentStart(s) == |s| && PointIndex(s) == |s|
  {
    if s != [] {
      assert forall k :: 0 <= k < |s| - 1 ==> s[1..][k] == s[k + 1];
      NoExponentMark(s[1..]);
    }
  }

  /** Every string `int()` accepts, `float()` accepts too. */
  lemma IntLiteralIsFloatLiteral(s: string)
    requires ParseInt(s).Some?
    ensures ParseFloat(s).Some?
  {
    var b := SplitSign(Strip(s)).1;
    DigitPartIff(b);
    NoExponentMark(b);
    assert b[..|b|] == b;
  }
}
