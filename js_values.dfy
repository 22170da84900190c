/** The numeric sanitiser: how raw property values (JSON numbers, strings with
    thousands separators, null, missing keys) become a finite number or null.
    JavaScript numbers are modelled as mathematical reals; NaN and the two
    infinities are collapsed into one `NonFinite` value, because every check in
    the modelled code is `Number.isFinite`. */
module JsValues {

  datatype Option<T> = None | Some(value: T)

  /** The result of JavaScript's `Number(...)` conversion. */
  datatype JsNumber = Finite(x: real) | NonFinite

  /** A raw property value as it arrives in a GeoJSON property bag or a
      geocoder result.  `VOther` stands for booleans, objects and arrays. */
  datatype Value =
    | VUndefined
    | VNull
    | VNum(n: JsNumber)
    | VStr(s: string)
    | VOther

  // ---------------------------------------------------------------------
  // Characters and strings
  // ---------------------------------------------------------------------

  /** The characters `String.prototype.trim` removes: white space and line
      terminators. */
  predicate IsWhitespace(c: char) {
    // tab, line feed, vertical tab, form feed and carriage return are U+0009..U+000D
    (c <= ' ' && (c == ' ' || '\t' <= c <= '\r'))
    || ('\U{A0}' <= c
        && (c == '\U{A0}' || c == '\U{1680}' || ('\U{2000}' <= c <= '\U{200A}')
            || c == '\U{2028}' || c == '\U{2029}' || c == '\U{202F}' || c == '\U{205F}'
            || c == '\U{3000}' || c == '\U{FEFF}'))
  }

  predicate AllWhitespace(s: string) {
    forall i :: 0 <= i < |s| ==> IsWhitespace(s[i])
  }

  /** `value.replace(/,/g, "")`: every comma removed, everything else kept
      in order (RemoveCommasSpec). */
  function RemoveCommas(s: string): string {
    if s == [] then []
    else (if s[0] == ',' then [] else [s[0]]) + RemoveCommas(s[1..])
  }

  /** `trimStart`: the leading white space removed (TrimStartSpec). */
  function TrimStart(s: string): string {
    if s != [] && IsWhitespace(s[0]) then TrimStart(s[1..]) else s
  }

  /** `trimEnd`: the trailing white space removed (TrimEndSpec). */
  function TrimEnd(s: string): string {
    if s != [] && IsWhitespace(s[|s| - 1]) then TrimEnd(s[..|s| - 1]) else s
  }

  /** Removing commas leaves no comma, never lengthens the text, and keeps
      text without commas as it is. */
  lemma {:induction false} RemoveCommasSpec(s: string)
    ensures var r := RemoveCommas(s);
      |r| <= |s| && forall i :: 0 <= i < |r| ==> r[i] != ','
  {
    if s != [] {
      RemoveCommasSpec(s[1..]);
    }
  }

  /** Text without commas is left as it is. */
  lemma {:induction false} RemoveCommasNone(s: string)
    requires forall i :: 0 <= i < |s| ==> s[i] != ','
    ensures RemoveCommas(s) == s
  {
    if s != [] {
      RemoveCommasNone(s[1..]);
      assert [s[0]] + s[1..] == s;
    }
  }

  /** trimStart keeps a suffix and drops only white space before it; what is
      left does not start with white space. */
  lemma {:induction false} TrimStartSpec(s: string)
    ensures var r := TrimStart(s);
      |r| <= |s| && r == s[|s| - |r|..] && AllWhitespace(s[..|s| - |r|]) && (r != [] ==> !IsWhitespace(r[0]))
  {
    if s != [] && IsWhitespace(s[0]) {
      var tail := s[1..];
      TrimStartSpec(tail);
      var r := TrimStart(tail);
      var k := |s| - |r|;
      assert tail[|tail| - |r|..] == s[k..];
      forall i | 0 <= i < k
        ensures IsWhitespace(s[i])
      {
        if i > 0 {
          assert s[i] == tail[..|tail| - |r|][i - 1];
        }
      }
    }
  }

  /** trimEnd keeps a prefix and drops only white space after it; what is
      left does not end with white space. */
  lemma {:induction false} TrimEndSpec(s: string)
    ensures var r := TrimEnd(s);
      |r| <= |s| && r == s[..|r|] && AllWhitespace(s[|r|..]) && (r != [] ==> !IsWhitespace(r[|r| - 1]))
  {
    if s != [] && IsWhitespace(s[|s| - 1]) {
      var init := s[..|s| - 1];
      TrimEndSpec(init);
      var r := TrimEnd(init);
      assert init[..|r|] == s[..|r|];
      forall i | |r| <= i < |s|
        ensures IsWhitespace(s[i])
      {
        if i < |s| - 1 {
          assert s[i] == init[|r|..][i - |r|];
        }
      }
    }
  }

  /** `String.prototype.trim`. */
  function Trim(s: string): string {
    TrimEnd(TrimStart(s))
  }

  /** Trimming keeps a slice of the text, drops only white space around it,
      and leaves no white space at either end. */
  lemma TrimSpec(s: string)
    ensures var r := Trim(s);
      r != [] ==> !IsWhitespace(r[0]) && !IsWhitespace(r[|r| - 1])
    ensures var r := Trim(s);
      exists i, j :: 0 <= i <= j <= |s| && r == s[i..j] && AllWhitespace(s[..i]) && AllWhitespace(s[j..])
  {
    var t := TrimStart(s);
    var r := TrimEnd(t);
    TrimStartSpec(s);
    TrimEndSpec(t);
    var i := |s| - |t|;
    var j := i + |r|;
    assert r == s[i..j] && s[j..] == t[|r|..];
    assert r != [] ==> r[0] == t[0];
    assert 0 <= i <= j <= |s| && r == s[i..j] && AllWhitespace(s[..i]) && AllWhitespace(s[j..]);
  }

  /** Text made only of white space trims to nothing. */
  lemma TrimOfWhitespace(w: string)
    requires AllWhitespace(w)
    ensures Trim(w) == []
  {
    assert w + [] == w;
    TrimStartWhitespacePrefix(w, []);
  }

  // ---------------------------------------------------------------------
  // Decimal literals
  // ---------------------------------------------------------------------

  predicate IsDigit(c: char) { '0' <= c <= '9' }

  predicate AllDigits(s: string) {
    forall i :: 0 <= i < |s| ==> IsDigit(s[i])
  }

  function DigitValue(c: char): (d: nat)
    requires IsDigit(c)
    ensures d <= 9
  {
    c as int - '0' as int
  }

  /** The value of a run of decimal digits, most significant first. */
  function IntegerValue(ds: string): nat
    requires AllDigits(ds)
  {
    if ds == [] then 0 else 10 * IntegerValue(ds[..|ds| - 1]) + DigitValue(ds[|ds| - 1])
  }

  /** The value of the digits after a decimal point: `0.d1d2d3...`. */
  function FractionValue(ds: string): (r: real)
    requires AllDigits(ds)
    ensures 0.0 <= r < 1.0
  {
    if ds == [] then 0.0 else (DigitValue(ds[0]) as real + FractionValue(ds[1..])) / 10.0
  }

  /** Index of the first '.', or |s| when there is none. */
  function DotIndex(s: string): (k: nat)
    ensures k <= |s|
    ensures forall i :: 0 <= i < k ==> s[i] != '.'
    ensures k < |s| ==> s[k] == '.'
  {
    if s == [] || s[0] == '.' then 0 else 1 + DotIndex(s[1..])
  }

  /** An unsigned decimal literal: digits, optionally a '.', optionally more
      digits, with at least one digit in all ("12", "12.", ".5", "12.50").
      JavaScript's `Number` also accepts hexadecimal, binary and octal
      literals and exponents ("0x1F", "1e3"); this model reads those as NaN. */
  function ParseUnsignedDecimal(b: string): JsNumber {
    var k := DotIndex(b);
    var ip := b[..k];
    var fp := if k < |b| then b[k + 1..] else [];
    if (|ip| > 0 || |fp| > 0) && AllDigits(ip) && AllDigits(fp)
    then Finite(IntegerValue(ip) as real + FractionValue(fp))
    else NonFinite
  }

  function Negate(n: JsNumber): JsNumber {
    match n
    case Finite(x) => Finite(-x)
    case NonFinite => NonFinite
  }

  /** `Number(s)` for a string: surrounding white space is ignored, the empty
      string is 0, "Infinity" with an optional sign is not finite, otherwise
      an optionally signed decimal literal. */
  function StringToNumber(s: string): JsNumber {
    var t := Trim(s);
    if t == [] then Finite(0.0)
    else if t == "Infinity" || t == "+Infinity" || t == "-Infinity" then NonFinite
    else if t[0] == '-' then Negate(ParseUnsignedDecimal(t[1..]))
    else if t[0] == '+' then ParseUnsignedDecimal(t[1..])
    else ParseUnsignedDecimal(t)
  }

  /** `Number(v)` for the values the modelled code converts.  `null` is 0 and
      `undefined` is NaN; booleans (`Number(true) == 1`) are not modelled and
      fall under `VOther`, read as NaN. */
  function ToNumber(v: Value): JsNumber {
    match v
    case VUndefined => NonFinite
    case VNull => Finite(0.0)
    case VNum(n) => n
    case VStr(s) => StringToNumber(s)
    case VOther => NonFinite
  }

  /** `Math.min` and `Math.max` on finite numbers. */
  function Min(a: real, b: real): real { if a <= b then a else b }
  function Max(a: real, b: real): real { if a >= b then a else b }

  lemma DivNonNegative(d: real, t: real)
    requires d >= 0.0 && t > 0.0
    ensures d / t >= 0.0
  {
  }

  /** Dividing by a positive number keeps the order. */
  lemma DivMonotone(d1: real, d2: real, t: real)
    requires d1 <= d2 && t > 0.0
    ensures d1 / t <= d2 / t
  {
    DivNonNegative(d2 - d1, t);
    assert d2 / t - d1 / t == (d2 - d1) / t;
  }

  /** `String.prototype.toLowerCase` on ASCII letters. */
  function ToLowerAscii(s: string): (r: string)
    ensures |r| == |s|
    ensures forall i :: 0 <= i < |s| ==> r[i] == (if 'A' <= s[i] <= 'Z' then (s[i] as int + 32) as char else s[i])
  {
    if s == [] then []
    else [if 'A' <= s[0] <= 'Z' then (s[0] as int + 32) as char else s[0]] + ToLowerAscii(s[1..])
  }

  /** Lower-casing leaves text without upper-case letters unchanged. */
  lemma LowerCaseUnchanged(s: string)
    requires forall i :: 0 <= i < |s| ==> !('A' <= s[i] <= 'Z')
    ensures ToLowerAscii(s) == s
  {
  }

  // ---------------------------------------------------------------------
  // The sanitiser (app.js toNumberOrNull / safeNumber)
  // ---------------------------------------------------------------------

  /** `toNumberOrNull`: a finite number, or None for null, undefined,
      non-finite numbers, blank or unparsable strings and every other type. */
  function ToNumberOrNull(v: Value): Option<real> {
    match v
    case VUndefined => None
    case VNull => None
    case VNum(n) => if n.Finite? then Some(n.x) else None
    case VStr(s) =>
      var cleaned := Trim(RemoveCommas(s));
      if cleaned == [] then None
      else
        var parsed := StringToNumber(cleaned);
        if parsed.Finite? then Some(parsed.x) else None
    case VOther => None
  }

  /** `safeNumber`: the sanitised value with null read as 0. */
  function SafeNumber(v: Value): (r: real)
    ensures ToNumberOrNull(v).Some? ==> r == ToNumberOrNull(v).value
    ensures ToNumberOrNull(v).None? ==> r == 0.0
  {
    match ToNumberOrNull(v)
    case Some(x) => x
    case None => 0.0
  }

  /** The value a sanitised result is stored as when it is put back into an
      object (`counts` in getTransactionInfo): a number or null. */
  function FromOption(o: Option<real>): (v: Value)
    ensures v.VNull? || v.VNum?
  {
    match o
    case Some(x) => VNum(Finite(x))
    case None => VNull
  }

  // ---------------------------------------------------------------------
  // Properties of the sanitiser
  // ---------------------------------------------------------------------

  /** Sanitising twice is the same as sanitising once: a finite number comes
      back unchanged and null stays null. */
  lemma SanitiseIdempotent(v: Value)
    ensures ToNumberOrNull(FromOption(ToNumberOrNull(v))) == ToNumberOrNull(v)
  {
  }

  /** The sanitiser never reports a value for null, undefined, a non-finite
      number, a non-string non-number, or a string that is blank once its
      commas are removed; a finite number always comes back as itself. */
  lemma SanitiseCases(v: Value)
    ensures (v.VUndefined? || v.VNull? || v.VOther? || v == VNum(NonFinite)) ==> ToNumberOrNull(v) == None
    ensures v.VNum? && v.n.Finite? ==> ToNumberOrNull(v) == Some(v.n.x)
    ensures v.VStr? && AllWhitespace(RemoveCommas(v.s)) ==> ToNumberOrNull(v) == None
  {
    if v.VStr? && AllWhitespace(RemoveCommas(v.s)) {
      TrimOfWhitespace(RemoveCommas(v.s));
    }
  }

  lemma {:induction false} RemoveCommasAppend(a: string, b: string)
    ensures RemoveCommas(a + b) == RemoveCommas(a) + RemoveCommas(b)
  {
    if a == [] {
      assert a + b == b;
    } else {
      assert (a + b)[1..] == a[1..] + b;
      RemoveCommasAppend(a[1..], b);
    }
  }

  /** Thousands separators are ignored wherever they stand. */
  lemma CommaInsensitive(a: string, b: string)
    ensures ToNumberOrNull(VStr(a + "," + b)) == ToNumberOrNull(VStr(a + b))
  {
    RemoveCommasAppend(a + ",", b);
    RemoveCommasAppend(a, ",");
    RemoveCommasAppend(a, b);
    assert RemoveCommas(",") == [];
    assert RemoveCommas(a + ",") == RemoveCommas(a);
  }

  lemma {:induction false} TrimStartWhitespacePrefix(pre: string, y: string)
    requires AllWhitespace(pre)
    ensures TrimStart(pre + y) == TrimStart(y)
  {
    if pre != [] {
      assert (pre + y)[0] == pre[0];
      assert (pre + y)[1..] == pre[1..] + y;
      TrimStartWhitespacePrefix(pre[1..], y);
    } else {
      assert pre + y == y;
    }
  }

  lemma {:induction false} TrimEndWhitespaceSuffix(y: string, post: string)
    requires AllWhitespace(post)
    ensures TrimEnd(y + post) == TrimEnd(y)
  {
    if post != [] {
      var yp := y + post;
      assert yp[|yp| - 1] == post[|post| - 1];
      assert yp[..|yp| - 1] == y + post[..|post| - 1];
      TrimEndWhitespaceSuffix(y, post[..|post| - 1]);
    } else {
      assert y + post == y;
    }
  }

  lemma {:induction false} TrimStartAppend(x: string, y: string)
    requires TrimStart(x) != []
    ensures TrimStart(x + y) == TrimStart(x) + y
  {
    if x != [] && IsWhitespace(x[0]) {
      assert (x + y)[1..] == x[1..] + y;
      TrimStartAppend(x[1..], y);
    } else {
      assert x != [];
    }
  }

  lemma AllWhitespaceAppend(a: string, b: string)
    requires AllWhitespace(a) && AllWhitespace(b)
    ensures AllWhitespace(a + b)
  {
    forall i | 0 <= i < |a + b|
      ensures IsWhitespace((a + b)[i])
    {
      if i < |a| {
        assert (a + b)[i] == a[i];
      } else {
        assert (a + b)[i] == b[i - |a|];
      }
    }
  }

  /** Trimming ignores white space added on either side. */
  lemma TrimPadding(pre: string, x: string, post: string)
    requires AllWhitespace(pre) && AllWhitespace(post)
    ensures Trim(pre + x + post) == Trim(x)
  {
    var xp := x + post;
    assert pre + x + post == pre + xp;
    TrimStartWhitespacePrefix(pre, xp);
    assert Trim(pre + x + post) == TrimEnd(TrimStart(xp));
    var t := TrimStart(x);
    if t != [] {
      TrimStartAppend(x, post);
      TrimEndWhitespaceSuffix(t, post);
    } else {
      TrimStartSpec(x);
      assert x[..|x|] == x;
      AllWhitespaceAppend(x, post);
      TrimOfWhitespace(xp);
    }
  }

  lemma RemoveCommasWhitespace(w: string)
    requires AllWhitespace(w)
    ensures RemoveCommas(w) == w
  {
    forall i | 0 <= i < |w|
      ensures w[i] != ','
    {
      assert IsWhitespace(w[i]);
    }
    RemoveCommasNone(w);
  }

  /** White space around a number in a string is ignored. */
  lemma WhitespaceInsensitive(pre: string, s: string, post: string)
    requires AllWhitespace(pre) && AllWhitespace(post)
    ensures ToNumberOrNull(VStr(pre + s + post)) == ToNumberOrNull(VStr(s))
  {
    RemoveCommasAppend(pre + s, post);
    RemoveCommasAppend(pre, s);
    RemoveCommasWhitespace(pre);
    RemoveCommasWhitespace(post);
    TrimPadding(pre, RemoveCommas(s), post);
  }

  // ---------------------------------------------------------------------
  // Round trip: a natural number written in decimal is read back exactly
  // ---------------------------------------------------------------------

  function DigitChar(d: nat): (c: char)
    requires d <= 9
    ensures IsDigit(c) && DigitValue(c) == d
  {
    ('0' as int + d) as char
  }

  /** The decimal digits of n, most significant first, without separators. */
  function DecimalText(n: nat): (s: string)
    ensures s != [] && AllDigits(s)
  {
    if n < 10 then [DigitChar(n)] else DecimalText(n / 10) + [DigitChar(n % 10)]
  }

  lemma {:induction false} DecimalTextValue(n: nat)
    ensures IntegerValue(DecimalText(n)) == n
  {
    if n >= 10 {
      var s := DecimalText(n);
      assert s[..|s| - 1] == DecimalText(n / 10);
      DecimalTextValue(n / 10);
    }
  }

  /** A string without white space is its own trim. */
  lemma NoWhitespaceTrim(s: string)
    requires forall i :: 0 <= i < |s| ==> !IsWhitespace(s[i])
    ensures Trim(s) == s
  {
    assert s != [] ==> !IsWhitespace(s[0]);
    assert TrimStart(s) == s;
    assert s != [] ==> !IsWhitespace(s[|s| - 1]);
    assert TrimEnd(s) == s;
  }

  lemma {:induction false} DotIndexAfterDigits(ip: string, rest: string)
    requires AllDigits(ip)
    ensures DotIndex(ip + rest) == |ip| + DotIndex(rest)
  {
    if ip != [] {
      assert (ip + rest)[0] == ip[0] && IsDigit(ip[0]);
      assert (ip + rest)[1..] == ip[1..] + rest;
      DotIndexAfterDigits(ip[1..], rest);
    } else {
      assert ip + rest == rest;
    }
  }

  /** A literal "digits.digits" converts to the integer part plus the fraction. */
  lemma DecimalParse(ip: string, fp: string)
    requires AllDigits(ip) && AllDigits(fp) && (ip != [] || fp != [])
    ensures ParseUnsignedDecimal(ip + "." + fp) == Finite(IntegerValue(ip) as real + FractionValue(fp))
  {
    DecimalParseAux(ip, fp, ip + "." + fp);
  }

  lemma DecimalParseAux(ip: string, fp: string, b: string)
    requires AllDigits(ip) && AllDigits(fp) && (ip != [] || fp != [])
    requires b == ip + "." + fp
    ensures ParseUnsignedDecimal(b) == Finite(IntegerValue(ip) as real + FractionValue(fp))
  {
    var dotted := "." + fp;
    assert b == ip + dotted;
    DotIndexAfterDigits(ip, dotted);
    assert DotIndex(dotted) == 0;
    assert b[..|ip|] == ip;
    assert b[|ip| + 1..] == fp;
    ParseAtDot(b, |ip|);
  }

  /** With the first '.' at k, the literal reads as the digits before it
      plus the fraction after it. */
  lemma ParseAtDot(b: string, k: nat)
    requires k == DotIndex(b) && k < |b|
    requires AllDigits(b[..k]) && AllDigits(b[k + 1..]) && (k > 0 || k + 1 < |b|)
    ensures ParseUnsignedDecimal(b) == Finite(IntegerValue(b[..k]) as real + FractionValue(b[k + 1..]))
  {
  }

  lemma DigitsParse(s: string)
    requires s != [] && AllDigits(s)
    ensures ParseUnsignedDecimal(s) == Finite(IntegerValue(s) as real)
  {
    DotIndexAfterDigits(s, []);
    assert s + [] == s;
    assert s[..|s|] == s;
  }

  /** Without white space or a sign, `Number` reads the string as an unsigned literal. */
  lemma UnsignedToNumber(s: string)
    requires s != [] && IsDigit(s[0])
    requires forall i :: 0 <= i < |s| ==> !IsWhitespace(s[i])
    ensures StringToNumber(s) == ParseUnsignedDecimal(s)
  {
    NoWhitespaceTrim(s);
    assert s[0] != '-' && s[0] != '+';
    assert s != "Infinity" && s != "+Infinity" && s != "-Infinity" by {
      assert "Infinity"[0] == 'I' && "+Infinity"[0] == '+' && "-Infinity"[0] == '-';
    }
  }

  /** A non-empty run of digits converts to its integer value. */
  lemma DigitsToNumber(s: string)
    requires s != [] && AllDigits(s)
    ensures StringToNumber(s) == Finite(IntegerValue(s) as real)
  {
    UnsignedToNumber(s);
    DigitsParse(s);
  }

  /** A whole number printed in decimal is sanitised back to itself. */
  lemma DecimalTextRoundTrip(n: nat)
    ensures ToNumberOrNull(VStr(DecimalText(n))) == Some(n as real)
  {
    var s := DecimalText(n);
    forall i | 0 <= i < |s|
      ensures s[i] != ',' && !IsWhitespace(s[i])
    {
      assert IsDigit(s[i]);
    }
    RemoveCommasNone(s);
    NoWhitespaceTrim(s);
    DigitsToNumber(s);
    DecimalTextValue(n);
    SanitiseCleaned(s, s);
  }

  /** "1234" reads as 1234. */
  lemma IntegerValueExample(ip: string)
    requires ip == "1234"
    ensures AllDigits(ip) && IntegerValue(ip) == 1234
  {
    assert ip[..3] == "123";
    assert "123"[..2] == "12";
    assert "12"[..1] == "1";
    assert "1"[..0] == "";
  }

  /** The literal "1234.5" is its own trim and converts to 1234.5. */
  lemma ParseExample(s: string)
    requires s == "1234.5"
    ensures Trim(s) == s
    ensures StringToNumber(s) == Finite(1234.5)
  {
    var ip, fp := s[..4], s[5..];
    IntegerValueExample(ip);
    assert s == ip + "." + fp;
    assert fp == "5";
    assert FractionValue(fp) == 0.5 by {
      assert fp[1..] == [];
    }
    DecimalParse(ip, fp);
    forall i | 0 <= i < |s|
      ensures !IsWhitespace(s[i])
    {
      assert IsDigit(s[i]) || s[i] == '.';
    }
    UnsignedToNumber(s);
  }

  /** Once the cleaned text is known, the sanitiser is `Number` on it. */
  lemma SanitiseCleaned(s: string, cleaned: string)
    requires Trim(RemoveCommas(s)) == cleaned && cleaned != []
    ensures ToNumberOrNull(VStr(s)) == (if StringToNumber(cleaned).Finite? then Some(StringToNumber(cleaned).x) else None)
  {
  }

  /** "1234.5" is sanitised to 1234.5. */
  lemma PlainExample(plain: string)
    requires plain == "1234.5"
    ensures ToNumberOrNull(VStr(plain)) == Some(1234.5)
  {
    forall i | 0 <= i < |plain|
      ensures plain[i] != ','
    {
      assert IsDigit(plain[i]) || plain[i] == '.';
    }
    RemoveCommasNone(plain);
    ParseExample(plain);
    SanitiseCleaned(plain, plain);
  }

  /** The documented example: "1,234.5" is sanitised to 1234.5. */
  lemma SanitiseGroupedExample(grouped: string)
    requires grouped == "1,234.5"
    ensures ToNumberOrNull(VStr(grouped)) == Some(1234.5)
  {
    var head, tail := grouped[..1], grouped[2..];
    assert grouped == head + "," + tail;
    CommaInsensitive(head, tail);
    PlainExample(head + tail);
  }

  /** Text that starts with a letter other than 'I' (which could begin
      "Infinity") and holds no commas or white space is sanitised to null. */
  lemma LetterRejected(s: string)
    requires s != [] && ('a' <= s[0] <= 'z' || ('A' <= s[0] <= 'Z' && s[0] != 'I'))
    requires forall i :: 0 <= i < |s| ==> s[i] != ',' && !IsWhitespace(s[i])
    ensures ToNumberOrNull(VStr(s)) == None
  {
    RemoveCommasNone(s);
    NoWhitespaceTrim(s);
    assert s != "Infinity" && s != "+Infinity" && s != "-Infinity" by {
      assert "Infinity"[0] == 'I' && "+Infinity"[0] == '+' && "-Infinity"[0] == '-';
    }
    var k := DotIndex(s);
    assert k >= 1;
    assert !AllDigits(s[..k]) by {
      assert s[..k][0] == s[0];
    }
    assert StringToNumber(s) == NonFinite;
    SanitiseCleaned(s, s);
  }

  /** The documented examples: "" and "abc" are sanitised to null. */
  lemma SanitiseRejectsExamples(empty: string, word: string)
    requires empty == "" && word == "abc"
    ensures ToNumberOrNull(VStr(empty)) == None
    ensures ToNumberOrNull(VStr(word)) == None
  {
    assert word[0] == 'a' && word[1] == 'b' && word[2] == 'c';
    LetterRejected(word);
  }
}
