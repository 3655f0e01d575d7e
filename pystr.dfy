/** The string operations of Python's `str` that the downloader uses: `strip`, `rstrip(c)`,
    `lower`, `str(int)` and `int(str)`. */
module PyStr {
  import opened Py

  /** The characters for which `str.isspace()` is true. */
  predicate IsSpace(c: char) {
    var n := c as int;
    n == 0x20 || (0x09 <= n <= 0x0d) || (0x1c <= n <= 0x1f) || n == 0x85 || n == 0xa0
    || n == 0x1680 || (0x2000 <= n <= 0x200a) || n == 0x2028 || n == 0x2029
    || n == 0x202f || n == 0x205f || n == 0x3000
  }

  /** The sets of characters the downloader strips or searches for. */
  datatype CharClass = Space | Slash | Colon | Hash | Question | NetlocEnd | Semicolon | NtSep

  predicate InClass(c: char, k: CharClass) {
    match k
    case Space => IsSpace(c)
    case Slash => c == '/'
    case Colon => c == ':'
    case Hash => c == '#'
    case Question => c == '?'
    case NetlocEnd => c == '/' || c == '?' || c == '#'
    case Semicolon => c == ';'
    case NtSep => c == '/' || c == '\\'
  }

  predicate IsDigit(c: char) { '0' <= c <= '9' }

  /** Removes the longest prefix of characters satisfying `drop`. */
  function LStrip(s: string, drop: CharClass): string {
    if s != [] && InClass(s[0], drop) then LStrip(s[1..], drop) else s
  }

  /** The result of `LStrip` is a suffix of its input; every character removed is in the
      class, and the first one kept is not. */
  lemma {:induction false} LStripRemovesPrefix(s: string, drop: CharClass)
    ensures var r := LStrip(s, drop);
      && |r| <= |s| && r == s[|s| - |r|..]
      && (forall i :: 0 <= i < |s| - |r| ==> InClass(s[i], drop))
      && (r == [] || !InClass(r[0], drop))
  {
    if s != [] && InClass(s[0], drop) {
      LStripRemovesPrefix(s[1..], drop);
    }
  }

  /** Removes the longest suffix of characters satisfying `drop` (`str.rstrip`). */
  function RStrip(s: string, drop: CharClass): string {
    if s != [] && InClass(s[|s| - 1], drop) then RStrip(s[..|s| - 1], drop) else s
  }

  /** The result of `RStrip` is a prefix of its input; every character removed is in the
      class, and the last one kept is not. */
  lemma {:induction false} RStripRemovesSuffix(s: string, drop: CharClass)
    ensures var r := RStrip(s, drop);
      && |r| <= |s| && r == s[..|r|]
      && (forall i :: |r| <= i < |s| ==> InClass(s[i], drop))
      && (r == [] || !InClass(r[|r| - 1], drop))
  {
    if s != [] && InClass(s[|s| - 1], drop) {
      RStripRemovesSuffix(s[..|s| - 1], drop);
    }
  }

  /** `str.strip()`: removes leading and trailing whitespace. */
  function Strip(s: string): string {
    RStrip(LStrip(s, Space), Space)
  }

  /** A string that starts and ends with something other than whitespace is its own strip. */
  lemma StripTrimmed(s: string)
    requires s == [] || (!IsSpace(s[0]) && !IsSpace(s[|s| - 1]))
    ensures Strip(s) == s
  {
    var l := LStrip(s, Space);
    LStripRemovesPrefix(s, Space);
    if |l| < |s| {
      assert IsSpace(s[0]);
    }
    assert l == s;
    assert s == [] || !IsSpace(s[|s| - 1]);
  }

  /** The value `url.strip().rstrip("/")` (downloader_light_modified.py:216, downloader.py:183). */
  function StripUrl(url: string): (r: string)
    ensures r == [] || (!IsSpace(r[0]) && r[|r| - 1] != '/')
  {
    LStripRemovesPrefix(url, Space);
    RStripRemovesSuffix(LStrip(url, Space), Space);
    RStripRemovesSuffix(Strip(url), Slash);
    RStrip(Strip(url), Slash)
  }

  /** `rstrip("/")` removes every trailing slash, not only the last one: a URL that already
      has no surrounding whitespace and does not end in '/' is what is left of itself
      followed by any run of slashes. */
  lemma StripUrlRemovesAllSlashes(base: string, slashes: string)
    requires base != [] && !IsSpace(base[0]) && !IsSpace(base[|base| - 1]) && base[|base| - 1] != '/'
    requires forall i :: 0 <= i < |slashes| ==> slashes[i] == '/'
    ensures StripUrl(base + slashes) == base
  {
    TrimmedWithSlashes(base, slashes);
    assert forall i :: 0 <= i < |slashes| ==> InClass(slashes[i], Slash);
    RStripDroppedSuffix(base, slashes, Slash);
  }

  /** A trimmed string followed by slashes is still trimmed. */
  lemma TrimmedWithSlashes(base: string, slashes: string)
    requires base != [] && !IsSpace(base[0]) && !IsSpace(base[|base| - 1])
    requires forall i :: 0 <= i < |slashes| ==> slashes[i] == '/'
    ensures Strip(base + slashes) == base + slashes
  {
    var s := base + slashes;
    assert s[0] == base[0];
    assert s[|s| - 1] == if slashes == [] then base[|base| - 1] else slashes[|slashes| - 1];
    StripTrimmed(s);
  }

  lemma {:induction false} RStripDroppedSuffix(base: string, suffix: string, drop: CharClass)
    requires base == [] || !InClass(base[|base| - 1], drop)
    requires forall i :: 0 <= i < |suffix| ==> InClass(suffix[i], drop)
    ensures RStrip(base + suffix, drop) == base
  {
    if suffix == [] {
      assert base + suffix == base;
    } else {
      var s := base + suffix;
      var shorter := suffix[..|suffix| - 1];
      assert s[|s| - 1] == suffix[|suffix| - 1];
      assert s[..|s| - 1] == base + shorter;
      RStripDroppedSuffix(base, shorter, drop);
    }
  }

  /** Lower-cases the ASCII letters of a character. */
  function LowerChar(c: char): char {
    if 'A' <= c <= 'Z' then (c as int + 32) as char else c
  }

  predicate IsUpper(c: char) { 'A' <= c <= 'Z' }

  /** `str.lower()`, restricted to ASCII letters. */
  function Lower(s: string): (r: string)
    ensures |r| == |s|
  {
    seq(|s|, i requires 0 <= i < |s| => LowerChar(s[i]))
  }

  /** Lowering turns each upper-case letter into its lower-case letter, keeps every other
      character, and leaves no upper-case letter. */
  lemma LowerLetters(s: string)
    ensures forall i :: 0 <= i < |s| && IsUpper(s[i]) ==> Lower(s)[i] as int == s[i] as int + ('a' as int - 'A' as int)
    ensures forall i :: 0 <= i < |s| && !IsUpper(s[i]) ==> Lower(s)[i] == s[i]
    ensures forall i :: 0 <= i < |s| ==> !IsUpper(Lower(s)[i])
  {
  }

  /** Lowering twice is lowering once. */
  lemma LowerIdempotent(s: string)
    ensures Lower(Lower(s)) == Lower(s)
  {
    var l := Lower(s);
    LowerLetters(s);
    LowerLetters(l);
  }

  function DigitChar(d: nat): char
    requires d < 10
  {
    ('0' as int + d) as char
  }

  /** The decimal digits of a natural number, most significant first. */
  function NatToDecimal(n: nat): string {
    if n < 10 then [DigitChar(n)] else NatToDecimal(n / 10) + [DigitChar(n % 10)]
  }

  /** `str(n)` is a non-empty string of digits. */
  lemma {:induction false} NatToDecimalDigits(n: nat)
    ensures NatToDecimal(n) != [] && AllDigits(NatToDecimal(n))
  {
    if n >= 10 {
      NatToDecimalDigits(n / 10);
    }
  }

  /** `str(i)` for an int. */
  function IntToDecimal(i: int): string {
    if i < 0 then "-" + NatToDecimal(-i) else NatToDecimal(i)
  }

  predicate AllDigits(s: string) {
    forall i :: 0 <= i < |s| ==> IsDigit(s[i])
  }

  /** The number a string of decimal digits denotes. */
  function DigitsValue(s: string): nat
    requires AllDigits(s)
  {
    if s == [] then 0 else DigitsValue(s[..|s| - 1]) * 10 + (s[|s| - 1] as int - '0' as int)
  }

  /** An optional '+' or '-' followed by a non-empty run of ASCII digits. */
  predicate IsIntText(t: string) {
    || (t != [] && AllDigits(t))
    || (|t| >= 2 && (t[0] == '+' || t[0] == '-') && AllDigits(t[1..]))
  }

  /** `int(s)` for a str `s`: surrounding whitespace, an optional sign and at least one
      ASCII digit; anything else raises ValueError (None here). */
  function ParseInt(s: string): (r: Option<int>)
    ensures r.Some? <==> IsIntText(Strip(s))
  {
    var t := Strip(s);
    if t != [] && (t[0] == '+' || t[0] == '-') then
      var digits := t[1..];
      if digits != [] && AllDigits(digits) then
        Some(if t[0] == '-' then -(DigitsValue(digits) as int) else DigitsValue(digits))
      else None
    else if t != [] && AllDigits(t) then Some(DigitsValue(t))
    else None
  }

  lemma {:induction false} DecimalRoundTrip(n: nat)
    ensures AllDigits(NatToDecimal(n)) && DigitsValue(NatToDecimal(n)) == n
  {
    NatToDecimalDigits(n);
    if n >= 10 {
      var d := NatToDecimal(n / 10);
      var s := d + [DigitChar(n % 10)];
      assert s[..|s| - 1] == d;
      DecimalRoundTrip(n / 10);
    }
  }

  /** `int(str(i)) == i`. */
  lemma ParseIntOfDecimal(i: int)
    ensures ParseInt(IntToDecimal(i)) == Some(i)
  {
    var s := IntToDecimal(i);
    var m: nat := if i < 0 then -i else i;
    var d := NatToDecimal(m);
    DecimalRoundTrip(m);
    assert s[|s| - 1] == d[|d| - 1];
    assert !IsSpace(s[0]);
    StripTrimmed(s);
    if i < 0 {
      assert s[1..] == d;
    } else {
      assert s == d;
    }
  }

  /** What `int()` accepts is `str()` of the result, up to a sign and leading zeros: the
      stripped text is `sign + zeros + str(abs(v))`, with '-' whenever `v` is negative. */
  lemma ParsedIntIsDecimal(s: string) returns (sign: string, zeros: string)
    requires ParseInt(s).Some?
    ensures var v := ParseInt(s).value;
      && (sign == "" || sign == "+" || sign == "-") && (v < 0 ==> sign == "-")
      && (forall i :: 0 <= i < |zeros| ==> zeros[i] == '0')
      && Strip(s) == sign + zeros + NatToDecimal(if v < 0 then -v else v)
  {
    var t := Strip(s);
    var v := ParseInt(s).value;
    var signed := t[0] == '+' || t[0] == '-';
    var digits := if signed then t[1..] else t;
    sign := if signed then t[..1] else "";
    assert t == sign + digits;
    assert DigitsValue(digits) == (if v < 0 then -v else v) && (v < 0 ==> sign == "-");
    zeros := DigitsAreDecimal(digits);
    AppendAssociative(sign, zeros, NatToDecimal(DigitsValue(digits)));
  }

  lemma AppendAssociative(a: string, b: string, c: string)
    ensures a + (b + c) == a + b + c
  {
  }

  /** A non-empty digit string is leading zeros followed by `str()` of its value. */
  lemma {:induction false} DigitsAreDecimal(t: string) returns (zeros: string)
    requires t != [] && AllDigits(t)
    ensures forall i :: 0 <= i < |zeros| ==> zeros[i] == '0'
    ensures t == zeros + NatToDecimal(DigitsValue(t))
  {
    var init, last := t[..|t| - 1], t[|t| - 1];
    assert t == init + [last];
    var n := DigitsValue(t);
    var d := last as int - '0' as int;
    assert n == DigitsValue(init) * 10 + d;
    assert DigitChar(d) == last;
    if init == [] || DigitsValue(init) == 0 {
      ZeroDigits(init);
      zeros := init;
    } else {
      assert n / 10 == DigitsValue(init) && n % 10 == d;
      zeros := DigitsAreDecimal(init);
      assert t == zeros + NatToDecimal(n / 10) + [DigitChar(n % 10)];
    }
  }

  /** Digits denoting zero are all '0'. */
  lemma {:induction false} ZeroDigits(t: string)
    requires AllDigits(t) && DigitsValue(t) == 0
    ensures forall i :: 0 <= i < |t| ==> t[i] == '0'
  {
    if t != [] {
      var init := t[..|t| - 1];
      ZeroDigits(init);
      assert forall i :: 0 <= i < |init| ==> t[i] == init[i];
    }
  }

  /** `str(i)` is injective. */
  lemma DecimalInjective(i: int, j: int)
    requires IntToDecimal(i) == IntToDecimal(j)
    ensures i == j
  {
    ParseIntOfDecimal(i);
    ParseIntOfDecimal(j);
  }

  /** Index of the first character satisfying `p`, or `|s|` when there is none. */
  function IndexWhere(s: string, p: CharClass): (r: nat)
    ensures r <= |s|
    ensures r < |s| ==> InClass(s[r], p)
    ensures forall k :: 0 <= k < r ==> !InClass(s[k], p)
  {
    if s == [] then 0 else if InClass(s[0], p) then 0 else 1 + IndexWhere(s[1..], p)
  }

  /** Index of the last character satisfying `p`, or -1 when there is none. */
  function LastIndexWhere(s: string, p: CharClass): (r: int)
    ensures -1 <= r < |s|
    ensures r >= 0 ==> InClass(s[r], p)
    ensures forall k :: r < k < |s| ==> !InClass(s[k], p)
  {
    if s == [] then -1 else if InClass(s[|s| - 1], p) then |s| - 1 else LastIndexWhere(s[..|s| - 1], p)
  }

  lemma {:induction false} IndexWhereAppend(a: string, b: string, p: CharClass)
    requires forall k :: 0 <= k < |a| ==> !InClass(a[k], p)
    ensures IndexWhere(a + b, p) == |a| + IndexWhere(b, p)
  {
    if a != [] {
      assert (a + b)[0] == a[0];
      assert (a + b)[1..] == a[1..] + b;
      IndexWhereAppend(a[1..], b, p);
    } else {
      assert a + b == b;
    }
  }
}
