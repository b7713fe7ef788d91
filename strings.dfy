/**
 * String helpers with the semantics of the JavaScript/Node operations the
 * source uses: `startsWith`, `endsWith`, `includes`, `split`/`join` on a
 * one-character separator, `trim`, number-to-decimal conversion,
 * `path.extname` and ASCII `toLowerCase`.
 */
module Strings {
  import opened Wrappers


  predicate StartsWith(s: string, prefix: string) {
    |prefix| <= |s| && s[..|prefix|] == prefix
  }

  predicate EndsWith(s: string, suffix: string) {
    |suffix| <= |s| && s[|s| - |suffix|..] == suffix
  }

  /** `s.includes(sub)`: `sub` occurs somewhere in `s`. */
  predicate Contains(s: string, sub: string)
    decreases |s|
  {
    StartsWith(s, sub) || (|s| > 0 && Contains(s[1..], sub))
  }

  /** An occurrence at position `i` is enough for `Contains`. */
  lemma {:induction false} ContainsAt(s: string, sub: string, i: nat)
    requires i + |sub| <= |s| && s[i..i + |sub|] == sub
    ensures Contains(s, sub)
    decreases i
  {
    if i == 0 {
      assert s[..|sub|] == sub;
    } else {
      assert s[1..][i - 1..i - 1 + |sub|] == s[i..i + |sub|];
      ContainsAt(s[1..], sub, i - 1);
    }
  }

  /** A non-empty pattern whose first character never occurs in `s` is not contained in `s`. */
  lemma {:induction false} NotContainsWithoutFirstChar(s: string, sub: string)
    requires |sub| > 0 && sub[0] !in s
    ensures !Contains(s, sub)
    decreases |s|
  {
    if |s| > 0 {
      assert s[0] in s;
      assert forall ch :: ch in s[1..] ==> ch in s;
      NotContainsWithoutFirstChar(s[1..], sub);
    }
  }

  /** `parts.join(c)`. */
  function Join(parts: seq<string>, c: char): string
  {
    if |parts| == 0 then ""
    else if |parts| == 1 then parts[0]
    else parts[0] + [c] + Join(parts[1..], c)
  }

  /**
   * `s.split(c)` for a one-character separator: never empty, no piece holds
   * the separator, and joining the pieces gives `s` back.
   */
  function Split(s: string, c: char): (parts: seq<string>)
    ensures |parts| >= 1
    ensures forall i :: 0 <= i < |parts| ==> c !in parts[i]
    ensures Join(parts, c) == s
    decreases |s|
  {
    if |s| == 0 then [""]
    else
      var rest := Split(s[1..], c);
      if s[0] == c then
        assert ([""] + rest)[1..] == rest;
        assert [c] + s[1..] == s;
        [""] + rest
      else
        var parts := [[s[0]] + rest[0]] + rest[1..];
        assert parts[1..] == rest[1..];
        assert |rest| > 1 ==> Join(rest, c) == rest[0] + [c] + Join(rest[1..], c);
        assert [s[0]] + s[1..] == s;
        parts
  }

  /** A string without the separator splits into itself. */
  lemma {:induction false} SplitNoSeparator(a: string, c: char)
    requires c !in a
    ensures Split(a, c) == [a]
    decreases |a|
  {
    if |a| > 0 {
      assert forall ch :: ch in a[1..] ==> ch in a;
      SplitNoSeparator(a[1..], c);
      assert [a[0]] + a[1..] == a;
    }
  }

  /** Splitting `a + c + b`, where `a` has no separator, yields `a` followed by the pieces of `b`. */
  lemma {:induction false} SplitAfterFirst(a: string, b: string, c: char)
    requires c !in a
    ensures Split(a + [c] + b, c) == [a] + Split(b, c)
    decreases |a|
  {
    if |a| == 0 {
      assert a + [c] + b == [c] + b;
      assert ([c] + b)[1..] == b;
    } else {
      var s := a + [c] + b;
      assert s[0] == a[0] && a[0] in a;
      assert s[1..] == a[1..] + [c] + b;
      assert c !in a[1..] by {
        assert forall ch :: ch in a[1..] ==> ch in a;
      }
      SplitAfterFirst(a[1..], b, c);
      var rest := Split(s[1..], c);
      assert rest == [a[1..]] + Split(b, c);
      assert Split(s, c) == [[a[0]] + rest[0]] + rest[1..];
      assert rest[1..] == Split(b, c);
      assert [a[0]] + a[1..] == a;
    }
  }

  /** The characters `String.prototype.trim` removes: ECMAScript WhiteSpace and LineTerminator. */
  predicate IsJsWhitespace(ch: char) {
    ch in {' ', '\t', '\n', '\r', '\U{000B}', '\U{000C}', '\U{00A0}', '\U{FEFF}',
           '\U{1680}', '\U{2000}', '\U{2001}', '\U{2002}', '\U{2003}', '\U{2004}',
           '\U{2005}', '\U{2006}', '\U{2007}', '\U{2008}', '\U{2009}', '\U{200A}',
           '\U{2028}', '\U{2029}', '\U{202F}', '\U{205F}', '\U{3000}'}
  }

  predicate AllWhitespace(s: string) {
    forall i :: 0 <= i < |s| ==> IsJsWhitespace(s[i])
  }

  lemma WhitespaceCons(c: char, t: string)
    requires IsJsWhitespace(c) && AllWhitespace(t)
    ensures AllWhitespace([c] + t)
  {
    forall i | 0 <= i < |[c] + t| ensures IsJsWhitespace(([c] + t)[i]) {
      if i > 0 { assert ([c] + t)[i] == t[i - 1]; }
    }
  }

  /** Drops leading whitespace: the result is a suffix of `s` that starts with a non-space. */
  function TrimStart(s: string): (r: string)
    ensures |r| <= |s| && r == s[|s| - |r|..]
    ensures AllWhitespace(s[..|s| - |r|])
    ensures |r| > 0 ==> !IsJsWhitespace(r[0])
    decreases |s|
  {
    if |s| > 0 && IsJsWhitespace(s[0]) then
      var r := TrimStart(s[1..]);
      assert s[..|s| - |r|] == [s[0]] + s[1..][..|s| - 1 - |r|];
      WhitespaceCons(s[0], s[1..][..|s| - 1 - |r|]);
      r
    else s
  }

  /** Drops trailing whitespace: the result is a prefix of `s` that ends with a non-space. */
  function TrimEnd(s: string): (r: string)
    ensures |r| <= |s| && r == s[..|r|]
    ensures AllWhitespace(s[|r|..])
    ensures |r| > 0 ==> !IsJsWhitespace(r[|r| - 1])
    decreases |s|
  {
    if |s| > 0 && IsJsWhitespace(s[|s| - 1]) then
      var r := TrimEnd(s[..|s| - 1]);
      assert s[|r|..] == s[..|s| - 1][|r|..] + [s[|s| - 1]];
      r
    else s
  }

  /** `s.trim()`: `s` without the whitespace at either end, and nothing else removed. */
  function Trim(s: string): (r: string)
    ensures exists i :: 0 <= i <= |s| - |r| && AllWhitespace(s[..i]) && r == s[i..i + |r|] && AllWhitespace(s[i + |r|..])
  {
    var u := TrimStart(s);
    var r := TrimEnd(u);
    var i := |s| - |u|;
    assert r == s[i..i + |r|];
    assert s[i + |r|..] == u[|r|..];
    r
  }

  /** `s.trim() === ""` exactly when every character of `s` is whitespace. */
  lemma TrimEmptyIffBlank(s: string)
    ensures Trim(s) == "" <==> AllWhitespace(s)
  {
    var t := TrimStart(s);
    assert s == s[..|s| - |t|] + t;
  }

  /** A trimmed string has no whitespace at either end. */
  lemma {:induction false} TrimmedEnds(s: string)
    ensures var t := Trim(s); |t| > 0 ==> !IsJsWhitespace(t[0]) && !IsJsWhitespace(t[|t| - 1])
  {
    var u := TrimStart(s);
    var t := TrimEnd(u);
    assert Trim(s) == t;
    if |t| > 0 {
      assert t == u[..|t|];
      assert t[0] == u[0];
    }
  }

  predicate IsDigit(ch: char) {
    '0' <= ch <= '9'
  }

  function DigitChar(d: nat): (ch: char)
    requires d < 10
    ensures IsDigit(ch)
  {
    "0123456789"[d]
  }

  /** The decimal text of a non-negative number, as a template literal renders it. */
  function NatToString(n: nat): (r: string)
    ensures |r| >= 1
    ensures forall i :: 0 <= i < |r| ==> IsDigit(r[i])
    decreases n
  {
    if n < 10 then [DigitChar(n)] else NatToString(n / 10) + [DigitChar(n % 10)]
  }

  function DigitValue(ch: char): (d: nat)
    requires IsDigit(ch)
    ensures d < 10
  {
    ch as int - '0' as int
  }

  lemma DigitRoundTrip(d: nat)
    requires d < 10
    ensures DigitValue(DigitChar(d)) == d
  {
    assert d == 0 || d == 1 || d == 2 || d == 3 || d == 4 || d == 5 || d == 6 || d == 7 || d == 8 || d == 9;
  }

  /** The longest prefix of `s` made of decimal digits. */
  function DigitsPrefix(s: string): (d: string)
    ensures |d| <= |s| && d == s[..|d|]
    ensures forall i :: 0 <= i < |d| ==> IsDigit(d[i])
    ensures |d| < |s| ==> !IsDigit(s[|d|])
    decreases |s|
  {
    if |s| > 0 && IsDigit(s[0]) then [s[0]] + DigitsPrefix(s[1..]) else ""
  }

  /** The number a string of decimal digits denotes. */
  function DigitsValue(d: string): nat
    requires forall i :: 0 <= i < |d| ==> IsDigit(d[i])
    decreases |d|
  {
    if |d| == 0 then 0 else DigitsValue(d[..|d| - 1]) * 10 + DigitValue(d[|d| - 1])
  }

  predicate IsHexDigit(ch: char) {
    IsDigit(ch) || 'a' <= ch <= 'f' || 'A' <= ch <= 'F'
  }

  function HexValue(ch: char): (d: nat)
    requires IsHexDigit(ch)
    ensures d < 16
  {
    if IsDigit(ch) then DigitValue(ch)
    else if 'a' <= ch <= 'f' then ch as int - 'a' as int + 10
    else ch as int - 'A' as int + 10
  }

  /** The longest prefix of `s` made of hexadecimal digits. */
  function HexPrefix(s: string): (d: string)
    ensures |d| <= |s| && d == s[..|d|]
    ensures forall i :: 0 <= i < |d| ==> IsHexDigit(d[i])
    ensures |d| < |s| ==> !IsHexDigit(s[|d|])
    decreases |s|
  {
    if |s| > 0 && IsHexDigit(s[0]) then [s[0]] + HexPrefix(s[1..]) else ""
  }

  /** The number a string of hexadecimal digits denotes. */
  function HexDigitsValue(d: string): nat
    requires forall i :: 0 <= i < |d| ==> IsHexDigit(d[i])
    decreases |d|
  {
    if |d| == 0 then 0 else HexDigitsValue(d[..|d| - 1]) * 16 + HexValue(d[|d| - 1])
  }

  /** `0x` or `0X`: without a radix argument, `parseInt` then reads the rest in base 16. */
  predicate HasHexPrefix(body: string) {
    |body| >= 2 && body[0] == '0' && (body[1] == 'x' || body[1] == 'X')
  }

  /** What follows the optional sign, once leading whitespace is skipped. */
  function SignedBody(s: string): string {
    var t := TrimStart(s);
    if |t| > 0 && (t[0] == '-' || t[0] == '+') then t[1..] else t
  }

  /**
   * The unsigned part of `parseInt`: `0x`/`0X` and the longest run of
   * hexadecimal digits, or else the longest run of decimal digits; no
   * digits at all gives NaN (None).
   */
  function ParseMagnitude(body: string): (v: Option<nat>)
    ensures v.None? <==> (if HasHexPrefix(body) then HexPrefix(body[2..]) == "" else DigitsPrefix(body) == "")
  {
    if HasHexPrefix(body) then
      var hex := HexPrefix(body[2..]);
      if hex == "" then None else Some(HexDigitsValue(hex))
    else
      var digits := DigitsPrefix(body);
      if digits == "" then None else Some(DigitsValue(digits))
  }

  /**
   * `parseInt(s)` without a radix: leading whitespace skipped, an optional
   * sign, then the magnitude as `ParseMagnitude` reads it; a leading `-`
   * negates it.
   */
  function ParseInt(s: string): (r: Option<int>)
    ensures r.None? <==> ParseMagnitude(SignedBody(s)).None?
    ensures r.Some? && r.value != 0 ==>
              (r.value < 0 <==> TrimStart(s)[0] == '-')
    ensures r.Some? ==> r.value == ParseMagnitude(SignedBody(s)).value || r.value == -(ParseMagnitude(SignedBody(s)).value as int)
  {
    var t := TrimStart(s);
    var v := ParseMagnitude(SignedBody(s));
    if v.None? then None
    else
      var m: int := v.value;
      if |t| > 0 && t[0] == '-' then Some(-m) else Some(m)
  }

  /** A hexadecimal route id: `"0x1f"` is 31 and `"0x"` alone is NaN. */
  lemma HexRouteIds()
    ensures ParseInt("0x1f") == Some(31)
    ensures ParseInt("0x") == None
  {
    TrimStartAtNonSpace("0x1f");
    assert SignedBody("0x1f") == "0x1f";
    assert "0x1f"[2..] == "1f";
    assert HexPrefix("") == "";
    assert HexPrefix("f") == "f";
    assert HexPrefix("1f") == "1f";
    assert "1f"[..1] == "1";
    assert HexDigitsValue("1f") == 31;
    TrimStartAtNonSpace("0x");
    assert SignedBody("0x") == "0x";
    assert "0x"[2..] == "";
  }

  /** Without the `0x` prefix the text is read in base 10: `"1f"` is 1. */
  lemma DecimalRouteIdStopsAtLetter()
    ensures ParseInt("1f") == Some(1)
  {
    TrimStartAtNonSpace("1f");
    assert SignedBody("1f") == "1f";
    assert DigitsPrefix("f") == "";
    assert DigitsPrefix("1f") == "1";
  }

  lemma {:induction false} DigitsValueOfNatToString(n: nat)
    ensures DigitsValue(NatToString(n)) == n
    decreases n
  {
    var s := NatToString(n);
    if n < 10 {
      assert s[..0] == "";
      DigitRoundTrip(n);
    } else {
      DigitsValueOfNatToString(n / 10);
      assert s[..|s| - 1] == NatToString(n / 10);
      DigitRoundTrip(n % 10);
    }
  }

  lemma {:induction false} DigitsPrefixOfDigits(s: string)
    requires forall i :: 0 <= i < |s| ==> IsDigit(s[i])
    ensures DigitsPrefix(s) == s
  {
  }

  /** parseInt reads back the decimal text of any natural number. */
  lemma ParseIntOfNatToString(n: nat)
    ensures ParseInt(NatToString(n)) == Some(n)
  {
    var s := NatToString(n);
    DigitsPrefixOfDigits(s);
    DigitsValueOfNatToString(n);
    assert IsDigit(s[0]);
    DigitIsNotSpace(s[0]);
    TrimStartAtNonSpace(s);
    assert !(s[0] == '-' || s[0] == '+');
    assert SignedBody(s) == s;
    assert !HasHexPrefix(s) by {
      if |s| >= 2 {
        assert IsDigit(s[1]);
      }
    }
    assert ParseMagnitude(s) == Some(n);
  }

  /** Nothing is trimmed from a string that starts with a non-space. */
  lemma TrimStartAtNonSpace(s: string)
    requires |s| > 0 && !IsJsWhitespace(s[0])
    ensures TrimStart(s) == s
  {
  }

  lemma DigitIsNotSpace(ch: char)
    requires IsDigit(ch)
    ensures !IsJsWhitespace(ch)
  {
  }

  /** Position of the last occurrence of `c` in `s`, or -1. */
  function LastIndexOf(s: string, c: char): (i: int)
    ensures -1 <= i < |s|
    ensures i >= 0 ==> s[i] == c
    ensures forall j :: i < j < |s| ==> s[j] != c
    decreases |s|
  {
    if |s| == 0 then -1
    else if s[|s| - 1] == c then |s| - 1
    else LastIndexOf(s[..|s| - 1], c)
  }

  /** A suffix of a suffix of `p` is a suffix of `p`. */
  lemma SuffixEndsWith(p: string, b: string, i: nat)
    requires EndsWith(p, b) && i <= |b|
    ensures EndsWith(p, b[i..])
  {
    assert p[|p| - |b[i..]|..] == p[|p| - |b|..][i..];
  }

  /** `path.basename(p)` for a path without a trailing separator: the text after the last '/'. */
  function Basename(p: string): (b: string)
    ensures EndsWith(p, b) && '/' !in b
  {
    var i := LastIndexOf(p, '/');
    var b := p[i + 1..];
    assert p[|p| - |b|..] == b;
    b
  }

  /** `path.join(a, b)` for a non-empty `a` with no trailing separator. */
  function JoinPath(a: string, b: string): string {
    a + "/" + b
  }

  /**
   * A joined path keeps `a` as its directory part and ends with `b`; a
   * plain name `b` is its base name.
   */
  lemma JoinPathParts(a: string, b: string)
    ensures StartsWith(JoinPath(a, b), a + "/") && EndsWith(JoinPath(a, b), b)
    ensures '/' !in b ==> Basename(JoinPath(a, b)) == b
  {
    var r := JoinPath(a, b);
    assert r[..|a| + 1] == a + "/";
    assert r[|r| - |b|..] == b;
    BasenameAfterSlash(a, b);
    assert b[0..] == b;
  }

  /** The base name of a path does not depend on the directories before it. */
  lemma BasenameAfterSlash(dir: string, rest: string)
    ensures Basename(dir + "/" + rest) == Basename(rest)
  {
    var p := dir + "/" + rest;
    var j := LastIndexOf(rest, '/');
    var i := LastIndexOf(p, '/');
    assert p[|dir|] == '/';
    assert forall k :: 0 <= k < |rest| ==> p[|dir| + 1 + k] == rest[k];
    if j >= 0 {
      assert p[|dir| + 1 + j] == '/';
    }
    assert i == |dir| + 1 + j;
    assert p[i + 1..] == rest[j + 1..];
  }

  /**
   * `path.extname(p)`: from the last '.' of the base name to its end, or ""
   * when the base name has no '.', starts with its only '.', or is "..".
   */
  function Extname(p: string): (e: string)
    ensures e == "" || (e[0] == '.' && EndsWith(p, e) && '/' !in e)
  {
    var b := Basename(p);
    if b == ".." then ""
    else
      var i := LastIndexOf(b, '.');
      if i <= 0 then "" else
        SuffixEndsWith(p, b, i);
        b[i..]
  }

  function ToLowerChar(ch: char): char {
    if 'A' <= ch <= 'Z' then (ch as int + 32) as char else ch
  }

  /** `toLowerCase()` restricted to ASCII letters. */
  function ToLowerAscii(s: string): (r: string)
    ensures |r| == |s|
    ensures forall i :: 0 <= i < |s| ==> r[i] == ToLowerChar(s[i])
  {
    seq(|s|, i requires 0 <= i < |s| => ToLowerChar(s[i]))
  }

  /** The lower-cased extension of `file` is one of `exts`. */
  predicate HasExtension(file: string, exts: set<string>) {
    ToLowerAscii(Extname(file)) in exts
  }

  /**
   * With no empty extension listed, a file that has one of `exts` ends in
   * a '.' suffix, free of '/', that lower-cases to one of them.
   */
  lemma HasExtensionSuffix(file: string, exts: set<string>)
    requires "" !in exts
    ensures HasExtension(file, exts) <==>
      exists k :: 0 <= k < |file| && file[k] == '.' && '/' !in file[k..] && ToLowerAscii(file[k..]) in exts && file[k..] == Extname(file)
  {
    var e := Extname(file);
    if HasExtension(file, exts) {
      assert file[|file| - |e|..] == e;
    }
  }
}
