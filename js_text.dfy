/**
 * The JavaScript string built-ins the instrumentation relies on, written out over `seq<char>`:
 * `split` and `join` with a one-character separator, `indexOf`, `substring`, number-to-string,
 * `parseInt` and the unary `+` (Number) on integer text, and ASCII `toLowerCase`.
 */
module JsText {
  import opened Wrappers

  /** `s.split(sep)` for a one-character separator: never empty, and no piece holds `sep`. */
  function Split(s: string, sep: char): (parts: seq<string>)
    ensures |parts| >= 1
    ensures forall i :: 0 <= i < |parts| ==> sep !in parts[i]
    decreases |s|
  {
    if |s| == 0 then [""]
    else
      var rest := Split(s[1..], sep);
      if s[0] == sep then [""] + rest
      else [[s[0]] + rest[0]] + rest[1..]
  }

  /** `parts.join(sep)`. */
  function Join(parts: seq<string>, sep: char): string
    decreases |parts|
  {
    if |parts| == 0 then ""
    else if |parts| == 1 then parts[0]
    else parts[0] + [sep] + Join(parts[1..], sep)
  }

  lemma JoinCons(p: string, rest: seq<string>, sep: char)
    requires |rest| >= 1
    ensures Join([p] + rest, sep) == p + [sep] + Join(rest, sep)
  {
    assert ([p] + rest)[1..] == rest;
  }

  /** Joining the pieces of a split gives back the string. */
  lemma {:induction false} JoinSplit(s: string, sep: char)
    ensures Join(Split(s, sep), sep) == s
    decreases |s|
  {
    if |s| > 0 {
      var rest := Split(s[1..], sep);
      JoinSplit(s[1..], sep);
      if s[0] == sep {
        JoinCons("", rest, sep);
      } else if |rest| == 1 {
        assert Split(s, sep) == [[s[0]] + rest[0]];
      } else {
        assert rest == [rest[0]] + rest[1..];
        JoinCons(rest[0], rest[1..], sep);
        JoinCons([s[0]] + rest[0], rest[1..], sep);
        assert Split(s, sep) == [[s[0]] + rest[0]] + rest[1..];
      }
    }
  }

  /** A piece free of the separator is split off whole at the first separator. */
  lemma {:induction false} SplitAppend(p: string, sep: char, t: string)
    requires sep !in p
    ensures Split(p + [sep] + t, sep) == [p] + Split(t, sep)
    decreases |p|
  {
    var s := p + [sep] + t;
    if |p| == 0 {
      assert s[1..] == t;
    } else {
      assert s[1..] == p[1..] + [sep] + t;
      SplitAppend(p[1..], sep, t);
      assert [s[0]] + p[1..] == p;
    }
  }

  /** A string free of the separator splits into itself alone. */
  lemma {:induction false} SplitNoSep(p: string, sep: char)
    requires sep !in p
    ensures Split(p, sep) == [p]
    decreases |p|
  {
    if |p| > 0 {
      SplitNoSep(p[1..], sep);
      assert [p[0]] + p[1..] == p;
    }
  }

  /** Splitting a join of separator-free pieces gives back the pieces. */
  lemma {:induction false} SplitJoin(parts: seq<string>, sep: char)
    requires |parts| >= 1
    requires forall i :: 0 <= i < |parts| ==> sep !in parts[i]
    ensures Split(Join(parts, sep), sep) == parts
    decreases |parts|
  {
    if |parts| == 1 {
      SplitNoSep(parts[0], sep);
    } else {
      SplitJoin(parts[1..], sep);
      SplitAppend(parts[0], sep, Join(parts[1..], sep));
      assert parts == [parts[0]] + parts[1..];
    }
  }

  /** `sub` occurs in `s` at index `k`. */
  predicate OccursAt(s: string, sub: string, k: int) {
    0 <= k && k + |sub| <= |s| && s[k..k + |sub|] == sub
  }

  /** `s.indexOf(sub, from)`: the first index at or after `from` (clamped to the string) where `sub` occurs, or -1. */
  function IndexOf(s: string, sub: string, from: int): (r: int)
    ensures r == -1 || (OccursAt(s, sub, r) && (r >= from || from > |s|))
    ensures forall k :: from <= k && (r == -1 || k < r) ==> !OccursAt(s, sub, k)
  {
    IndexFrom(s, sub, if from < 0 then 0 else if from > |s| then |s| else from)
  }

  function IndexFrom(s: string, sub: string, from: nat): (r: int)
    requires from <= |s|
    ensures r == -1 || (OccursAt(s, sub, r) && r >= from)
    ensures forall k :: from <= k && (r == -1 || k < r) ==> !OccursAt(s, sub, k)
    decreases |s| - from
  {
    if from + |sub| > |s| then -1
    else if s[from..from + |sub|] == sub then from
    else IndexFrom(s, sub, from + 1)
  }

  /** The first `c` at or after `from` is found by `indexOf`. */
  lemma IndexOfChar(s: string, c: char, from: nat, e: nat)
    requires from <= e < |s| && s[e] == c
    requires forall m :: from <= m < e ==> s[m] != c
    ensures IndexOf(s, [c], from) == e
  {
    assert OccursAt(s, [c], e) by {
      assert s[e..e + 1] == [c];
    }
    var r := IndexOf(s, [c], from);
    assert r != -1 && r <= e;
    assert s[r..r + 1][0] == s[r];
  }

  /** `s` begins with `p`. */
  predicate StartsWith(s: string, p: string) {
    |p| <= |s| && s[..|p|] == p
  }

  /** `s.indexOf(p) === 0` is exactly "s starts with p". */
  lemma IndexOfZeroIsPrefix(s: string, p: string)
    ensures IndexOf(s, p, 0) == 0 <==> StartsWith(s, p)
  {
  }

  /** `s.substring(a, b)`: both ends clamped into the string, swapped when out of order. */
  function Substring(s: string, a: int, b: int): (r: string)
    ensures |r| <= |s|
  {
    var a' := if a < 0 then 0 else if a > |s| then |s| else a;
    var b' := if b < 0 then 0 else if b > |s| then |s| else b;
    if a' <= b' then s[a'..b'] else s[b'..a']
  }

  /** The value of a digit in bases up to 36 (letters in either case); 36 for any other character. */
  function DigitValue(c: char): nat {
    if '0' <= c <= '9' then (c - '0') as nat
    else if 'a' <= c <= 'z' then (c - 'a') as nat + 10
    else if 'A' <= c <= 'Z' then (c - 'A') as nat + 10
    else 36
  }

  function DigitChar(d: nat): char
    requires d < 10
  {
    "0123456789"[d]
  }

  /** The number written by a sequence of digits in base `radix`, most significant first. */
  function DigitsValue(ds: string, radix: nat): nat {
    if |ds| == 0 then 0
    else DigitsValue(ds[..|ds| - 1], radix) * radix + (if DigitValue(ds[|ds| - 1]) < radix then DigitValue(ds[|ds| - 1]) else 0)
  }

  /** How many leading characters of `s` are digits in base `radix`. */
  function DigitPrefixLength(s: string, radix: nat): (k: nat)
    ensures k <= |s|
    ensures forall i :: 0 <= i < k ==> DigitValue(s[i]) < radix
    ensures k < |s| ==> DigitValue(s[k]) >= radix
  {
    if |s| == 0 || DigitValue(s[0]) >= radix then 0
    else 1 + DigitPrefixLength(s[1..], radix)
  }

  /** Decimal text of a natural number, without leading zeros. */
  function NatToString(n: nat): (r: string)
    ensures |r| >= 1
    ensures forall i :: 0 <= i < |r| ==> '0' <= r[i] <= '9'
  {
    if n < 10 then [DigitChar(n)]
    else NatToString(n / 10) + [DigitChar(n % 10)]
  }

  /** JavaScript's `String(n)` for an integer `n`. */
  function IntToString(n: int): (r: string)
    ensures forall i :: 0 <= i < |r| ==> r[i] == '-' || '0' <= r[i] <= '9'
  {
    if n < 0 then "-" + NatToString(-n) else NatToString(n)
  }

  /**
   * `parseInt(s, radix)`, with `radix == 0` standing for an omitted radix: an optional sign, a "0x"
   * prefix selecting base 16 when the radix is omitted or 16, then the longest run of digits;
   * `None` (NaN) when there is no digit or the radix is out of range. Leading white space is not stripped.
   */
  function ParseInt(s: string, radix: int): Option<int> {
    var neg := |s| > 0 && s[0] == '-';
    var body := if |s| > 0 && (s[0] == '-' || s[0] == '+') then s[1..] else s;
    match ParseUnsigned(body, radix)
    case None => None
    case Some(v) => var w: int := v; Some(if neg then -w else w)
  }

  /** The unsigned part of `parseInt`: radix selection, the "0x" prefix and the digit run. */
  function ParseUnsigned(body: string, radix: int): Option<nat> {
    var hex := |body| >= 2 && body[0] == '0' && (body[1] == 'x' || body[1] == 'X');
    var r := if radix == 0 then (if hex then 16 else 10) else radix;
    if r < 2 || r > 36 then None
    else
      var digits := if r == 16 && hex then body[2..] else body;
      var k := DigitPrefixLength(digits, r);
      if k == 0 then None
      else Some(DigitsValue(digits[..k], r))
  }

  /** Unary `+` on a string holding an optionally signed decimal integer; "" is 0, any other text NaN. */
  function ToNumber(s: string): Option<int> {
    if |s| == 0 then Some(0)
    else
      var neg := s[0] == '-';
      var body := if s[0] == '-' || s[0] == '+' then s[1..] else s;
      if |body| == 0 || DigitPrefixLength(body, 10) != |body| then None
      else
        var v: int := DigitsValue(body, 10);
        Some(if neg then -v else v)
  }

  lemma DigitCharValue(d: nat)
    requires d < 10
    ensures DigitValue(DigitChar(d)) == d
  {
  }

  /** Decimal digits read back give the number they were written from. */
  lemma {:induction false} NatToStringValue(n: nat)
    ensures DigitsValue(NatToString(n), 10) == n
    ensures DigitPrefixLength(NatToString(n), 10) == |NatToString(n)|
  {
    var s := NatToString(n);
    if n < 10 {
      DigitCharValue(n);
    } else {
      NatToStringValue(n / 10);
      assert s[..|s| - 1] == NatToString(n / 10);
      DigitCharValue(n % 10);
      assert s[|s| - 1] == DigitChar(n % 10);
      assert DigitsValue(s, 10) == (n / 10) * 10 + n % 10;
    }
    DigitsPrefixAll(s);
  }

  lemma {:induction false} DigitsPrefixAll(s: string)
    requires forall i :: 0 <= i < |s| ==> '0' <= s[i] <= '9'
    ensures DigitPrefixLength(s, 10) == |s|
    decreases |s|
  {
    if |s| > 0 {
      DigitsPrefixAll(s[1..]);
    }
  }

  /** The unsigned part of `parseInt` reads back the digits written by `NatToString`. */
  lemma ParseUnsignedNat(n: nat, radix: int)
    requires radix == 0 || radix == 10
    ensures ParseUnsigned(NatToString(n), radix) == Some(n)
  {
    var s := NatToString(n);
    NatToStringValue(n);
    assert s[..|s|] == s;
    assert !(|s| >= 2 && s[0] == '0' && (s[1] == 'x' || s[1] == 'X'));
  }

  lemma ParseIntOfIntToStringRadix(n: int, radix: int)
    requires radix == 0 || radix == 10
    ensures ParseInt(IntToString(n), radix) == Some(n)
  {
    var m: nat := if n < 0 then -n else n;
    var s := NatToString(m);
    ParseUnsignedNat(m, radix);
    if n < 0 {
      var t := "-" + s;
      assert t[1..] == s;
      assert IntToString(n) == t;
    } else {
      assert s[0] != '-' && s[0] != '+';
    }
  }

  /** The decoder's `parseInt` recovers every integer the encoder wrote with `String`. */
  lemma ParseIntOfIntToString(n: int)
    ensures ParseInt(IntToString(n), 0) == Some(n)
    ensures ParseInt(IntToString(n), 10) == Some(n)
  {
    ParseIntOfIntToStringRadix(n, 0);
    ParseIntOfIntToStringRadix(n, 10);
  }

  /** Unary `+` recovers every integer written with `String`. */
  lemma ToNumberOfIntToString(n: int)
    ensures ToNumber(IntToString(n)) == Some(n)
  {
    var m: nat := if n < 0 then -n else n;
    var s := NatToString(m);
    NatToStringValue(m);
    assert s[0] != '-' && s[0] != '+';
    ToNumberDigits(s);
  }

  /** Unary `+` reads a run of decimal digits, with or without a leading "-". */
  lemma ToNumberDigits(s: string)
    requires |s| > 0 && s[0] != '-' && s[0] != '+' && DigitPrefixLength(s, 10) == |s|
    ensures ToNumber(s) == Some(DigitsValue(s, 10))
    ensures ToNumber("-" + s) == Some(-(DigitsValue(s, 10) as int))
  {
    var t := "-" + s;
    assert t[0] == '-' && t[1..] == s;
  }

  /** Distinct numbers have distinct decimal texts. */
  lemma IntToStringInjective(a: int, b: int)
    requires IntToString(a) == IntToString(b)
    ensures a == b
  {
    ParseIntOfIntToString(a);
    ParseIntOfIntToString(b);
  }

  function LowerChar(c: char): char {
    if 'A' <= c <= 'Z' then (c - 'A' + 'a') as char else c
  }

  /** `s.toLowerCase()` on ASCII letters. */
  function ToLowerAscii(s: string): (r: string)
    ensures |r| == |s|
    ensures forall i :: 0 <= i < |s| ==> r[i] == LowerChar(s[i])
  {
    seq(|s|, i requires 0 <= i < |s| => LowerChar(s[i]))
  }

  /** Lower-casing a string that has no upper-case ASCII letter changes nothing. */
  lemma ToLowerAsciiFixed(s: string)
    requires forall i :: 0 <= i < |s| ==> !('A' <= s[i] <= 'Z')
    ensures ToLowerAscii(s) == s
  {
  }
}
