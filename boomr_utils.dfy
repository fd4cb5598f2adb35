/**
 * `BOOMR.utils`: the sub-cookie codec (`objectToString` with the "&" separator, `getCookie`,
 * `getSubCookies`), `cleanupURL` and `arrayFilter`. `encodeURIComponent` and
 * `decodeURIComponent` are taken as the identity, so keys and values are assumed free of the
 * characters they would escape ("&", "=", ";").
 */
module BoomrUtils {
  import opened Wrappers
  import opened JsText
  import opened JsObject

  /** The "k=v" texts of a flat object, in property order. */
  function PairTexts(o: Entries<string>): (ps: seq<string>)
    ensures |ps| == |o|
    ensures forall i :: 0 <= i < |o| ==> ps[i] == o[i].0 + "=" + o[i].1
  {
    seq(|o|, i requires 0 <= i < |o| => o[i].0 + "=" + o[i].1)
  }

  /** `objectToString(o, "&")` on a flat object of strings. */
  function ObjectToString(o: Entries<string>): (r: string)
    ensures o == [] <==> r == ""
  {
    Join(PairTexts(o), '&')
  }

  /** A flat object the sub-cookie codec carries unchanged: non-empty distinct keys, no separators anywhere. */
  predicate SubCookieSafe(o: Entries<string>) {
    DistinctKeys(o) && forall i :: 0 <= i < |o| ==> SafePair(o[i])
  }

  predicate SafePair(e: (string, string)) {
    e.0 != "" && '&' !in e.0 && '=' !in e.0 && '&' !in e.1 && '=' !in e.1
  }

  /** `s.replace(/^"/, "").replace(/"$/, "")`. */
  function StripQuotes(s: string): (r: string)
    ensures |r| <= |s|
    ensures var a := if |s| > 0 && s[0] == '"' then 1 else 0;
      var b := if |s| > a && s[|s| - 1] == '"' then 1 else 0;
      r == s[a..|s| - b]
    ensures forall v :: s == "\"" + v + "\"" ==> r == v
  {
    var t := if |s| > 0 && s[0] == '"' then s[1..] else s;
    if |t| > 0 && t[|t| - 1] == '"' then t[..|t| - 1] else t
  }

  /**
   * `getCookie(name)` against the text `document.cookie` reads back as `jar`: the text after the
   * first " name=" up to the next ";", with one leading and one trailing quote removed.
   */
  function GetCookie(name: string, jar: string): (r: Option<string>)
    ensures name == "" ==> r.None?
    ensures r.Some? ==> IndexOf(" " + jar + ";", " " + name + "=", 0) >= 0
  {
    if name == "" then None
    else
      var key := " " + name + "=";
      var cookies := " " + jar + ";";
      var i := IndexOf(cookies, key, 0);
      if i < 0 then None
      else
        var j := i + |key|;
        Some(StripQuotes(Substring(cookies, j, IndexOf(cookies, ";", j))))
  }

  /** What `setCookie` writes for a cookie: `name="value"`. */
  function CookieText(name: string, value: string): string {
    name + "=\"" + value + "\""
  }

  /** `getCookie` reads back the value `setCookie` wrote, whatever quotes it holds. */
  lemma GetCookieOfCookieText(name: string, value: string)
    requires name != ""
    requires ';' !in value
    ensures GetCookie(name, CookieText(name, value)) == Some(value)
  {
    var key := " " + name + "=";
    var quoted := "\"" + value + "\"";
    var cookies := " " + CookieText(name, value) + ";";
    assert cookies == key + quoted + ";";
    QuotedNoSemicolon(value);
    FindCookie(key, quoted);
    var t := quoted[1..];
    assert t == value + "\"";
    assert t[..|t| - 1] == value;
  }

  /** Quoting a value free of ";" adds none. */
  lemma QuotedNoSemicolon(value: string)
    requires ';' !in value
    ensures ';' !in "\"" + value + "\""
  {
    var quoted := "\"" + value + "\"";
    forall m | 0 <= m < |quoted| ensures quoted[m] != ';' {
      if 0 < m < |quoted| - 1 {
        assert quoted[m] == value[m - 1];
      }
    }
  }

  /** In `key + text + ";"`, the key is found at the start and the text runs up to the first ";". */
  lemma FindCookie(key: string, text: string)
    requires |key| > 0 && ';' !in text
    ensures var cookies := key + text + ";";
      IndexOf(cookies, key, 0) == 0 && Substring(cookies, |key|, IndexOf(cookies, ";", |key|)) == text
  {
    var cookies := key + text + ";";
    assert cookies[0..|key|] == key;
    var j := |key|;
    var last := |cookies| - 1;
    forall m | j <= m < last ensures cookies[m] != ';' {
      assert cookies[m] == text[m - j];
    }
    IndexOfChar(cookies, ';', j, last);
    assert cookies[j..last] == text;
  }

  /** The key of one "&"-separated piece: the text before its first "=". */
  function KeyOf(piece: string): string {
    Split(piece, '=')[0]
  }

  /** One iteration of `getSubCookies`' loop: a piece with an empty key is skipped, a missing value reads as "". */
  function SubCookieStep(acc: Entries<string>, piece: string): Entries<string> {
    var kv := Split(piece, '=');
    if kv[0] == "" then acc else Put(acc, kv[0], (kv + [""])[1])
  }

  /** The object `getSubCookies` builds from the pieces, first to last. */
  function SubCookiesFold(pieces: seq<string>): Entries<string>
    decreases |pieces|
  {
    if |pieces| == 0 then []
    else SubCookieStep(SubCookiesFold(pieces[..|pieces| - 1]), pieces[|pieces| - 1])
  }

  /** Some piece had a key, so `gotcookies` was set. */
  predicate AnyKey(pieces: seq<string>) {
    exists i :: 0 <= i < |pieces| && KeyOf(pieces[i]) != ""
  }

  /** One more piece: the fold takes one step, and a key is found once this piece has one. */
  lemma SubCookiesFoldStep(pieces: seq<string>, i: nat)
    requires i < |pieces|
    ensures SubCookiesFold(pieces[..i + 1]) == SubCookieStep(SubCookiesFold(pieces[..i]), pieces[i])
    ensures AnyKey(pieces[..i + 1]) <==> AnyKey(pieces[..i]) || KeyOf(pieces[i]) != ""
  {
    var p := pieces[..i + 1];
    assert p[..i] == pieces[..i];
    if AnyKey(p) && KeyOf(pieces[i]) == "" {
      var m :| 0 <= m < i + 1 && KeyOf(p[m]) != "";
      assert m < i && pieces[..i][m] == p[m];
    }
    if AnyKey(pieces[..i]) {
      var m :| 0 <= m < i && KeyOf(pieces[..i][m]) != "";
      assert p[m] == pieces[..i][m];
    }
    if KeyOf(pieces[i]) != "" {
      assert p[i] == pieces[i];
    }
  }

  /** `getSubCookies(cookie)`: null for a missing or empty cookie and when no piece had a key. */
  function SubCookies(cookie: Option<string>): Option<Entries<string>> {
    if cookie.None? || cookie.value == "" then None
    else
      var pieces := Split(cookie.value, '&');
      if AnyKey(pieces) then Some(SubCookiesFold(pieces)) else None
  }

  /** `getSubCookies`, the loop over the "&"-separated pieces. */
  method GetSubCookies(cookie: Option<string>) returns (r: Option<Entries<string>>)
    ensures r == SubCookies(cookie)
    ensures r.Some? ==> DistinctKeys(r.value) && |r.value| >= 1
  {
    if cookie.None? || cookie.value == "" {
      return None;
    }
    var pieces := Split(cookie.value, '&');
    var cookies: Entries<string> := [];
    var gotCookies := false;
    var i := 0;
    while i < |pieces|
      invariant 0 <= i <= |pieces|
      invariant cookies == SubCookiesFold(pieces[..i])
      invariant DistinctKeys(cookies)
      invariant gotCookies <==> AnyKey(pieces[..i])
      invariant gotCookies ==> |cookies| >= 1
    {
      SubCookiesFoldStep(pieces, i);
      var kv := Split(pieces[i], '=');
      if kv[0] != "" {
        kv := kv + [""];
        PutDistinct(cookies, kv[0], kv[1]);
        cookies := Put(cookies, kv[0], kv[1]);
        gotCookies := true;
      }
      i := i + 1;
    }
    assert pieces[..i] == pieces;
    r := if gotCookies then Some(cookies) else None;
  }

  /** A "k=v" text with no other "=" splits into its key and value. */
  lemma SplitPair(k: string, v: string)
    requires '=' !in k && '=' !in v
    ensures Split(k + "=" + v, '=') == [k, v]
  {
    SplitAppend(k, '=', v);
    SplitNoSep(v, '=');
  }

  /** One more "k=v" piece with a new key appends that pair. */
  lemma SubCookieStepPair(acc: Entries<string>, k: string, v: string)
    requires k != "" && '=' !in k && '=' !in v
    requires !Has(acc, k)
    ensures SubCookieStep(acc, k + "=" + v) == acc + [(k, v)]
  {
    SplitPair(k, v);
    PutOrder(acc, k, v);
  }

  /** A key of a distinct-keyed object does not occur before its own position. */
  lemma FreshKey(o: Entries<string>, n: nat)
    requires DistinctKeys(o) && n < |o|
    ensures !Has(o[..n], o[n].0)
  {
  }

  lemma FoldLast(ps: seq<string>)
    requires |ps| > 0
    ensures SubCookiesFold(ps) == SubCookieStep(SubCookiesFold(ps[..|ps| - 1]), ps[|ps| - 1])
  {
  }

  /** The fold over pieces whose last one is a fresh `k=v` appends that pair to the fold of the others. */
  lemma FoldStep(ps: seq<string>, front: Entries<string>, k: string, v: string)
    requires |ps| > 0 && SubCookiesFold(ps[..|ps| - 1]) == front
    requires ps[|ps| - 1] == k + "=" + v
    requires k != "" && '=' !in k && '=' !in v && !Has(front, k)
    ensures SubCookiesFold(ps) == front + [(k, v)]
  {
    FoldLast(ps);
    SubCookieStepPair(front, k, v);
  }

  lemma PrefixOfPrefix<T>(s: seq<T>, n: nat, m: nat)
    requires m <= n <= |s|
    ensures s[..n][..m] == s[..m]
  {
  }

  lemma PrefixSnoc<T>(s: seq<T>, n: nat)
    requires 0 < n <= |s|
    ensures s[..n] == s[..n - 1] + [s[n - 1]]
  {
  }

  /** One more pair text, with a fresh safe pair, extends the rebuilt prefix by its pair. */
  lemma PrefixStep(o: Entries<string>, n: nat)
    requires 0 < n <= |o| && SafePair(o[n - 1]) && !Has(o[..n - 1], o[n - 1].0)
    requires SubCookiesFold(PairTexts(o)[..n - 1]) == o[..n - 1]
    ensures SubCookiesFold(PairTexts(o)[..n]) == o[..n]
  {
    var ps := PairTexts(o);
    PrefixOfPrefix(ps, n, n - 1);
    assert ps[..n][n - 1] == o[n - 1].0 + "=" + o[n - 1].1;
    FoldStep(ps[..n], o[..n - 1], o[n - 1].0, o[n - 1].1);
    PrefixSnoc(o, n);
  }

  /** Folding the first `n` pair texts of a safe object rebuilds its first `n` pairs. */
  lemma {:induction false} FoldPairTextsPrefix(o: Entries<string>, n: nat)
    requires SubCookieSafe(o) && n <= |o|
    ensures SubCookiesFold(PairTexts(o)[..n]) == o[..n]
    decreases n
  {
    if n > 0 {
      FoldPairTextsPrefix(o, n - 1);
      FreshKey(o, n - 1);
      assert SafePair(o[n - 1]);
      PrefixStep(o, n);
    }
  }

  lemma FoldPairTexts(o: Entries<string>)
    requires SubCookieSafe(o)
    ensures SubCookiesFold(PairTexts(o)) == o
  {
    FoldPairTextsPrefix(o, |o|);
    assert PairTexts(o)[..|o|] == PairTexts(o);
    assert o[..|o|] == o;
  }

  /** Sub-cookies written with `objectToString(o, "&")` are read back by `getSubCookies`; an empty object reads back as null. */
  lemma SubCookiesRoundTrip(o: Entries<string>)
    requires SubCookieSafe(o)
    ensures SubCookies(Some(ObjectToString(o))) == if o == [] then None else Some(o)
  {
    if o != [] {
      var ps := PairTexts(o);
      forall i | 0 <= i < |ps| ensures '&' !in ps[i] {
        assert ps[i] == o[i].0 + "=" + o[i].1;
      }
      SplitJoin(ps, '&');
      FoldPairTexts(o);
      SplitPair(o[0].0, o[0].1);
      assert KeyOf(ps[0]) != "";
      assert ObjectToString(o) != "" by {
        if |o| == 1 { assert ps[0] == o[0].0 + "=" + o[0].1; }
      }
    }
  }

  /** A key is read back exactly when some piece carries it. */
  lemma {:induction false} SubCookiesFoldKeys(pieces: seq<string>, k: string)
    requires k != ""
    ensures Has(SubCookiesFold(pieces), k) <==> exists i :: 0 <= i < |pieces| && KeyOf(pieces[i]) == k
    decreases |pieces|
  {
    if |pieces| > 0 {
      var n := |pieces| - 1;
      SubCookiesFoldKeys(pieces[..n], k);
      FoldHasStep(pieces, k);
      SomeKeySnoc(pieces, k);
    }
  }

  /** The last piece adds its own key and keeps every key before it. */
  lemma FoldHasStep(pieces: seq<string>, k: string)
    requires k != "" && |pieces| > 0
    ensures Has(SubCookiesFold(pieces), k) <==> Has(SubCookiesFold(pieces[..|pieces| - 1]), k) || KeyOf(pieces[|pieces| - 1]) == k
  {
    var acc := SubCookiesFold(pieces[..|pieces| - 1]);
    var kv := Split(pieces[|pieces| - 1], '=');
    if kv[0] != "" {
      var v := (kv + [""])[1];
      assert Get(Put(acc, kv[0], v), k) == if kv[0] == k then Some(v) else Get(acc, k);
    }
  }

  lemma SomeKeySnoc(pieces: seq<string>, k: string)
    requires |pieces| > 0
    ensures var n := |pieces| - 1;
      (exists i :: 0 <= i < |pieces| && KeyOf(pieces[i]) == k) <==>
      (exists i :: 0 <= i < n && KeyOf(pieces[..n][i]) == k) || KeyOf(pieces[n]) == k
  {
    var n := |pieces| - 1;
    if exists i :: 0 <= i < |pieces| && KeyOf(pieces[i]) == k {
      var i :| 0 <= i < |pieces| && KeyOf(pieces[i]) == k;
      if i < n { assert pieces[..n][i] == pieces[i]; }
    }
    if exists i :: 0 <= i < n && KeyOf(pieces[..n][i]) == k {
      var i :| 0 <= i < n && KeyOf(pieces[..n][i]) == k;
      assert pieces[i] == pieces[..n][i];
    }
  }

  /** The first index of `c` in `s`, or |s|. */
  function FirstIndex(s: string, c: char): (q: nat)
    ensures q <= |s|
    ensures q < |s| <==> c in s
    ensures q < |s| ==> s[q] == c
    ensures forall i :: 0 <= i < q ==> s[i] != c
  {
    if |s| == 0 then 0
    else if s[0] == c then 0
    else 1 + FirstIndex(s[1..], c)
  }

  /** A character a regular expression's "." does not match. */
  predicate IsLineTerminator(c: char) {
    c == '\n' || c == '\r' || c == '\U{2028}' || c == '\U{2029}'
  }

  /** The first line terminator at or after `from`, or |s|: where a `.*` starting at `from` stops. */
  function LineEnd(s: string, from: nat): (e: nat)
    requires from <= |s|
    ensures from <= e <= |s|
    ensures e < |s| ==> IsLineTerminator(s[e])
    ensures forall i :: from <= i < e ==> !IsLineTerminator(s[i])
    decreases |s| - from
  {
    if from == |s| || IsLineTerminator(s[from]) then from
    else LineEnd(s, from + 1)
  }

  /**
   * `s.replace(/<c>.*\/, repl)`: the first `c` and the rest of its line are replaced by `repl`;
   * a string without `c` is returned as it is.
   */
  function ReplaceFrom(s: string, c: char, repl: string): (r: string)
    ensures c !in s ==> r == s
    ensures c in s ==> |r| >= FirstIndex(s, c)
    ensures c in s ==> r[..FirstIndex(s, c)] == s[..FirstIndex(s, c)]
    ensures c in s ==> r[FirstIndex(s, c)..] == repl + s[LineEnd(s, FirstIndex(s, c) + 1)..]
  {
    var q := FirstIndex(s, c);
    if q == |s| then s else s[..q] + repl + s[LineEnd(s, q + 1)..]
  }

  const Redacted: string := "?qs-redacted"

  /** `cleanupURL(url)`: "" for a missing or empty URL; with `strip_query_string` the query becomes "?qs-redacted". */
  function CleanupURL(url: Option<string>, stripQueryString: bool): (r: string)
    ensures url.None? || url.value == "" ==> r == ""
    ensures !stripQueryString && url.Some? ==> r == url.value
    ensures stripQueryString && url.Some? ==> r == ReplaceFrom(url.value, '?', Redacted)
  {
    if url.None? || url.value == "" then ""
    else if !stripQueryString then url.value
    else ReplaceFrom(url.value, '?', Redacted)
  }

  /** `url.replace(/#.*\/, "")`. */
  function StripHash(url: string): string {
    ReplaceFrom(url, '#', "")
  }

  /** Redacting twice is redacting once: the redaction leaves no query text behind. */
  lemma CleanupURLIdempotent(url: Option<string>, stripQueryString: bool)
    ensures CleanupURL(Some(CleanupURL(url, stripQueryString)), stripQueryString) == CleanupURL(url, stripQueryString)
  {
    if stripQueryString && url.Some? && url.value != "" && '?' in url.value {
      var s := url.value;
      var q := FirstIndex(s, '?');
      var e := LineEnd(s, q + 1);
      var r := ReplaceFrom(s, '?', Redacted);
      assert r == r[..q] + r[q..];
      assert r == s[..q] + Redacted + s[e..];
      RedactedFixed(s[..q], s[e..]);
    }
  }

  lemma RedactedNoTerminator()
    ensures forall k :: 0 <= k < |Redacted| ==> !IsLineTerminator(Redacted[k])
  {
    assert Redacted == ['?', 'q', 's', '-', 'r', 'e', 'd', 'a', 'c', 't', 'e', 'd'];
  }

  /** Text already redacted, up to the end of its line, is left as it is. */
  lemma RedactedFixed(pre: string, rest: string)
    requires '?' !in pre
    requires rest != [] ==> IsLineTerminator(rest[0])
    ensures ReplaceFrom(pre + Redacted + rest, '?', Redacted) == pre + Redacted + rest
  {
    var r := pre + Redacted + rest;
    var q := |pre|;
    var e := q + |Redacted|;
    assert r[q] == '?';
    assert forall i :: 0 <= i < q ==> r[i] == pre[i];
    FirstIndexAt(r, '?', q);
    RedactedNoTerminator();
    forall i | q + 1 <= i < e
      ensures !IsLineTerminator(r[i])
    {
      assert r[i] == Redacted[i - q];
    }
    assert e < |r| ==> r[e] == rest[0];
    LineEndAt(r, q + 1, e);
    assert r[..q] == pre && r[e..] == rest;
  }

  lemma FirstIndexAt(s: string, c: char, q: nat)
    requires q < |s| && s[q] == c
    requires forall i :: 0 <= i < q ==> s[i] != c
    ensures FirstIndex(s, c) == q
  {
  }

  lemma LineEndAt(s: string, from: nat, e: nat)
    requires from <= e <= |s|
    requires e < |s| ==> IsLineTerminator(s[e])
    requires forall i :: from <= i < e ==> !IsLineTerminator(s[i])
    ensures LineEnd(s, from) == e
  {
  }

  /** The elements of `a` that `keep(value, index)` accepts, in order. */
  function Filtered<T>(a: seq<T>, keep: (T, nat) -> bool): seq<T>
    decreases |a|
  {
    if |a| == 0 then []
    else Filtered(a[..|a| - 1], keep) + (if keep(a[|a| - 1], |a| - 1) then [a[|a| - 1]] else [])
  }

  /** `arrayFilter(array, predicate)`, the fallback loop for arrays without `filter`. */
  method ArrayFilter<T>(a: seq<T>, keep: (T, nat) -> bool) returns (result: seq<T>)
    ensures result == Filtered(a, keep)
    ensures forall x :: x in result ==> x in a
    ensures |result| <= |a|
  {
    result := [];
    var index := 0;
    while index < |a|
      invariant 0 <= index <= |a|
      invariant result == Filtered(a[..index], keep)
      invariant forall x :: x in result ==> x in a[..index]
      invariant |result| <= index
    {
      assert a[..index + 1][..index] == a[..index];
      if keep(a[index], index) {
        result := result + [a[index]];
      }
      index := index + 1;
    }
    assert a[..index] == a;
  }
}
