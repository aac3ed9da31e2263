/**
 * A reference reading of a URL's query string: the part before the first `?`
 * is the base, the rest is split on `&` into parameters, and each parameter
 * is split at its first `=` into a name and a value. Values are kept as they
 * appear (no percent-decoding), which is how they are sent on the wire.
 */
module Query {
  import opened Wrappers

  /** `s` cut at the first `d`: the text before it, and the text after it if `d` occurs. */
  function SplitFirst(s: string, d: char): (r: (string, Option<string>))
    ensures d !in r.0
    ensures r.1.None? ==> r.0 == s
    ensures r.1.Some? ==> s == r.0 + [d] + r.1.value
  {
    if |s| == 0 then ("", None)
    else if s[0] == d then ("", Some(s[1..]))
    else
      var (before, after) := SplitFirst(s[1..], d);
      ([s[0]] + before, after)
  }

  /** `s` split on every `d`; there is always at least one part. */
  function SplitOn(s: string, d: char): (parts: seq<string>)
    ensures |parts| >= 1
    ensures forall i :: 0 <= i < |parts| ==> d !in parts[i]
  {
    if |s| == 0 then [""]
    else
      var rest := SplitOn(s[1..], d);
      if s[0] == d then [""] + rest else [[s[0]] + rest[0]] + rest[1..]
  }

  /** The inverse of `SplitOn`: the parts glued back together with `d`. With
      `JoinSplit` it shows that the reference parser's splitting loses nothing. */
  function JoinWith(parts: seq<string>, d: char): string
    requires |parts| >= 1
  {
    if |parts| == 1 then parts[0] else parts[0] + [d] + JoinWith(parts[1..], d)
  }

  lemma {:induction false} SplitFirstAt(a: string, d: char, b: string)
    requires d !in a
    ensures SplitFirst(a + [d] + b, d) == (a, Some(b))
  {
    if |a| > 0 {
      assert (a + [d] + b)[0] == a[0] && (a + [d] + b)[1..] == a[1..] + [d] + b;
      SplitFirstAt(a[1..], d, b);
      assert a == [a[0]] + a[1..];
    } else {
      assert a + [d] + b == [d] + b;
    }
  }

  lemma {:induction false} SplitOnNone(a: string, d: char)
    requires d !in a
    ensures SplitOn(a, d) == [a]
  {
    if |a| > 0 {
      SplitOnNone(a[1..], d);
      assert a == [a[0]] + a[1..];
    }
  }

  lemma {:induction false} SplitOnAt(a: string, d: char, b: string)
    requires d !in a
    ensures SplitOn(a + [d] + b, d) == [a] + SplitOn(b, d)
  {
    if |a| > 0 {
      assert (a + [d] + b)[0] == a[0] && (a + [d] + b)[1..] == a[1..] + [d] + b;
      SplitOnAt(a[1..], d, b);
      assert a == [a[0]] + a[1..];
    } else {
      assert a + [d] + b == [d] + b;
    }
  }

  /** The no-loss lemma of the reference parser: splitting then joining gives
      back the original string, so `SplitOn` drops only the separators. */
  lemma {:induction false} JoinSplit(s: string, d: char)
    ensures JoinWith(SplitOn(s, d), d) == s
  {
    if |s| > 0 {
      JoinSplit(s[1..], d);
      var rest := SplitOn(s[1..], d);
      if s[0] != d && |rest| > 1 {
        assert JoinWith(rest, d) == rest[0] + [d] + JoinWith(rest[1..], d);
      }
    }
  }

  /** A parameter's name and value; a parameter without `=` has the empty value. */
  function NameValue(p: string): (nv: (string, string))
    ensures '=' !in nv.0
  {
    var (name, value) := SplitFirst(p, '=');
    (name, value.GetOr(""))
  }

  datatype ParsedUrl = ParsedUrl(base: string, params: seq<(string, string)>)

  function QueryParams(q: string): (ps: seq<(string, string)>)
    ensures |ps| == |SplitOn(q, '&')|
  {
    var parts := SplitOn(q, '&');
    seq(|parts|, i requires 0 <= i < |parts| => NameValue(parts[i]))
  }

  function ParseUrl(url: string): (u: ParsedUrl)
    ensures '?' !in u.base
  {
    var (base, query) := SplitFirst(url, '?');
    ParsedUrl(base, if query.Some? then QueryParams(query.value) else [])
  }

  lemma NameValueOf(n: string, v: string)
    requires '=' !in n
    ensures NameValue(n + "=" + v) == (n, v)
  {
    assert n + "=" + v == n + ['='] + v;
    SplitFirstAt(n, '=', v);
  }

  lemma SplitThree(p1: string, p2: string, p3: string)
    requires '&' !in p1 && '&' !in p2 && '&' !in p3
    ensures SplitOn(p1 + "&" + p2 + "&" + p3, '&') == [p1, p2, p3]
  {
    assert p1 + "&" + p2 + "&" + p3 == p1 + ['&'] + (p2 + ['&'] + p3);
    SplitOnAt(p1, '&', p2 + ['&'] + p3);
    SplitOnAt(p2, '&', p3);
    SplitOnNone(p3, '&');
  }

  /** A query built from three `name=value` pairs reads back as those pairs,
      provided the base has no `?`, the names no `=` and no `&`, and the values no `&`. */
  lemma ParseThreeParams(base: string, n1: string, v1: string, n2: string, v2: string, n3: string, v3: string)
    requires '?' !in base
    requires '=' !in n1 && '=' !in n2 && '=' !in n3
    requires '&' !in n1 && '&' !in n2 && '&' !in n3
    requires '&' !in v1 && '&' !in v2 && '&' !in v3
    ensures ParseUrl(base + "?" + n1 + "=" + v1 + "&" + n2 + "=" + v2 + "&" + n3 + "=" + v3)
         == ParsedUrl(base, [(n1, v1), (n2, v2), (n3, v3)])
  {
    var p1, p2, p3 := n1 + "=" + v1, n2 + "=" + v2, n3 + "=" + v3;
    var q := p1 + "&" + p2 + "&" + p3;
    assert base + "?" + n1 + "=" + v1 + "&" + n2 + "=" + v2 + "&" + n3 + "=" + v3 == base + ['?'] + q;
    SplitFirstAt(base, '?', q);
    SplitThree(p1, p2, p3);
    NameValueOf(n1, v1);
    NameValueOf(n2, v2);
    NameValueOf(n3, v3);
  }
}
