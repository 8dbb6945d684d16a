/** `Url::parse_with_params(base, params)` for a base without a query and
    parameters that need no percent-encoding: the base, a `?`, then the
    `key=value` pairs joined by `&`. A reader splits such a URL back into its
    base and its pairs, and is proved to invert the writer. */
module UrlQuery {
  import opened Prelude

  /** The characters `application/x-www-form-urlencoded` writes unchanged. */
  predicate Unreserved(c: char) {
    'a' <= c <= 'z' || 'A' <= c <= 'Z' || '0' <= c <= '9' || c == '-' || c == '.' || c == '_' || c == '*'
  }

  predicate Plain(s: string) {
    forall i :: 0 <= i < |s| ==> Unreserved(s[i])
  }

  /** Every key and every value of `params` is written unchanged. */
  predicate PlainParams(params: seq<(string, string)>) {
    forall i :: 0 <= i < |params| ==> Plain(params[i].0) && Plain(params[i].1)
  }

  function Pair(p: (string, string)): string {
    p.0 + "=" + p.1
  }

  function Query(params: seq<(string, string)>): string {
    if |params| == 0 then ""
    else if |params| == 1 then Pair(params[0])
    else Pair(params[0]) + "&" + Query(params[1..])
  }

  function WithParams(base: string, params: seq<(string, string)>): string {
    base + "?" + Query(params)
  }

  lemma QueryOfThree(a: (string, string), b: (string, string), c: (string, string))
    ensures Query([a, b, c]) == Pair(a) + "&" + (Pair(b) + "&" + Pair(c))
  {
    assert [a, b, c][1..] == [b, c] && [b, c][1..] == [c];
    assert Query([b, c]) == Pair(b) + "&" + Pair(c);
  }

  // ---------------------------------------------------------------------
  // Reading
  // ---------------------------------------------------------------------

  /** Splits `s` around the first `sep`. */
  function SplitFirst(s: string, sep: char): (r: Option<(string, string)>)
    ensures r.Some? ==> s == r.value.0 + [sep] + r.value.1 && sep !in r.value.0
    ensures r.None? ==> sep !in s
  {
    if |s| == 0 then None
    else if s[0] == sep then Some(([], s[1..]))
    else
      match SplitFirst(s[1..], sep)
      case None => None
      case Some((a, b)) => Some(([s[0]] + a, b))
  }

  /** Splits `s` around the last `sep`. */
  function SplitLast(s: string, sep: char): (r: Option<(string, string)>)
    ensures r.Some? ==> s == r.value.0 + [sep] + r.value.1 && sep !in r.value.1
    ensures r.None? ==> sep !in s
  {
    if |s| == 0 then None
    else if s[|s| - 1] == sep then Some((s[..|s| - 1], []))
    else
      match SplitLast(s[..|s| - 1], sep)
      case None => None
      case Some((a, b)) => Some((a, b + [s[|s| - 1]]))
  }

  function ParsePair(s: string): Option<(string, string)> {
    SplitFirst(s, '=')
  }

  /** Reads one or more `&`-separated pairs. */
  function ParsePairs(q: string): (r: Option<seq<(string, string)>>)
    ensures r.Some? ==> |r.value| > 0
    decreases |q|
  {
    match SplitFirst(q, '&')
    case None =>
      var p :- ParsePair(q);
      Some([p])
    case Some((head, tail)) =>
      var p :- ParsePair(head);
      var ps :- ParsePairs(tail);
      Some([p] + ps)
  }

  function ParseQuery(q: string): Option<seq<(string, string)>> {
    if q == "" then Some([]) else ParsePairs(q)
  }

  /** Splits a URL into its base and its query pairs. */
  function ParseUrl(url: string): Option<(string, seq<(string, string)>)> {
    var (base, query) :- SplitLast(url, '?');
    var params :- ParseQuery(query);
    Some((base, params))
  }

  // ---------------------------------------------------------------------
  // Round trip
  // ---------------------------------------------------------------------

  lemma {:induction false} SplitFirstAt(a: string, b: string, sep: char)
    requires sep !in a
    ensures SplitFirst(a + [sep] + b, sep) == Some((a, b))
  {
    var s := a + [sep] + b;
    if a == [] {
      assert s[1..] == b;
    } else {
      assert s[1..] == a[1..] + [sep] + b;
      SplitFirstAt(a[1..], b, sep);
      assert [a[0]] + a[1..] == a;
    }
  }

  lemma {:induction false} SplitLastAt(a: string, b: string, sep: char)
    requires sep !in b
    ensures SplitLast(a + [sep] + b, sep) == Some((a, b))
  {
    var s := a + [sep] + b;
    if b == [] {
      assert s[..|s| - 1] == a;
    } else {
      var init := b[..|b| - 1];
      assert s[..|s| - 1] == a + [sep] + init;
      assert sep !in init by {
        forall c | c in init ensures c in b { }
      }
      SplitLastAt(a, init, sep);
      assert init + [b[|b| - 1]] == b;
    }
  }

  lemma PlainLacks(s: string, c: char)
    requires Plain(s) && !Unreserved(c)
    ensures c !in s
  {
  }

  lemma PairRoundTrip(p: (string, string))
    requires Plain(p.0)
    ensures ParsePair(Pair(p)) == Some(p)
  {
    PlainLacks(p.0, '=');
    SplitFirstAt(p.0, p.1, '=');
    assert Pair(p) == p.0 + ['='] + p.1;
  }

  /** The text of a query holds no character outside the pairs' own
      characters, `=` and `&`. */
  lemma {:induction false} QueryChars(params: seq<(string, string)>)
    requires PlainParams(params)
    ensures forall c :: c in Query(params) ==> Unreserved(c) || c == '=' || c == '&'
  {
    if |params| == 1 {
      assert Query(params) == params[0].0 + "=" + params[0].1;
    } else if |params| > 1 {
      QueryChars(params[1..]);
      assert PlainParams(params[1..]) by {
        forall i | 0 <= i < |params[1..]| ensures Plain(params[1..][i].0) && Plain(params[1..][i].1) {
          assert params[1..][i] == params[i + 1];
        }
      }
      assert Query(params) == params[0].0 + "=" + params[0].1 + "&" + Query(params[1..]);
    }
  }

  lemma {:induction false} PairsRoundTrip(params: seq<(string, string)>)
    requires |params| > 0 && PlainParams(params)
    ensures ParsePairs(Query(params)) == Some(params)
    decreases |params|
  {
    var p := params[0];
    PairRoundTrip(p);
    PlainLacks(p.0, '&');
    PlainLacks(p.1, '&');
    if |params| == 1 {
      assert '&' !in Pair(p);
      assert [p] == params;
    } else {
      var rest := params[1..];
      assert PlainParams(rest) by {
        forall i | 0 <= i < |rest| ensures Plain(rest[i].0) && Plain(rest[i].1) {
          assert rest[i] == params[i + 1];
        }
      }
      assert '&' !in Pair(p);
      SplitFirstAt(Pair(p), Query(rest), '&');
      PairsRoundTrip(rest);
      assert [p] + rest == params;
    }
  }

  /** A URL built from a base and plain parameters reads back as that base
      and those parameters, in order. */
  lemma UrlRoundTrip(base: string, params: seq<(string, string)>)
    requires PlainParams(params)
    ensures ParseUrl(WithParams(base, params)) == Some((base, params))
  {
    QueryChars(params);
    SplitLastAt(base, Query(params), '?');
    if |params| > 0 {
      PairsRoundTrip(params);
      assert |Query(params)| > 0 by {
        assert |Pair(params[0])| > 0;
      }
    }
  }
}
