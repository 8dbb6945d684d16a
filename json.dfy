/** The pieces of compact JSON text that `serde_json::to_string` writes for
    the request types: string literals with serde_json's escaping, and
    arrays. Each writer has a reader beside it, and the two are proved to be
    inverse, so that what is written can be read back unchanged. */
module Json {
  import opened Prelude

  // ---------------------------------------------------------------------
  // String literals
  // ---------------------------------------------------------------------

  function HexDigit(d: nat): char
    requires d < 16
  {
    "0123456789abcdef"[d]
  }

  function HexValue(c: char): Option<nat> {
    if '0' <= c <= '9' then Some(c as int - '0' as int)
    else if 'a' <= c <= 'f' then Some(c as int - 'a' as int + 10)
    else if 'A' <= c <= 'F' then Some(c as int - 'A' as int + 10)
    else None
  }

  /** How serde_json writes one character inside a string literal: the quote
      and the backslash are escaped, the control characters below U+0020 use
      their short escapes `\b \t \n \f \r` or `\u00XX` with lower-case hex,
      every other character is written as it is. */
  function EscapeChar(c: char): string {
    if c == '"' then "\\\""
    else if c == '\\' then "\\\\"
    else if c as int == 0x08 then "\\b"
    else if c as int == 0x0C then "\\f"
    else if c == '\n' then "\\n"
    else if c == '\r' then "\\r"
    else if c == '\t' then "\\t"
    else if c as int < 0x20 then "\\u00" + [HexDigit(c as int / 16), HexDigit(c as int % 16)]
    else [c]
  }

  function Escape(s: string): string {
    if s == [] then "" else EscapeChar(s[0]) + Escape(s[1..])
  }

  /** A JSON string literal. */
  function Quote(s: string): string {
    "\"" + Escape(s) + "\""
  }

  /** Reads the escape sequence that follows a backslash. */
  function Unescape(s: string): (r: Option<(char, string)>)
    ensures r.Some? ==> |r.value.1| < |s|
  {
    if |s| == 0 then None
    else if s[0] == '"' then Some(('"', s[1..]))
    else if s[0] == '\\' then Some(('\\', s[1..]))
    else if s[0] == '/' then Some(('/', s[1..]))
    else if s[0] == 'b' then Some((0x08 as char, s[1..]))
    else if s[0] == 'f' then Some((0x0C as char, s[1..]))
    else if s[0] == 'n' then Some(('\n', s[1..]))
    else if s[0] == 'r' then Some(('\r', s[1..]))
    else if s[0] == 't' then Some(('\t', s[1..]))
    else if s[0] == 'u' && |s| >= 5 then
      match (HexValue(s[1]), HexValue(s[2]), HexValue(s[3]), HexValue(s[4]))
      case (Some(a), Some(b), Some(c), Some(d)) =>
        var v := ((a * 16 + b) * 16 + c) * 16 + d;
        if v < 0xD800 then Some((v as char, s[5..])) else None
      case _ => None
    else None
  }

  /** Reads the characters of a string literal up to its closing quote and
      returns them with the text after that quote. */
  function ParseChars(s: string): (r: Option<(string, string)>)
    ensures r.Some? ==> |r.value.1| < |s|
    decreases |s|
  {
    if |s| == 0 then None
    else if s[0] == '"' then Some(([], s[1..]))
    else if s[0] == '\\' then
      match Unescape(s[1..])
      case None => None
      case Some((c, t)) =>
        match ParseChars(t)
        case None => None
        case Some((v, rest)) => Some(([c] + v, rest))
    else
      match ParseChars(s[1..])
      case None => None
      case Some((v, rest)) => Some(([s[0]] + v, rest))
  }

  function ParseQuoted(s: string): (r: Option<(string, string)>)
    ensures r.Some? ==> |r.value.1| < |s|
  {
    if |s| > 0 && s[0] == '"' then ParseChars(s[1..]) else None
  }

  lemma HexRoundTrip(d: nat)
    requires d < 16
    ensures HexValue(HexDigit(d)) == Some(d)
  {
  }

  /** The characters a string literal cannot hold as they are. */
  predicate Escaped(c: char) {
    c == '"' || c == '\\' || c as int < 0x20
  }

  /** An escaped character is written as a backslash and at least one more
      character; any other character is written as it is. */
  lemma EscapeCharShape(c: char)
    ensures Escaped(c) ==> |EscapeChar(c)| >= 2 && EscapeChar(c)[0] == '\\'
    ensures !Escaped(c) ==> EscapeChar(c) == [c]
  {
  }

  /** What follows the backslash of an escaped character reads back as that
      character. */
  lemma UnescapeRoundTrip(c: char, t: string)
    requires Escaped(c)
    ensures Unescape(EscapeChar(c)[1..] + t) == Some((c, t))
  {
    var e := EscapeChar(c);
    if c == '"' || c == '\\' || c as int == 0x08 || c as int == 0x0C || c == '\n' || c == '\r' || c == '\t' {
      assert (e[1..] + t)[0] == e[1] && (e[1..] + t)[1..] == t;
    } else {
      var hi, lo := c as int / 16, c as int % 16;
      HexRoundTrip(hi);
      HexRoundTrip(lo);
      var u := e[1..] + t;
      assert u == "u00" + [HexDigit(hi), HexDigit(lo)] + t;
      assert u[0] == 'u' && u[1] == '0' && u[2] == '0' && u[3] == HexDigit(hi) && u[4] == HexDigit(lo) && u[5..] == t;
      assert (((0 * 16 + 0) * 16 + hi) * 16 + lo) as char == c;
    }
  }

  /** A string with nothing to escape is written as it is. */
  lemma {:induction false} EscapePlain(s: string)
    requires forall i :: 0 <= i < |s| ==> !Escaped(s[i])
    ensures Escape(s) == s
  {
    if s != [] {
      EscapeCharShape(s[0]);
      EscapePlain(s[1..]);
    }
  }

  /** One step of the string reader: an escape sequence. */
  lemma ParseCharsEscaped(s: string, c: char, t: string)
    requires |s| > 0 && s[0] == '\\' && Unescape(s[1..]) == Some((c, t))
    ensures ParseChars(s) ==
      match ParseChars(t)
      case None => None
      case Some((v, rest)) => Some(([c] + v, rest))
  {
  }

  /** One step of the string reader: a character written as it is. */
  lemma ParseCharsPlain(s: string)
    requires |s| > 0 && s[0] != '"' && s[0] != '\\'
    ensures ParseChars(s) ==
      match ParseChars(s[1..])
      case None => None
      case Some((v, rest)) => Some(([s[0]] + v, rest))
  {
  }

  /** Reading one escaped character gives the character back. */
  lemma EscapeCharRoundTrip(c: char, t: string)
    ensures ParseChars(EscapeChar(c) + t) ==
      match ParseChars(t)
      case None => None
      case Some((v, rest)) => Some(([c] + v, rest))
  {
    var e := EscapeChar(c);
    EscapeCharShape(c);
    if Escaped(c) {
      UnescapeRoundTrip(c, t);
      assert (e + t)[0] == '\\' && (e + t)[1..] == e[1..] + t;
      ParseCharsEscaped(e + t, c, t);
    } else {
      assert (e + t)[0] == c && (e + t)[1..] == t;
      ParseCharsPlain(e + t);
    }
  }

  lemma {:induction false} EscapeRoundTrip(s: string, rest: string)
    ensures ParseChars(Escape(s) + "\"" + rest) == Some((s, rest))
  {
    if s == [] {
      assert Escape(s) + "\"" + rest == "\"" + rest;
    } else {
      var t := Escape(s[1..]) + "\"" + rest;
      EscapeRoundTrip(s[1..], rest);
      EscapeCharRoundTrip(s[0], t);
      assert Escape(s) + "\"" + rest == EscapeChar(s[0]) + t;
      assert [s[0]] + s[1..] == s;
    }
  }

  /** A string literal reads back as the string it quotes, whatever text
      follows it. */
  lemma QuoteRoundTrip(s: string, rest: string)
    ensures ParseQuoted(Quote(s) + rest) == Some((s, rest))
  {
    EscapeRoundTrip(s, rest);
    var u := Quote(s) + rest;
    assert u == "\"" + (Escape(s) + "\"" + rest);
    assert u[0] == '"' && u[1..] == Escape(s) + "\"" + rest;
    assert ParseQuoted(u) == ParseChars(u[1..]);
  }

  /** Distinct strings have distinct literals. */
  lemma QuoteInjective(s: string, u: string)
    requires Quote(s) == Quote(u)
    ensures s == u
  {
    QuoteRoundTrip(s, "");
    QuoteRoundTrip(u, "");
    assert Quote(s) + "" == Quote(u) + "";
  }

  // ---------------------------------------------------------------------
  // Literal text and arrays
  // ---------------------------------------------------------------------

  /** Consumes the literal text `lit` at the start of `s`. */
  function Expect(lit: string, s: string): (r: Option<string>)
    ensures r.Some? ==> |r.value| == |s| - |lit|
  {
    if |lit| <= |s| && s[..|lit|] == lit then Some(s[|lit|..]) else None
  }

  lemma ExpectLiteral(lit: string, rest: string)
    ensures Expect(lit, lit + rest) == Some(rest)
  {
    assert (lit + rest)[..|lit|] == lit;
  }

  lemma ExpectMismatch(lit: string, s: string, i: nat)
    requires i < |lit| && i < |s| && s[i] != lit[i]
    ensures Expect(lit, s).None?
  {
    if |lit| <= |s| {
      assert s[..|lit|][i] != lit[i];
    }
  }

  /** A reader that always consumes some text when it succeeds. */
  ghost predicate Consumes<T(!new)>(p: string -> Option<(T, string)>) {
    forall s :: p(s).Some? ==> |p(s).value.1| < |s|
  }

  /** `p` reads back every `x` of `xs` that `w` writes, and no element is
      written as text that could be taken for the end of an array. */
  ghost predicate Reads<T(!new)>(p: string -> Option<(T, string)>, w: T -> string, xs: seq<T>) {
    && (forall x, rest :: x in xs ==> p(w(x) + rest) == Some((x, rest)))
    && (forall x :: x in xs ==> |w(x)| > 0 && w(x)[0] != ']')
  }

  /** The elements of an array, separated by commas. */
  function Items<T>(xs: seq<T>, w: T -> string): string {
    if |xs| == 0 then ""
    else if |xs| == 1 then w(xs[0])
    else w(xs[0]) + "," + Items(xs[1..], w)
  }

  /** A JSON array `[e1,e2,...]` in compact form. */
  function Array<T>(xs: seq<T>, w: T -> string): string {
    "[" + Items(xs, w) + "]"
  }

  /** Reads comma-separated elements up to and including the closing `]`. */
  function ParseItems<T(!new)>(s: string, p: string -> Option<(T, string)>): (r: Option<(seq<T>, string)>)
    requires Consumes(p)
    ensures r.Some? ==> |r.value.1| < |s|
    decreases |s|
  {
    match p(s)
    case None => None
    case Some((x, t)) =>
      if |t| > 0 && t[0] == ']' then Some(([x], t[1..]))
      else if |t| > 0 && t[0] == ',' then
        match ParseItems(t[1..], p)
        case None => None
        case Some((xs, rest)) => Some(([x] + xs, rest))
      else None
  }

  function ParseArray<T(!new)>(s: string, p: string -> Option<(T, string)>): (r: Option<(seq<T>, string)>)
    requires Consumes(p)
    ensures r.Some? ==> |r.value.1| < |s|
  {
    if |s| >= 2 && s[0] == '[' && s[1] == ']' then Some(([], s[2..]))
    else if |s| > 0 && s[0] == '[' then ParseItems(s[1..], p)
    else None
  }

  lemma {:induction false} ItemsRoundTrip<T(!new)>(xs: seq<T>, w: T -> string, p: string -> Option<(T, string)>, rest: string)
    requires |xs| > 0
    requires Consumes(p) && Reads(p, w, xs)
    ensures ParseItems(Items(xs, w) + "]" + rest, p) == Some((xs, rest))
  {
    var x := xs[0];
    if |xs| == 1 {
      assert Items(xs, w) + "]" + rest == w(x) + ("]" + rest);
      assert p(w(x) + ("]" + rest)) == Some((x, "]" + rest));
      assert ("]" + rest)[1..] == rest;
      assert [x] == xs;
    } else {
      var tail := "," + Items(xs[1..], w) + "]" + rest;
      assert Items(xs, w) + "]" + rest == w(x) + tail;
      assert p(w(x) + tail) == Some((x, tail));
      assert tail[1..] == Items(xs[1..], w) + "]" + rest;
      assert Reads(p, w, xs[1..]) by {
        forall y | y in xs[1..] ensures y in xs { }
      }
      ItemsRoundTrip(xs[1..], w, p, rest);
      assert [x] + xs[1..] == xs;
    }
  }

  /** A non-empty list of elements starts with the first element's text. */
  lemma ItemsStart<T>(xs: seq<T>, w: T -> string)
    requires |xs| > 0 && |w(xs[0])| > 0
    ensures |Items(xs, w)| > 0 && Items(xs, w)[0] == w(xs[0])[0]
  {
    if |xs| > 1 {
      assert Items(xs, w) == w(xs[0]) + ("," + Items(xs[1..], w));
    }
  }

  /** An array reads back element by element, whatever text follows it. */
  lemma ArrayRoundTrip<T(!new)>(xs: seq<T>, w: T -> string, p: string -> Option<(T, string)>, rest: string)
    requires Consumes(p) && Reads(p, w, xs)
    ensures ParseArray(Array(xs, w) + rest, p) == Some((xs, rest))
  {
    if |xs| == 0 {
      assert Array(xs, w) + rest == "[]" + rest;
    } else {
      ItemsRoundTrip(xs, w, p, rest);
      assert xs[0] in xs;
      ItemsStart(xs, w);
      var s := Array(xs, w) + rest;
      var body := Items(xs, w) + "]" + rest;
      assert s == "[" + body;
      assert s[1..] == body;
      assert s[1] == body[0] == w(xs[0])[0];
    }
  }

  /** The string reader, as a value that `ParseArray` can take. */
  lemma QuotedReadsStrings(xs: seq<string>)
    ensures Consumes(ParseQuoted) && Reads(ParseQuoted, Quote, xs)
  {
    forall x, rest | x in xs
      ensures ParseQuoted(Quote(x) + rest) == Some((x, rest))
    {
      QuoteRoundTrip(x, rest);
    }
  }
}
