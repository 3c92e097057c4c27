/**
 * The session cookie string the handler carries from the login page to the
 * login POST and on to the advising API: one `name=value` pair per
 * Set-Cookie header, joined with `"; "`.
 */
module Cookies {
  import opened Wrappers
  import opened Text

  /** The `name=value` part of one Set-Cookie header: what precedes its
      first `;`, trimmed. */
  function CookiePair(header: string): (pair: string)
    ensures Trimmed(pair)
  {
    Trim(Split(header, ';')[0])
  }

  lemma PairPlain(header: string)
    ensures ';' !in CookiePair(header)
  {
    TrimKeepsOut(Split(header, ';')[0], ';');
  }

  /** The pair of a header is the trimmed text before its first `;`, or the
      whole header trimmed when it has none. */
  lemma CookiePairOf(p: string, attrs: string)
    requires ';' !in p
    ensures CookiePair(p) == Trim(p)
    ensures CookiePair(p + ";" + attrs) == Trim(p)
  {
    var h := p + ";" + attrs;
    IndexOfUnique(h, ';', |p|);
    assert h[..|p|] == p;
  }

  function Pairs(headers: seq<string>): (pairs: seq<string>)
    ensures |pairs| == |headers|
    ensures forall i :: 0 <= i < |headers| ==> pairs[i] == CookiePair(headers[i])
  {
    if headers == [] then [] else [CookiePair(headers[0])] + Pairs(headers[1..])
  }

  /** The cookie string of a response: empty when it has no Set-Cookie
      header, otherwise its pairs in header order joined with `"; "`. */
  function CookieString(headers: Option<seq<string>>): (s: string)
    ensures headers.None? ==> s == ""
    ensures headers.Some? && |headers.value| == 1 ==> s == CookiePair(headers.value[0])
    ensures headers.Some? && headers.value != [] ==> CookiePair(headers.value[0]) <= s
  {
    match headers
    case None => ""
    case Some(hs) => Join(Pairs(hs), "; ")
  }

  /** Two or more headers: the first pair, then `"; "`, then the cookie
      string of the remaining headers. */
  lemma CookieStringCons(headers: seq<string>)
    requires |headers| >= 2
    ensures CookieString(Some(headers)) == CookiePair(headers[0]) + "; " + CookieString(Some(headers[1..]))
  {
    var ps := Pairs(headers);
    assert ps[1..] == Pairs(headers[1..]);
    JoinStep(ps, "; ");
  }

  /** The string is empty exactly when there is no header, an empty list of
      headers, or a single header whose pair is empty. */
  lemma CookieStringEmpty(headers: Option<seq<string>>)
    ensures CookieString(headers) == "" <==>
              || headers.None?
              || |headers.value| == 0
              || (|headers.value| == 1 && CookiePair(headers.value[0]) == "")
  {
    if headers.Some? && |headers.value| >= 2 {
      var ps := Pairs(headers.value);
      assert Join(ps, "; ") == ps[0] + "; " + Join(ps[1..], "; ");
    }
  }

  /** Reading a cookie string back into its pairs, as a server splits the
      Cookie header on `;` and trims each piece. */
  function ParseCookieString(s: string): (pairs: seq<string>) {
    TrimEach(Split(s, ';'))
  }

  function TrimEach(pieces: seq<string>): (trimmed: seq<string>)
    ensures |trimmed| == |pieces|
    ensures forall i :: 0 <= i < |pieces| ==> trimmed[i] == Trim(pieces[i])
  {
    if pieces == [] then [] else [Trim(pieces[0])] + TrimEach(pieces[1..])
  }

  /** Each piece with one space in front. */
  function Spaced(xs: seq<string>): (ys: seq<string>)
    ensures |ys| == |xs|
    ensures forall i :: 0 <= i < |xs| ==> ys[i] == " " + xs[i]
  {
    if xs == [] then [] else [" " + xs[0]] + Spaced(xs[1..])
  }

  lemma {:induction false} JoinSpaced(xs: seq<string>)
    requires |xs| >= 1
    ensures " " + Join(xs, "; ") == Join(Spaced(xs), ";")
  {
    if |xs| > 1 {
      JoinSpaced(xs[1..]);
      assert Spaced(xs)[1..] == Spaced(xs[1..]);
      calc {
        " " + Join(xs, "; ");
        " " + (xs[0] + "; " + Join(xs[1..], "; "));
        (" " + xs[0]) + ";" + (" " + Join(xs[1..], "; "));
        Spaced(xs)[0] + ";" + Join(Spaced(xs)[1..], ";");
      }
    }
  }

  /** Kept apart so that its sequence reasoning stays out of the caller's context. */
  lemma SemicolonSpace(a: string, r: string)
    ensures a + ";" + (" " + r) == a + "; " + r
  {
  }

  lemma JoinAsSemicolons(ps: seq<string>)
    requires |ps| >= 1
    ensures Join(ps, "; ") == Join([ps[0]] + Spaced(ps[1..]), ";")
  {
    var qs := [ps[0]] + Spaced(ps[1..]);
    if |ps| > 1 {
      JoinSpaced(ps[1..]);
      assert qs[0] == ps[0] && qs[1..] == Spaced(ps[1..]);
      JoinStep(qs, ";");
      JoinStep(ps, "; ");
      SemicolonSpace(ps[0], Join(ps[1..], "; "));
    } else {
      assert qs == ps;
    }
  }

  /** The pairs as they stand between the `;` of the cookie string. */
  function Pieces(pairs: seq<string>): seq<string>
    requires |pairs| >= 1
  {
    [pairs[0]] + Spaced(pairs[1..])
  }

  lemma PiecesPlain(headers: seq<string>)
    requires |headers| >= 1
    ensures forall k :: 0 <= k < |headers| ==> ';' !in Pieces(Pairs(headers))[k]
  {
    var ps := Pairs(headers);
    forall k | 0 <= k < |headers|
      ensures ';' !in Pieces(ps)[k]
    {
      PairPlain(headers[k]);
      if k > 0 {
        assert Pieces(ps)[k] == " " + ps[k];
      }
    }
  }

  lemma TrimPieces(ps: seq<string>)
    requires |ps| >= 1
    requires forall k :: 0 <= k < |ps| ==> Trimmed(ps[k])
    ensures TrimEach(Pieces(ps)) == ps
  {
    var qs := Pieces(ps);
    forall k | 0 <= k < |ps|
      ensures Trim(qs[k]) == ps[k]
    {
      if k == 0 {
        TrimPadded([], ps[0], []);
        assert [] + ps[0] + [] == ps[0];
      } else {
        assert qs[k] == " " + ps[k];
        TrimPadded(" ", ps[k], []);
        assert " " + ps[k] + [] == qs[k];
      }
    }
  }

  /** Reading the cookie string back gives the pairs of the headers, in
      header order. */
  lemma CookieStringRoundTrip(headers: seq<string>)
    requires |headers| >= 1
    ensures ParseCookieString(CookieString(Some(headers))) == Pairs(headers)
  {
    var ps := Pairs(headers);
    JoinAsSemicolons(ps);
    assert CookieString(Some(headers)) == Join(Pieces(ps), ";");
    PiecesPlain(headers);
    SplitJoin(Pieces(ps), ';');
    TrimPieces(ps);
  }
}
