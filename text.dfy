/**
 * The string primitives the handler relies on, written out over `seq<char>`:
 * ECMAScript whitespace and `trim`, `split` on one character and `join`,
 * a decimal `parseInt`, ASCII `toLowerCase` and `includes`.
 */
module Text {
  import opened Wrappers

  /** The characters matched by `\s` in an ECMAScript regular expression,
      which are also the ones `String.prototype.trim` removes. */
  predicate IsSpace(c: char) {
    || c == ' ' || c == '\t' || c == '\n' || c == '\U{000B}' || c == '\U{000C}' || c == '\r'
    || c == '\U{00A0}' || c == '\U{1680}' || ('\U{2000}' <= c <= '\U{200A}')
    || c == '\U{2028}' || c == '\U{2029}' || c == '\U{202F}' || c == '\U{205F}'
    || c == '\U{3000}' || c == '\U{FEFF}'
  }

  predicate AllSpace(s: string) {
    forall k :: 0 <= k < |s| ==> IsSpace(s[k])
  }

  /** No whitespace at either end. */
  predicate Trimmed(s: string) {
    s == [] || (!IsSpace(s[0]) && !IsSpace(s[|s| - 1]))
  }

  /** Drops the leading whitespace. */
  function TrimStart(s: string): (r: string)
    ensures |r| <= |s|
    ensures r == [] || !IsSpace(r[0])
  {
    if s != [] && IsSpace(s[0]) then TrimStart(s[1..]) else s
  }

  /** Drops the trailing whitespace. */
  function TrimEnd(s: string): (r: string)
    ensures |r| <= |s|
    ensures r == [] || (!IsSpace(r[|r| - 1]) && r[0] == s[0])
  {
    if s != [] && IsSpace(s[|s| - 1]) then TrimEnd(s[..|s| - 1]) else s
  }

  /** `String.prototype.trim`. */
  function Trim(s: string): (r: string)
    ensures Trimmed(r)
    ensures |r| <= |s|

  {
    TrimEnd(TrimStart(s))
  }

  /** What `TrimStart` drops is whitespace, and what it keeps is a suffix. */
  lemma {:induction false} TrimStartDrops(s: string)
    ensures TrimStart(s) == s[|s| - |TrimStart(s)|..]
    ensures AllSpace(s[..|s| - |TrimStart(s)|])
  {
    if s != [] && IsSpace(s[0]) {
      TrimStartDrops(s[1..]);
      var n := |s| - |TrimStart(s)|;
      assert s[1..][..n - 1] == s[1..n];
    }
  }

  /** What `TrimEnd` drops is whitespace, and what it keeps is a prefix. */
  lemma {:induction false} TrimEndDrops(s: string)
    ensures TrimEnd(s) == s[..|TrimEnd(s)|]
    ensures AllSpace(s[|TrimEnd(s)|..])
  {
    if s != [] && IsSpace(s[|s| - 1]) {
      TrimEndDrops(s[..|s| - 1]);
      var n := |TrimEnd(s)|;
      assert s[..|s| - 1][n..] + [s[|s| - 1]] == s[n..];
    }
  }

  /** A character `s` lacks is still missing once `s` is trimmed. */
  lemma TrimKeepsOut(s: string, c: char)
    requires c !in s
    ensures c !in Trim(s)
  {
    TrimStartDrops(s);
    TrimEndDrops(TrimStart(s));
  }

  lemma {:induction false} TrimStartPadded(w: string, p: string)
    requires AllSpace(w) && (p == [] || !IsSpace(p[0]))
    ensures TrimStart(w + p) == p
  {
    if w != [] {
      assert (w + p)[1..] == w[1..] + p;
      TrimStartPadded(w[1..], p);
    } else {
      assert w + p == p;
    }
  }

  lemma {:induction false} TrimEndPadded(p: string, w: string)
    requires AllSpace(w) && (p == [] || !IsSpace(p[|p| - 1]))
    ensures TrimEnd(p + w) == p
  {
    if w != [] {
      assert (p + w)[..|p + w| - 1] == p + w[..|w| - 1];
      TrimEndPadded(p, w[..|w| - 1]);
    } else {
      assert p + w == p;
    }
  }

  /** Trimming removes exactly the whitespace around a trimmed core. */
  lemma TrimPadded(lead: string, core: string, trail: string)
    requires AllSpace(lead) && AllSpace(trail) && Trimmed(core)
    ensures Trim(lead + core + trail) == core
  {
    if core == [] {
      assert lead + core + trail == lead + trail;
      assert AllSpace(lead + trail);
      TrimStartPadded(lead + trail, []);
      assert lead + trail + [] == lead + trail;
    } else {
      assert lead + core + trail == lead + (core + trail);
      TrimStartPadded(lead, core + trail);
      TrimEndPadded(core, trail);
    }
  }

  /** `Array.prototype.join`: the parts with `sep` between neighbours. */
  function Join(parts: seq<string>, sep: string): (joined: string)
    ensures parts == [] ==> joined == ""
    ensures parts != [] ==> parts[0] <= joined
  {
    if |parts| == 0 then ""
    else if |parts| == 1 then parts[0]
    else parts[0] + sep + Join(parts[1..], sep)
  }

  lemma JoinStep(parts: seq<string>, sep: string)
    requires |parts| > 1
    ensures Join(parts, sep) == parts[0] + sep + Join(parts[1..], sep)
  {
  }

  /** The position of the first `c` in `s`. */
  function IndexOf(s: string, c: char): (i: nat)
    requires c in s
    ensures i < |s| && s[i] == c && c !in s[..i]
  {
    if s[0] == c then 0 else 1 + IndexOf(s[1..], c)
  }

  /** `String.prototype.split` on one separator character: the pieces
      between separators. */
  function Split(s: string, sep: char): (parts: seq<string>)
    ensures |parts| >= 1
    ensures forall k :: 0 <= k < |parts| ==> sep !in parts[k]
    decreases |s|
  {
    if sep !in s then [s]
    else
      var i := IndexOf(s, sep);
      [s[..i]] + Split(s[i + 1..], sep)
  }

  /** The pieces joined back with the separator give the string. */
  lemma {:induction false} JoinSplit(s: string, sep: char)
    ensures Join(Split(s, sep), [sep]) == s
    decreases |s|
  {
    if sep in s {
      var i := IndexOf(s, sep);
      var parts := Split(s, sep);
      var rest := Split(s[i + 1..], sep);
      assert parts[0] == s[..i] && parts[1..] == rest by {
        assert parts == [s[..i]] + rest;
      }
      JoinStep(parts, [sep]);
      JoinSplit(s[i + 1..], sep);
      assert s == s[..i] + [sep] + s[i + 1..];
    }
  }

  lemma IndexOfUnique(s: string, c: char, i: nat)
    requires i < |s| && s[i] == c && c !in s[..i]
    ensures IndexOf(s, c) == i
  {
  }

  /** Splitting a join of separator-free pieces gives the pieces back. */
  lemma {:induction false} SplitJoin(parts: seq<string>, sep: char)
    requires |parts| >= 1
    requires forall k :: 0 <= k < |parts| ==> sep !in parts[k]
    ensures Split(Join(parts, [sep]), sep) == parts
  {
    if |parts| > 1 {
      var s := Join(parts, [sep]);
      var p := parts[0];
      var tail := Join(parts[1..], [sep]);
      JoinStep(parts, [sep]);
      assert s[..|p|] == p && s[|p|] == sep && s[|p| + 1..] == tail by {
        assert s == p + [sep] + tail;
      }
      IndexOfUnique(s, sep, |p|);
      assert Split(s, sep) == [p] + Split(tail, sep);
      SplitJoin(parts[1..], sep);
      assert parts == [p] + parts[1..];
    }
  }

  predicate IsDigit(c: char) {
    '0' <= c <= '9'
  }

  predicate AllDigits(s: string) {
    forall k :: 0 <= k < |s| ==> IsDigit(s[k])
  }

  function DigitValue(c: char): nat
    requires IsDigit(c)
  {
    (c as int) - ('0' as int)
  }

  function DigitChar(d: nat): (c: char)
    requires d < 10
    ensures IsDigit(c) && DigitValue(c) == d
  {
    (('0' as int) + d) as char
  }

  /** The longest prefix of decimal digits. */
  function LeadingDigits(s: string): (ds: string)
    ensures ds <= s && AllDigits(ds)
    ensures ds == s || !IsDigit(s[|ds|])
  {
    if s != [] && IsDigit(s[0]) then [s[0]] + LeadingDigits(s[1..]) else []
  }

  /** The number a string of decimal digits denotes, most significant first. */
  function DigitsValue(ds: string): nat
    requires AllDigits(ds)
  {
    if ds == [] then 0 else DigitsValue(ds[..|ds| - 1]) * 10 + DigitValue(ds[|ds| - 1])
  }

  /** The value of the digits `s` starts with; `None` when it starts with none. */
  function ParseDigits(s: string): (r: Option<nat>)
    ensures r.None? <==> s == [] || !IsDigit(s[0])
  {
    var ds := LeadingDigits(s);
    if ds == [] then None else Some(DigitsValue(ds))
  }

  /** An optional sign, then digits. */
  function ParseSigned(t: string): Option<int> {
    if t != [] && t[0] == '-' then
      match ParseDigits(t[1..])
      case None => None
      case Some(v) => Some(-(v as int))
    else if t != [] && t[0] == '+' then
      match ParseDigits(t[1..])
      case None => None
      case Some(v) => Some(v as int)
    else
      match ParseDigits(t)
      case None => None
      case Some(v) => Some(v as int)
  }

  /**
   * `parseInt` on decimal text: leading whitespace is skipped, then an
   * optional sign, then the longest run of digits, and whatever follows is
   * ignored. `None` stands for `NaN`, returned when no digit follows the sign.
   */
  function ParseInt(s: string): (r: Option<int>)
    ensures var t := TrimStart(s);
            var u := if t != [] && (t[0] == '-' || t[0] == '+') then t[1..] else t;
            r.None? <==> u == [] || !IsDigit(u[0])
  {
    ParseSigned(TrimStart(s))
  }

  /** The decimal numeral of a natural number, without leading zeros. */
  function ShowNat(n: nat): (r: string)
    ensures r != [] && AllDigits(r)
  {
    if n < 10 then [DigitChar(n)] else ShowNat(n / 10) + [DigitChar(n % 10)]
  }

  /** The decimal numeral of an integer, with `-` in front of a negative one. */
  function Show(n: int): (r: string)
    ensures r != [] && (r[0] == '-' || IsDigit(r[0]))
  {
    if n < 0 then "-" + ShowNat(-n) else ShowNat(n)
  }

  /** A numeral has no whitespace to trim. */
  lemma ShowTrimmed(n: int)
    ensures Trimmed(Show(n))
  {
    var s := Show(n);
    var digits := ShowNat(if n < 0 then -n else n);
    assert s[|s| - 1] == digits[|digits| - 1];
    assert !IsSpace(s[0]) && !IsSpace(s[|s| - 1]);
  }

  lemma {:induction false} ShowNatValue(n: nat)
    ensures DigitsValue(ShowNat(n)) == n
  {
    if n >= 10 {
      var s := ShowNat(n);
      assert s[..|s| - 1] == ShowNat(n / 10);
      ShowNatValue(n / 10);
    }
  }

  lemma {:induction false} LeadingDigitsOf(ds: string, rest: string)
    requires AllDigits(ds)
    requires rest == [] || !IsDigit(rest[0])
    ensures LeadingDigits(ds + rest) == ds
  {
    if ds != [] {
      assert (ds + rest)[1..] == ds[1..] + rest;
      LeadingDigitsOf(ds[1..], rest);
      assert ds == [ds[0]] + ds[1..];
    } else {
      assert ds + rest == rest;
    }
  }

  lemma ParseDigitsOf(ds: string, rest: string)
    requires ds != [] && AllDigits(ds)
    requires rest == [] || !IsDigit(rest[0])
    ensures ParseDigits(ds + rest) == Some(DigitsValue(ds))
  {
    LeadingDigitsOf(ds, rest);
  }

  lemma ParseNegativeOf(t: string, ds: string, rest: string)
    requires t == "-" + ds + rest
    requires ds != [] && AllDigits(ds)
    requires rest == [] || !IsDigit(rest[0])
    ensures ParseSigned(t) == Some(-(DigitsValue(ds) as int))
  {
    assert t[1..] == ds + rest;
    ParseDigitsOf(ds, rest);
  }

  lemma ParseUnsignedOf(t: string, ds: string, rest: string)
    requires t == ds + rest
    requires ds != [] && AllDigits(ds)
    requires rest == [] || !IsDigit(rest[0])
    ensures ParseSigned(t) == Some(DigitsValue(ds) as int)
  {
    assert t[0] == ds[0];
    ParseDigitsOf(ds, rest);
  }

  lemma ParsePlusOf(t: string, ds: string, rest: string)
    requires t == "+" + ds + rest
    requires ds != [] && AllDigits(ds)
    requires rest == [] || !IsDigit(rest[0])
    ensures ParseSigned(t) == Some(DigitsValue(ds) as int)
  {
    assert t[1..] == ds + rest;
    ParseDigitsOf(ds, rest);
  }

  /** `parseInt` of leading whitespace, an optional sign and digits, followed
      by anything that is not a digit: the digits' value, negated after `-`. */
  lemma ParseIntOf(lead: string, sign: string, ds: string, rest: string)
    requires AllSpace(lead) && (sign == "" || sign == "+" || sign == "-")
    requires ds != [] && AllDigits(ds)
    requires rest == [] || !IsDigit(rest[0])
    ensures ParseInt(lead + sign + ds + rest)
            == Some(if sign == "-" then -(DigitsValue(ds) as int) else DigitsValue(ds) as int)
  {
    var t := sign + ds + rest;
    assert lead + sign + ds + rest == lead + t;
    assert t[0] == (if sign == "" then ds[0] else sign[0]);
    TrimStartPadded(lead, t);
    if sign == "-" {
      ParseNegativeOf(t, ds, rest);
    } else if sign == "+" {
      ParsePlusOf(t, ds, rest);
    } else {
      assert t == ds + rest;
      ParseUnsignedOf(t, ds, rest);
    }
  }

  /** `parseInt` reads back the numeral of any integer, whatever non-digit
      text follows it. */
  lemma ParseShow(n: int, rest: string)
    requires rest == [] || !IsDigit(rest[0])
    ensures ParseInt(Show(n) + rest) == Some(n)
  {
    var s := Show(n) + rest;
    assert !IsSpace(s[0]);
    assert TrimStart(s) == s;
    ParseSignedShow(n, rest);
  }

  lemma ParseSignedShow(n: int, rest: string)
    requires rest == [] || !IsDigit(rest[0])
    ensures ParseSigned(Show(n) + rest) == Some(n)
  {
    if n < 0 {
      ShowNatValue(-n);
      ParseNegativeOf(Show(n) + rest, ShowNat(-n), rest);
    } else {
      ShowNatValue(n);
      ParseUnsignedOf(Show(n) + rest, ShowNat(n), rest);
    }
  }

  function LowerChar(c: char): char {
    if 'A' <= c <= 'Z' then ((c as int) + 32) as char else c
  }

  /** `String.prototype.toLowerCase` on ASCII letters. */
  function Lower(s: string): (r: string)
    ensures |r| == |s|
    ensures forall k :: 0 <= k < |r| ==> !('A' <= r[k] <= 'Z')
    ensures forall k :: 0 <= k < |s| && !('A' <= s[k] <= 'Z') ==> r[k] == s[k]
  {
    seq(|s|, k requires 0 <= k < |s| => LowerChar(s[k]))
  }

  /** `String.prototype.includes`. */
  function Contains(s: string, t: string): (b: bool)
    ensures t <= s ==> b
    ensures b ==> |t| <= |s|
    decreases |s|
  {
    if t <= s then true
    else if s == [] then false
    else Contains(s[1..], t)
  }

  /** `t` occurs in `s` starting at position `i`. */
  predicate OccursAt(s: string, t: string, i: int) {
    0 <= i <= |s| - |t| && s[i..i + |t|] == t
  }

  /** `includes` holds exactly when `t` occurs at some position of `s`. */
  lemma {:induction false} ContainsAt(s: string, t: string)
    ensures Contains(s, t) <==> exists i :: OccursAt(s, t, i)
  {
    if t <= s {
      assert s[0..0 + |t|] == t;
      assert OccursAt(s, t, 0);
    } else if s == [] {
    } else {
      ContainsAt(s[1..], t);
      if Contains(s[1..], t) {
        var i :| OccursAt(s[1..], t, i);
        assert s[i + 1..i + 1 + |t|] == t;
        assert OccursAt(s, t, i + 1);
      } else {
        forall i | 0 <= i <= |s| - |t|
          ensures !OccursAt(s, t, i)
        {
          if i == 0 {
            assert s[..|t|] == s[0..0 + |t|];
          } else {
            assert s[i..i + |t|] == s[1..][i - 1..i - 1 + |t|];
            assert !OccursAt(s[1..], t, i - 1);
          }
        }
      }
    }
  }
}
