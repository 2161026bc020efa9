/**
 * The string operations the PDB reader and writer rely on: Rust's `char::is_whitespace` and
 * Python's `str.isspace`, `starts_with`, `trim`/`strip`, `split_whitespace`, right-aligned and
 * left-aligned padding (`{:>w}`, `{:<w}`), decimal formatting of indices and `usize` parsing.
 * Strings are sequences of characters.
 */
module Text {
  import opened Wrappers

  /** Rust `char::is_whitespace`: the Unicode White_Space property. */
  predicate IsWhitespace(c: char)
  {
    ('\t' <= c <= '\r') || c == ' ' || c == '\U{0085}' || c == '\U{00A0}' || c == '\U{1680}' ||
    ('\U{2000}' <= c <= '\U{200A}') || c == '\U{2028}' || c == '\U{2029}' || c == '\U{202F}' ||
    c == '\U{205F}' || c == '\U{3000}'
  }

  /** Python `str.isspace` on one character: White_Space plus the separators U+001C..U+001F. */
  predicate IsPyWhitespace(c: char)
  {
    IsWhitespace(c) || ('\U{001C}' <= c <= '\U{001F}')
  }

  /** Every character of s satisfies ws. */
  predicate AllIn(s: string, ws: char -> bool)
  {
    forall k :: 0 <= k < |s| ==> ws(s[k])
  }

  /** No character of s satisfies ws. */
  predicate NoneIn(s: string, ws: char -> bool)
  {
    forall k :: 0 <= k < |s| ==> !ws(s[k])
  }

  /** `s.starts_with(prefix)`. */
  predicate StartsWith(s: string, prefix: string)
  {
    |prefix| <= |s| && s[..|prefix|] == prefix
  }

  /** A string keeps the prefixes of its front part. */
  lemma StartsWithAppend(p: string, s: string, prefix: string)
    requires StartsWith(p, prefix)
    ensures StartsWith(p + s, prefix)
  {
    assert (p + s)[..|prefix|] == p[..|prefix|];
  }

  // ---- Trimming ----

  /** The length of the longest prefix of s made of ws characters. */
  function LeadingCount(s: string, ws: char -> bool): (n: nat)
    ensures n <= |s| && AllIn(s[..n], ws)
    ensures n < |s| ==> !ws(s[n])
  {
    if s == [] || !ws(s[0]) then 0 else 1 + LeadingCount(s[1..], ws)
  }

  /** The length of the longest suffix of s made of ws characters. */
  function TrailingCount(s: string, ws: char -> bool): (n: nat)
    ensures n <= |s| && AllIn(s[|s| - n..], ws)
    ensures n < |s| ==> !ws(s[|s| - n - 1])
  {
    if s == [] || !ws(s[|s| - 1]) then 0 else 1 + TrailingCount(s[..|s| - 1], ws)
  }

  /**
   * `trim()` (with ws = IsWhitespace) and `strip()` (with ws = IsPyWhitespace): s without its
   * leading and trailing ws characters.
   */
  function Trim(s: string, ws: char -> bool): (r: string)
    ensures LeadingCount(s, ws) + |r| <= |s|
    ensures r == s[LeadingCount(s, ws)..LeadingCount(s, ws) + |r|]
    ensures r == [] || (!ws(r[0]) && !ws(r[|r| - 1]))
  {
    var rest := s[LeadingCount(s, ws)..];
    rest[..|rest| - TrailingCount(rest, ws)]
  }

  /** What trimming removes at the end is all ws characters. */
  lemma TrimmedSuffix(s: string, ws: char -> bool)
    ensures LeadingCount(s, ws) + |Trim(s, ws)| <= |s|
    ensures AllIn(s[LeadingCount(s, ws) + |Trim(s, ws)|..], ws)
  {
    var l := LeadingCount(s, ws);
    var rest := s[l..];
    var n := TrailingCount(rest, ws);
    assert |Trim(s, ws)| == |rest| - n;
    assert s[l + |rest| - n..] == rest[|rest| - n..];
  }

  lemma {:induction false} LeadingOfFrame(p: string, rest: string, ws: char -> bool)
    requires AllIn(p, ws) && (rest == [] || !ws(rest[0]))
    ensures LeadingCount(p + rest, ws) == |p|
  {
    if p == [] {
      assert p + rest == rest;
    } else {
      assert (p + rest)[1..] == p[1..] + rest;
      LeadingOfFrame(p[1..], rest, ws);
    }
  }

  lemma {:induction false} TrailingOfFrame(rest: string, q: string, ws: char -> bool)
    requires AllIn(q, ws) && (rest == [] || !ws(rest[|rest| - 1]))
    ensures TrailingCount(rest + q, ws) == |q|
  {
    if q == [] {
      assert rest + q == rest;
    } else {
      assert (rest + q)[..|rest + q| - 1] == rest + q[..|q| - 1];
      TrailingOfFrame(rest, q[..|q| - 1], ws);
    }
  }

  /** Trimming removes exactly a whitespace frame around a word that has none at its ends. */
  lemma TrimFrame(p: string, w: string, q: string, ws: char -> bool)
    requires AllIn(p, ws) && AllIn(q, ws)
    requires w == [] || (!ws(w[0]) && !ws(w[|w| - 1]))
    ensures Trim(p + w + q, ws) == w
  {
    var s := p + w + q;
    if w == [] {
      assert s == (p + q) + [];
      LeadingOfFrame(p + q, [], ws);
    } else {
      assert s == p + (w + q);
      LeadingOfFrame(p, w + q, ws);
      assert s[|p|..] == w + q;
      TrailingOfFrame(w, q, ws);
      assert (w + q)[..|w|] == w;
    }
  }

  /** Trimming a string with no ws characters at its ends changes nothing. */
  lemma TrimNoFrame(w: string, ws: char -> bool)
    requires w == [] || (!ws(w[0]) && !ws(w[|w| - 1]))
    ensures Trim(w, ws) == w
  {
    TrimFrame([], w, [], ws);
    assert [] + w + [] == w;
  }

  // ---- Padding ----

  /** k spaces. */
  function Spaces(k: nat): (s: string)
    ensures |s| == k && AllIn(s, IsWhitespace)
  {
    seq(k, _ => ' ')
  }

  /** `{:>w}`: s right-aligned in a field of w characters (never truncated). */
  function PadLeft(s: string, w: nat): (r: string)
    ensures |r| == if |s| < w then w else |s|
    ensures r == Spaces(|r| - |s|) + s
  {
    if |s| < w then Spaces(w - |s|) + s else s
  }

  /** `{:<w}`: s left-aligned in a field of w characters (never truncated). */
  function PadRight(s: string, w: nat): (r: string)
    ensures |r| == if |s| < w then w else |s|
    ensures r == s + Spaces(|r| - |s|)
  {
    if |s| < w then s + Spaces(w - |s|) else s
  }

  // ---- Splitting on whitespace ----

  /** The length of the longest prefix of s without whitespace. */
  function WordLength(s: string): (n: nat)
    ensures n <= |s| && NoneIn(s[..n], IsWhitespace)
    ensures n < |s| ==> IsWhitespace(s[n])
  {
    if s == [] || IsWhitespace(s[0]) then 0 else 1 + WordLength(s[1..])
  }

  /** `split_whitespace()`: the maximal non-empty runs of non-whitespace characters, in order. */
  function SplitWhitespace(s: string): (tokens: seq<string>)
    ensures forall k :: 0 <= k < |tokens| ==> tokens[k] != [] && NoneIn(tokens[k], IsWhitespace)
    decreases |s|
  {
    if s == [] then []
    else if IsWhitespace(s[0]) then SplitWhitespace(s[1..])
    else
      var n := WordLength(s);
      [s[..n]] + SplitWhitespace(s[n..])
  }

  /** Leading whitespace produces no token. */
  lemma {:induction false} SplitSkipsWhitespace(sp: string, s: string)
    requires AllIn(sp, IsWhitespace)
    ensures SplitWhitespace(sp + s) == SplitWhitespace(s)
  {
    if sp == [] {
      assert sp + s == s;
    } else {
      assert (sp + s)[0] == sp[0];
      assert (sp + s)[1..] == sp[1..] + s;
      SplitSkipsWhitespace(sp[1..], s);
    }
  }

  lemma {:induction false} WordOfFrame(w: string, s: string)
    requires NoneIn(w, IsWhitespace)
    requires s == [] || IsWhitespace(s[0])
    ensures WordLength(w + s) == |w|
  {
    if w == [] {
      assert w + s == s;
    } else {
      assert (w + s)[1..] == w[1..] + s;
      WordOfFrame(w[1..], s);
    }
  }

  /** A word followed by whitespace (or the end) is the next token. */
  lemma SplitTakesWord(w: string, s: string)
    requires w != [] && NoneIn(w, IsWhitespace)
    requires s == [] || IsWhitespace(s[0])
    ensures SplitWhitespace(w + s) == [w] + SplitWhitespace(s)
  {
    WordOfFrame(w, s);
    var t := w + s;
    assert t[0] == w[0];
    assert t[..|w|] == w && t[|w|..] == s;
  }
  /** A word after whitespace and before whitespace (or the end) is the next token. */
  lemma SplitTakesSpaced(sp: string, w: string, s: string)
    requires AllIn(sp, IsWhitespace)
    requires w != [] && NoneIn(w, IsWhitespace)
    requires s == [] || IsWhitespace(s[0])
    ensures SplitWhitespace(sp + w + s) == [w] + SplitWhitespace(s)
  {
    assert sp + w + s == sp + (w + s);
    SplitSkipsWhitespace(sp, w + s);
    SplitTakesWord(w, s);
  }
  /** A word right-aligned in a field after a separating space is the next token. */
  lemma SplitTakesField(w: string, width: nat, s: string)
    requires w != [] && NoneIn(w, IsWhitespace)
    requires s == [] || IsWhitespace(s[0])
    ensures SplitWhitespace(" " + (PadLeft(w, width) + s)) == [w] + SplitWhitespace(s)
  {
    var sp := Spaces(|PadLeft(w, width)| - |w|);
    assert AllIn(" ", IsWhitespace);
    SplitSkipsWhitespace(" ", PadLeft(w, width) + s);
    SplitTakesSpaced(sp, w, s);
  }




  // ---- Decimal numbers ----

  /** The largest `usize` on a 64-bit target. */
  const USIZE_MAX: nat := 0xFFFF_FFFF_FFFF_FFFF

  predicate IsDigit(c: char)
  {
    '0' <= c <= '9'
  }

  predicate AllDigits(s: string)
  {
    forall k :: 0 <= k < |s| ==> IsDigit(s[k])
  }

  function DigitChar(d: nat): (c: char)
    requires d < 10
    ensures IsDigit(c) && c as int - '0' as int == d
  {
    ['0', '1', '2', '3', '4', '5', '6', '7', '8', '9'][d]
  }

  /** `{}` of a natural number: its decimal digits, most significant first, no leading zero. */
  function Decimal(n: nat): (s: string)
    ensures s != [] && NoneIn(s, IsWhitespace)
    ensures AllDigits(s)
    ensures |s| > 1 ==> s[0] != '0'
  {
    if n < 10 then [DigitChar(n)] else Decimal(n / 10) + [DigitChar(n % 10)]
  }

  function DigitValue(c: char): nat
    requires IsDigit(c)
  {
    c as int - '0' as int
  }

  /** The value of a string of decimal digits. */
  function DigitsValue(s: string): nat
    requires AllDigits(s)
  {
    if s == [] then 0 else DigitsValue(s[..|s| - 1]) * 10 + DigitValue(s[|s| - 1])
  }

  lemma {:induction false} DecimalValue(n: nat)
    ensures DigitsValue(Decimal(n)) == n
  {
    if n >= 10 {
      DecimalValue(n / 10);
      assert Decimal(n)[..|Decimal(n)| - 1] == Decimal(n / 10);
    }
  }

  /** Numbers below 100000 have at most five digits, so `{:>5}` fills exactly five columns. */
  lemma {:induction false} DecimalLength(n: nat, k: nat)
    requires n < Pow10(k)
    ensures |Decimal(n)| <= if k == 0 then 1 else k
  {
    assert Pow10(0) == 1 && Pow10(1) == 10;
    if n >= 10 {
      DecimalLength(n / 10, k - 1);
    }
  }

  function Pow10(k: nat): nat
  {
    if k == 0 then 1 else 10 * Pow10(k - 1)
  }

  /**
   * `str::parse::<usize>()`: an optional `+`, then one or more decimal digits whose value fits
   * in 64 bits; anything else (including the empty string and a `-` sign) is an error.
   */
  function ParseUsize(s: string): (r: Option<nat>)
    ensures r.Some? ==> r.value <= USIZE_MAX
    ensures r.Some? ==> exists k :: 0 <= k < |s| && IsDigit(s[k])
  {
    var body := if |s| > 0 && s[0] == '+' then s[1..] else s;
    if body == [] || !AllDigits(body) then None
    else if DigitsValue(body) <= USIZE_MAX then
      assert IsDigit(s[|s| - 1]) by { assert s[|s| - 1] == body[|body| - 1]; }
      Some(DigitsValue(body))
    else None
  }

  /** Formatting an index and parsing it back gives the index. */
  lemma ParseDecimal(n: nat)
    requires n <= USIZE_MAX
    ensures ParseUsize(Decimal(n)) == Some(n)
  {
    DecimalValue(n);
  }

  /** A value beyond 64 bits is rejected. */
  lemma ParseOverflow(n: nat)
    requires n > USIZE_MAX
    ensures ParseUsize(Decimal(n)) == None
  {
    DecimalValue(n);
  }

  /** A sign other than a single leading `+`, and an empty token, are rejected. */
  lemma ParseUsizeSigns()
    ensures ParseUsize("") == None && ParseUsize("+") == None && ParseUsize("-1") == None
    ensures ParseUsize("+7") == Some(7)
  {
    var minus := "-1";
    assert minus[0] == '-' && !IsDigit(minus[0]);
    assert !AllDigits(minus);
    assert "+7"[1..] == "7";
    assert DigitsValue("7") == 7 by { assert "7"[..0] == ""; }
  }
}
