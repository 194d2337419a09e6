/** The JavaScript string built-ins the client relies on: `split` on one
    character and its inverse `join`, `startsWith`, `trim`, and the decimal
    text of a status number inside a template literal. */
module JsString {

  // ---------------------------------------------------------------------------
  // split / join

  /** `pieces.join(sep)`. */
  function Join(pieces: seq<string>, sep: char): string
    requires |pieces| >= 1
  {
    if |pieces| == 1 then pieces[0] else pieces[0] + [sep] + Join(pieces[1..], sep)
  }

  /** `s.split(sep)` for a one-character separator: always at least one piece
      (the empty string gives `[""]`), and no piece holds the separator. */
  function Split(s: string, sep: char): (r: seq<string>)
    ensures |r| >= 1
    ensures forall i :: 0 <= i < |r| ==> sep !in r[i]
  {
    if s == [] then [[]]
    else
      var t := Split(s[1..], sep);
      if s[0] == sep then [[]] + t else [[s[0]] + t[0]] + t[1..]
  }

  /** Joining the pieces of `s` with the separator gives `s` back. */
  lemma {:induction false} JoinSplit(s: string, sep: char)
    ensures Join(Split(s, sep), sep) == s
  {
    if s != [] {
      var t := Split(s[1..], sep);
      JoinSplit(s[1..], sep);
      if s[0] == sep {
        assert Split(s, sep) == [[]] + t;
        assert ([[]] + t)[1..] == t;
      } else {
        JoinConsHead(s[0], t, sep);
      }
      assert s == [s[0]] + s[1..];
    }
  }

  lemma {:induction false} JoinConsHead(c: char, t: seq<string>, sep: char)
    requires |t| >= 1
    ensures Join([[c] + t[0]] + t[1..], sep) == [c] + Join(t, sep)
  {
    var u := [[c] + t[0]] + t[1..];
    assert u[1..] == t[1..];
  }

  /** A separator-free string splits into itself, and a separator-free prefix
      is glued onto the first piece of what follows it. */
  lemma {:induction false} SplitFreePrefix(a: string, b: string, sep: char)
    requires sep !in a
    ensures Split(a + b, sep) == [a + Split(b, sep)[0]] + Split(b, sep)[1..]
  {
    var sb := Split(b, sep);
    if a == [] {
      assert a + b == b && a + sb[0] == sb[0];
      assert sb == [sb[0]] + sb[1..];
    } else {
      var ab := a + b;
      assert ab[1..] == a[1..] + b;
      assert ab[0] == a[0] && sep !in a[1..];
      SplitFreePrefix(a[1..], b, sep);
      var t := Split(ab[1..], sep);
      assert t[0] == a[1..] + sb[0] && t[1..] == sb[1..];
      assert Split(ab, sep) == [[a[0]] + t[0]] + t[1..];
      assert [a[0]] + (a[1..] + sb[0]) == a + sb[0];
    }
  }

  /** A separator right after a separator-free prefix closes the first piece. */
  lemma {:induction false} SplitAtSeparator(a: string, rest: string, sep: char)
    requires sep !in a
    ensures Split(a + [sep] + rest, sep) == [a] + Split(rest, sep)
  {
    var b := [sep] + rest;
    assert b[0] == sep && b[1..] == rest;
    var sb := Split(b, sep);
    assert sb == [[]] + Split(rest, sep);
    assert sb[0] == [] && sb[1..] == Split(rest, sep);
    SplitFreePrefix(a, b, sep);
    assert a + [sep] + rest == a + b;
    assert a + sb[0] == a;
  }

  /** `split` inverts `join` on separator-free pieces, so the pieces are the
      only decomposition of a string at its separators. */
  lemma {:induction false} SplitJoin(pieces: seq<string>, sep: char)
    requires |pieces| >= 1
    requires forall i :: 0 <= i < |pieces| ==> sep !in pieces[i]
    ensures Split(Join(pieces, sep), sep) == pieces
  {
    if |pieces| == 1 {
      SplitFreePrefix(pieces[0], [], sep);
      assert pieces[0] + [] == pieces[0];
    } else {
      var tail := pieces[1..];
      assert forall i :: 0 <= i < |tail| ==> sep !in tail[i] by {
        forall i | 0 <= i < |tail| ensures sep !in tail[i] { assert tail[i] == pieces[i + 1]; }
      }
      SplitJoin(tail, sep);
      assert sep !in pieces[0];
      SplitAtSeparator(pieces[0], Join(tail, sep), sep);
      assert pieces == [pieces[0]] + tail;
    }
  }

  // ---------------------------------------------------------------------------
  // startsWith

  /** `s.startsWith(prefix)`. */
  predicate StartsWith(s: string, prefix: string)
  {
    |prefix| <= |s| && s[..|prefix|] == prefix
  }

  // ---------------------------------------------------------------------------
  // trim

  /** The characters `String.prototype.trim` removes: the WhiteSpace and
      LineTerminator code points of ECMAScript (ECMA-262, section 12.2 and 12.3). */
  const TrimmableChars: set<char> := {
    '\t', '\n', '\U{000B}', '\U{000C}', '\r', ' ', '\U{00A0}', '\U{1680}',
    '\U{2000}', '\U{2001}', '\U{2002}', '\U{2003}', '\U{2004}', '\U{2005}',
    '\U{2006}', '\U{2007}', '\U{2008}', '\U{2009}', '\U{200A}',
    '\U{2028}', '\U{2029}', '\U{202F}', '\U{205F}', '\U{3000}', '\U{FEFF}'}

  predicate IsTrimmable(c: char)
  {
    c in TrimmableChars
  }

  /** Every character of `s` from `lo` up to `hi` is trimmable. */
  predicate TrimmableRange(s: string, lo: nat, hi: nat)
    requires lo <= hi <= |s|
  {
    forall i :: lo <= i < hi ==> IsTrimmable(s[i])
  }

  predicate AllTrimmable(s: string)
  {
    TrimmableRange(s, 0, |s|)
  }

  /** The scan from the front: the first position at or after `i` that holds
      a character `trim` keeps, or the end; everything skipped is trimmable. */
  function SkipLeading(s: string, i: nat): (n: nat)
    requires i <= |s|
    ensures i <= n <= |s| && TrimmableRange(s, i, n)
    ensures n == |s| || !IsTrimmable(s[n])
    decreases |s| - i
  {
    if i < |s| && IsTrimmable(s[i]) then SkipLeading(s, i + 1) else i
  }

  /** The scan from the back, stopping at `lo`: the position just after the
      last character before `j` that `trim` keeps, or `lo`; everything
      skipped is trimmable. */
  function SkipTrailing(s: string, lo: nat, j: nat): (n: nat)
    requires lo <= j <= |s|
    ensures lo <= n <= j && TrimmableRange(s, n, j)
    ensures n == lo || !IsTrimmable(s[n - 1])
    decreases j
  {
    if j > lo && IsTrimmable(s[j - 1]) then SkipTrailing(s, lo, j - 1) else j
  }

  /** `s.trim()`: leading and trailing whitespace and line terminators removed. */
  function Trim(s: string): string
  {
    var k := SkipLeading(s, 0);
    s[k..SkipTrailing(s, k, |s|)]
  }

  /** The trimmed string is a slice of `s`, everything cut off on either side
      is trimmable, and a non-empty result starts and ends with a character
      that trimming would keep. */
  lemma {:induction false} TrimIsSlice(s: string)
    ensures var k := SkipLeading(s, 0);
            k + |Trim(s)| <= |s| && Trim(s) == s[k..k + |Trim(s)|]
            && TrimmableRange(s, 0, k) && TrimmableRange(s, k + |Trim(s)|, |s|)
    ensures Trim(s) != [] ==> !IsTrimmable(Trim(s)[0]) && !IsTrimmable(Trim(s)[|Trim(s)| - 1])
  {
    var k := SkipLeading(s, 0);
    var e := SkipTrailing(s, k, |s|);
    assert |Trim(s)| == e - k;
    if e > k {
      assert Trim(s)[0] == s[k] && Trim(s)[e - k - 1] == s[e - 1];
    }
  }

  /** A payload trims to nothing exactly when it is all whitespace. */
  lemma {:induction false} TrimEmptyIff(s: string)
    ensures Trim(s) == [] <==> AllTrimmable(s)
  {
    TrimIsSlice(s);
    var k := SkipLeading(s, 0);
    if Trim(s) != [] {
      assert s[k] == Trim(s)[0];
    }
  }

  /** Trimming a string whose ends are already non-trimmable changes nothing;
      in particular `trim` is idempotent. */
  lemma {:induction false} TrimKeepsTrimmed(s: string)
    requires s == [] || (!IsTrimmable(s[0]) && !IsTrimmable(s[|s| - 1]))
    ensures Trim(s) == s
  {
    assert SkipLeading(s, 0) == 0;
    assert SkipTrailing(s, 0, |s|) == |s|;
    assert s[0..|s|] == s;
  }

  /** A sanity property of the modelled built-in, not of any call site:
      trimming the result of `trim` again changes nothing. */
  lemma {:induction false} TrimIdempotent(s: string)
    ensures Trim(Trim(s)) == Trim(s)
  {
    TrimIsSlice(s);
    TrimKeepsTrimmed(Trim(s));
  }

  // ---------------------------------------------------------------------------
  // decimal text of a number in a template literal

  function DigitChar(d: nat): (c: char)
    requires d < 10
  {
    "0123456789"[d]
  }

  predicate IsDigit(c: char)
  {
    '0' <= c <= '9'
  }

  /** `${n}` for a non-negative integer: its decimal digits, most significant first. */
  function NatToString(n: nat): (r: string)
    ensures |r| >= 1
    ensures forall i :: 0 <= i < |r| ==> IsDigit(r[i])
    ensures |r| > 1 ==> r[0] != '0'
  {
    if n < 10 then [DigitChar(n)] else NatToString(n / 10) + [DigitChar(n % 10)]
  }

  /** Reads a string of decimal digits as a number. */
  function DecimalValue(s: string): nat
    requires forall i :: 0 <= i < |s| ==> IsDigit(s[i])
  {
    if s == [] then 0
    else
      assert IsDigit(s[|s| - 1]);
      DecimalValue(s[..|s| - 1]) * 10 + (s[|s| - 1] as int - '0' as int)
  }

  /** The decimal text of a number reads back as that number. */
  lemma {:induction false} NatToStringRoundTrip(n: nat)
    ensures DecimalValue(NatToString(n)) == n
  {
    if n >= 10 {
      var s := NatToString(n);
      assert s[..|s| - 1] == NatToString(n / 10);
      NatToStringRoundTrip(n / 10);
    }
  }
}
