/**
 * The few Python `str` operations the evolution engine relies on, with Python's
 * semantics: `split` on one character, `join`, `strip()`, `find`, `in`, and the
 * decimal `int(...)` / `str(...)` conversions used to bump a version number.
 */
module Text {

  /** The arrow U+2192 that separates old and new version in a history descriptor. */
  const Arrow: char := '\U{2192}'

  /** The characters Python's `str.isspace()` accepts, which `str.strip()` removes. */
  predicate IsSpace(c: char)
  {
    c == ' ' || ('\t' <= c <= '\r') || ('\U{1c}' <= c <= '\U{1f}') || c == '\U{85}' || c == '\U{a0}'
    || c == '\U{1680}' || ('\U{2000}' <= c <= '\U{200a}') || c == '\U{2028}' || c == '\U{2029}'
    || c == '\U{202f}' || c == '\U{205f}' || c == '\U{3000}'
  }

  function TrimLeft(s: string): string
  {
    if s != [] && IsSpace(s[0]) then TrimLeft(s[1..]) else s
  }

  function TrimRight(s: string): string
  {
    if s != [] && IsSpace(s[|s| - 1]) then TrimRight(s[..|s| - 1]) else s
  }

  /** `s.strip()`. */
  function Strip(s: string): string
  {
    TrimRight(TrimLeft(s))
  }

  /** Neither starts nor ends with whitespace: `strip()` leaves it alone. */
  predicate Trimmed(s: string)
  {
    s == [] || (!IsSpace(s[0]) && !IsSpace(s[|s| - 1]))
  }

  predicate AllSpace(s: string)
  {
    forall c :: c in s ==> IsSpace(c)
  }

  /** Stripping whitespace padding gives back a trimmed text. */
  lemma {:induction false} StripPadded(pre: string, s: string, post: string)
    requires AllSpace(pre) && AllSpace(post) && Trimmed(s)
    ensures Strip(pre + s + post) == s
  {
    if s == [] {
      assert pre + s + post == (pre + post) + s;
      TrimLeftPadded(pre + post, s);
    } else {
      assert pre + s + post == pre + (s + post);
      TrimLeftPadded(pre, s + post);
      TrimRightPadded(s, post);
    }
  }

  lemma {:induction false} TrimLeftPadded(pre: string, s: string)
    requires AllSpace(pre) && (s == [] || !IsSpace(s[0]))
    ensures TrimLeft(pre + s) == s
  {
    if pre != [] {
      assert (pre + s)[1..] == pre[1..] + s;
      TrimLeftPadded(pre[1..], s);
    }
  }

  lemma {:induction false} TrimRightPadded(s: string, post: string)
    requires AllSpace(post) && (s == [] || !IsSpace(s[|s| - 1]))
    ensures TrimRight(s + post) == s
  {
    if post != [] {
      assert (s + post)[..|s + post| - 1] == s + post[..|post| - 1];
      TrimRightPadded(s, post[..|post| - 1]);
    } else {
      assert s + post == s;
    }
  }

  /** `s.split(c)` for a one-character separator: never empty, no piece holds `c`. */
  function Split(s: string, c: char): (r: seq<string>)
    ensures |r| >= 1
    ensures forall p :: p in r ==> c !in p
  {
    if s == [] then [""]
    else
      var rest := Split(s[1..], c);
      if s[0] == c then [""] + rest else [[s[0]] + rest[0]] + rest[1..]
  }

  /** `c.join(ps)`. */
  function Join(ps: seq<string>, c: char): string
  {
    if ps == [] then ""
    else if |ps| == 1 then ps[0]
    else ps[0] + [c] + Join(ps[1..], c)
  }

  /** Concatenation regroups freely. */
  lemma Associative(a: string, b: string, c: string)
    ensures (a + b) + c == a + (b + c)
  {
  }

  /** The pieces one after another: `"".join(parts)`. */
  function Concat(parts: seq<string>): string
  {
    if parts == [] then "" else Concat(parts[..|parts| - 1]) + parts[|parts| - 1]
  }

  /** One more piece adds its text at the end. */
  lemma ConcatStep(parts: seq<string>, i: nat)
    requires i < |parts|
    ensures Concat(parts[..i + 1]) == Concat(parts[..i]) + parts[i]
  {
    assert parts[..i + 1][..i] == parts[..i];
  }

  /** Concatenation distributes over appending lists of pieces. */
  lemma {:induction false} ConcatAppend(parts: seq<string>, more: seq<string>)
    ensures Concat(parts + more) == Concat(parts) + Concat(more)
  {
    if more == [] {
      assert parts + more == parts;
    } else {
      var n := |more| - 1;
      assert (parts + more)[..|parts + more| - 1] == parts + more[..n];
      ConcatAppend(parts, more[..n]);
      Associative(Concat(parts), Concat(more[..n]), more[n]);
    }
  }

  /** A text without the separator is one piece. */
  lemma {:induction false} SplitNone(s: string, c: char)
    requires c !in s
    ensures Split(s, c) == [s]
  {
    if s != [] {
      assert s[0] in s && forall x :: x in s[1..] ==> x in s;
      SplitNone(s[1..], c);
      assert s == [s[0]] + s[1..];
    }
  }

  /** Splitting distributes over a separator occurrence. */
  lemma {:induction false} SplitAround(a: string, b: string, c: char)
    ensures Split(a + [c] + b, c) == Split(a, c) + Split(b, c)
  {
    if a == [] {
      assert a + [c] + b == [c] + b;
      assert ([c] + b)[1..] == b;
    } else {
      assert (a + [c] + b)[1..] == a[1..] + [c] + b;
      SplitAround(a[1..], b, c);
    }
  }

  /** A text with one separator splits into the two sides. */
  lemma SplitTwo(a: string, b: string, c: char)
    requires c !in a && c !in b
    ensures Split(a + [c] + b, c) == [a, b]
  {
    SplitAround(a, b, c);
    SplitNone(a, c);
    SplitNone(b, c);
  }

  /** `split` undoes `join` when no piece holds the separator. */
  lemma {:induction false} SplitJoin(ps: seq<string>, c: char)
    requires |ps| >= 1
    requires forall p :: p in ps ==> c !in p
    ensures Split(Join(ps, c), c) == ps
  {
    if |ps| == 1 {
      SplitNone(ps[0], c);
    } else {
      SplitJoin(ps[1..], c);
      SplitAround(ps[0], Join(ps[1..], c), c);
      SplitNone(ps[0], c);
    }
  }

  /** Joining the pieces of a split gives back the text. */
  lemma {:induction false} SplitThenJoin(s: string, c: char)
    ensures Join(Split(s, c), c) == s
  {
    if s != [] {
      var rest := Split(s[1..], c);
      SplitThenJoin(s[1..], c);
      if s[0] == c {
        assert Split(s, c) == [""] + rest;
        assert ([""] + rest)[1..] == rest;
        assert Join(Split(s, c), c) == "" + [c] + Join(rest, c);
      } else if |rest| == 1 {
        assert Split(s, c) == [[s[0]] + rest[0]];
      } else {
        var ps := [[s[0]] + rest[0]] + rest[1..];
        assert ps[1..] == rest[1..];
        assert Join(ps, c) == [s[0]] + rest[0] + [c] + Join(rest[1..], c);
        assert Join(rest, c) == rest[0] + [c] + Join(rest[1..], c);
      }
      assert s == [s[0]] + s[1..];
    }
  }

  /** `pat` occurs in `s` at position `i`. */
  predicate OccursAt(s: string, pat: string, i: int)
  {
    0 <= i && i + |pat| <= |s| && s[i..i + |pat|] == pat
  }

  /** `s.find(pat)`: the first position of `pat` in `s`, or -1. */
  function Find(s: string, pat: string): (r: int)
    ensures r == -1 || OccursAt(s, pat, r)
    ensures forall i :: 0 <= i < r || (r == -1 && 0 <= i <= |s|) ==> !OccursAt(s, pat, i)
  {
    FindFrom(s, pat, 0)
  }

  function FindFrom(s: string, pat: string, k: nat): (r: int)
    requires k <= |s|
    ensures r == -1 || (k <= r && OccursAt(s, pat, r))
    ensures forall i :: k <= i < r || (r == -1 && k <= i <= |s|) ==> !OccursAt(s, pat, i)
    decreases |s| - k
  {
    if OccursAt(s, pat, k) then k
    else if k == |s| then -1
    else FindFrom(s, pat, k + 1)
  }

  predicate IsDigit(c: char)
  {
    '0' <= c <= '9'
  }

  /** A non-empty run of ASCII digits: what `int(...)` reads as a plain natural number. */
  predicate IsNumeral(s: string)
  {
    |s| >= 1 && forall c :: c in s ==> IsDigit(c)
  }

  /** `int(s)` for a numeral. */
  function ParseNat(s: string): nat
    requires forall c :: c in s ==> IsDigit(c)
  {
    if s == [] then 0
    else
      var last := s[|s| - 1];
      assert last in s && forall c :: c in s[..|s| - 1] ==> c in s;
      assert IsDigit(last);
      assert last as int >= '0' as int;
      ParseNat(s[..|s| - 1]) * 10 + (last as int - '0' as int)
  }

  /** A numeral that does not start with `0` reads as a positive number. */
  lemma {:induction false} ParsePositive(s: string)
    requires IsNumeral(s) && s[0] != '0'
    ensures ParseNat(s) >= 1
  {
    var p := s[..|s| - 1];
    assert s[|s| - 1] in s;
    if |s| >= 2 {
      assert p[0] == s[0] && forall x :: x in p ==> x in s;
      ParsePositive(p);
    } else {
      assert p == [] && s[0] == s[|s| - 1];
    }
  }

  /** A canonical numeral has one digit exactly when its value is below ten. */
  lemma CanonicalShort(s: string)
    requires Canonical(s)
    ensures |s| == 1 <==> ParseNat(s) < 10
  {
    var p := s[..|s| - 1];
    assert s[|s| - 1] in s;
    if |s| >= 2 {
      assert p[0] == s[0] && forall x :: x in p ==> x in s;
      ParsePositive(p);
    } else {
      assert p == [];
    }
  }

  /** Two canonical numerals with the same value are the same text. */
  lemma {:induction false} CanonicalUnique(a: string, b: string)
    requires Canonical(a) && Canonical(b) && ParseNat(a) == ParseNat(b)
    ensures a == b
    decreases |a|
  {
    CanonicalShort(a);
    CanonicalShort(b);
    var pa, pb := a[..|a| - 1], b[..|b| - 1];
    assert a[|a| - 1] in a && b[|b| - 1] in b;
    assert ParseNat(pa) == ParseNat(pb) && a[|a| - 1] == b[|b| - 1];
    if |a| >= 2 {
      assert pa[0] == a[0] && forall x :: x in pa ==> x in a;
      assert pb[0] == b[0] && forall x :: x in pb ==> x in b;
      CanonicalUnique(pa, pb);
    }
    assert a == pa + [a[|a| - 1]] && b == pb + [b[|b| - 1]];
  }

  /** A numeral as `str` writes it: no leading zero unless it is `0` itself. */
  predicate Canonical(s: string)
  {
    IsNumeral(s) && (|s| == 1 || s[0] != '0')
  }

  /** `str(n)`: the canonical numeral that reads back as `n`. */
  function NatToString(n: nat): (r: string)
    ensures Canonical(r) && ParseNat(r) == n
    ensures n > 0 ==> r[0] != '0'
  {
    var d := [('0' as int + n % 10) as char];
    if n < 10 then
      assert d[..0] == [];
      d
    else
      var high := NatToString(n / 10);
      assert (high + d)[..|high|] == high;
      high + d
  }
}
