/**
 * The string operations of the Kotlin standard library that the labelling
 * code relies on: `compareTo` (the natural order `sorted()` uses),
 * `joinToString`, `contains`, `startsWith`, `take`, `trim`, `split` and
 * `lines`.
 */
module Strings {
  import Sorting

  /**
   * `a.compareTo(b) <= 0`: characters are compared from the left, and a
   * string that is a prefix of the other comes first.
   */
  predicate Le(a: string, b: string)
  {
    if a == [] then true
    else if b == [] then false
    else if a[0] != b[0] then a[0] < b[0]
    else Le(a[1..], b[1..])
  }

  lemma {:induction false} LeTotal(a: string, b: string)
    ensures Le(a, b) || Le(b, a)
  {
    if a != [] && b != [] && a[0] == b[0] {
      LeTotal(a[1..], b[1..]);
    }
  }

  lemma {:induction false} LeTransitive(a: string, b: string, c: string)
    requires Le(a, b) && Le(b, c)
    ensures Le(a, c)
  {
    if a != [] && b != [] && c != [] && a[0] == b[0] && b[0] == c[0] {
      LeTransitive(a[1..], b[1..], c[1..]);
    }
  }

  lemma {:induction false} LeAntisymmetric(a: string, b: string)
    requires Le(a, b) && Le(b, a)
    ensures a == b
  {
    if a != [] && b != [] {
      LeAntisymmetric(a[1..], b[1..]);
      assert a == [a[0]] + a[1..] && b == [b[0]] + b[1..];
    }
  }

  /** The natural order of strings is a total order. */
  lemma {:induction false} LeIsTotalOrder()
    ensures Sorting.TotalPreorder(Le) && Sorting.Antisymmetric(Le)
  {
    forall a, b ensures Le(a, b) || Le(b, a) {
      LeTotal(a, b);
    }
    forall a, b, c | Le(a, b) && Le(b, c) ensures Le(a, c) {
      LeTransitive(a, b, c);
    }
    forall a, b | Le(a, b) && Le(b, a) ensures a == b {
      LeAntisymmetric(a, b);
    }
  }

  /** `parts.joinToString(sep)`. */
  function Join(parts: seq<string>, sep: string): (r: string)
    ensures |parts| == 1 ==> r == parts[0]
  {
    if parts == [] then ""
    else if |parts| == 1 then parts[0]
    else parts[0] + sep + Join(parts[1..], sep)
  }

  /** `s.contains(t)`: `t` occurs in `s` at some position (the empty string occurs everywhere). */
  predicate Contains(s: string, t: string)
  {
    exists i | 0 <= i <= |s| - |t| :: OccursAt(s, t, i)
  }

  predicate OccursAt(s: string, t: string, i: int)
  {
    0 <= i && i + |t| <= |s| && s[i..i + |t|] == t
  }

  /** `s.startsWith(p)`. */
  predicate StartsWith(s: string, p: string)
  {
    |p| <= |s| && s[..|p|] == p
  }

  /** `s.take(n)`: the first `n` characters, or all of a shorter string. */
  function Take(s: string, n: nat): (r: string)
    ensures |r| == if |s| < n then |s| else n
    ensures StartsWith(s, r)
  {
    if |s| < n then s else s[..n]
  }

  /**
   * The white space of `\s` in a `java.util.regex` pattern: space, tab, line
   * feed, vertical tab, form feed and carriage return. `trim()` strips the
   * same characters here.
   */
  predicate IsSpace(c: char)
  {
    c == ' ' || c == '\t' || c == '\n' || c == '\U{B}' || c == '\U{C}' || c == '\r'
  }

  predicate NoneSatisfy(s: string, p: char -> bool)
  {
    forall i | 0 <= i < |s| :: !p(s[i])
  }

  predicate AllSpace(s: string)
  {
    forall i | 0 <= i < |s| :: IsSpace(s[i])
  }

  /** Neither end of `s` is white space. */
  predicate Trimmed(s: string)
  {
    s == [] || (!IsSpace(s[0]) && !IsSpace(s[|s| - 1]))
  }

  /** `trimStart()`: the white space at the front is removed, and only that. */
  function TrimStart(s: string): (r: string)
    ensures |r| <= |s|
    ensures r == [] || !IsSpace(r[0])
  {
    if s != [] && IsSpace(s[0]) then TrimStart(s[1..]) else s
  }

  /** What `TrimStart` keeps is a suffix, and what it drops is white space. */
  lemma {:induction false} TrimStartSlice(s: string)
    ensures var r := TrimStart(s);
      r == s[|s| - |r|..] && AllSpace(s[..|s| - |r|])
  {
    if s != [] && IsSpace(s[0]) {
      TrimStartSlice(s[1..]);
      var r := TrimStart(s);
      assert s[1..][|s| - 1 - |r|..] == s[|s| - |r|..];
      forall i | 0 <= i < |s| - |r| ensures IsSpace(s[i]) {
        if i > 0 {
          assert s[i] == s[1..][..|s| - 1 - |r|][i - 1];
        }
      }
    }
  }

  /** `trimEnd()`: the white space at the back is removed, and only that. */
  function TrimEnd(s: string): (r: string)
    ensures |r| <= |s|
    ensures r == [] || !IsSpace(r[|r| - 1])
  {
    if s != [] && IsSpace(s[|s| - 1]) then TrimEnd(s[..|s| - 1]) else s
  }

  /** What `TrimEnd` keeps is a prefix, and what it drops is white space. */
  lemma {:induction false} TrimEndSlice(s: string)
    ensures var r := TrimEnd(s);
      r == s[..|r|] && AllSpace(s[|r|..])
  {
    if s != [] && IsSpace(s[|s| - 1]) {
      var init := s[..|s| - 1];
      TrimEndSlice(init);
      var r := TrimEnd(s);
      assert init[..|r|] == s[..|r|];
      forall i | |r| <= i < |s| ensures IsSpace(s[i]) {
        if i < |s| - 1 {
          assert s[i] == init[|r|..][i - |r|];
        }
      }
    }
  }

  /** `trim()`: `s` without the white space at either end. */
  function Trim(s: string): (r: string)
    ensures Trimmed(r) && |r| <= |s|
  {
    TrimEndSlice(TrimStart(s));
    TrimEnd(TrimStart(s))
  }

  /** What `Trim` removes is white space, from the two ends only. */
  lemma {:induction false} TrimSlice(s: string)
    ensures var lo, r := |s| - |TrimStart(s)|, Trim(s);
      lo + |r| <= |s| && r == s[lo..lo + |r|] && AllSpace(s[..lo]) && AllSpace(s[lo + |r|..])
  {
    var t := TrimStart(s);
    var r := TrimEnd(t);
    var lo := |s| - |t|;
    TrimStartSlice(s);
    TrimEndSlice(t);
    SliceOfSuffix(s, lo, t, |r|);
  }

  lemma {:induction false} SliceOfSuffix<T>(s: seq<T>, lo: nat, t: seq<T>, n: nat)
    requires lo <= |s| && t == s[lo..] && n <= |t|
    ensures t[..n] == s[lo..lo + n] && t[n..] == s[lo + n..]
  {
  }

  /** Trimming a string with no white space at its ends leaves it as it is. */
  lemma {:induction false} TrimTrimmed(s: string)
    requires Trimmed(s)
    ensures Trim(s) == s
  {
  }

  /**
   * `split` at every character satisfying `p`: the pieces between separators,
   * empty pieces included (there is always at least one).
   */
  function SplitWhere(s: string, p: char -> bool): (r: seq<string>)
    ensures |r| >= 1
    ensures forall k | 0 <= k < |r| :: NoneSatisfy(r[k], p)
  {
    if s == [] then [""]
    else
      var rest := SplitWhere(s[1..], p);
      if p(s[0]) then [""] + rest else [[s[0]] + rest[0]] + rest[1..]
  }

  /** The non-empty pieces of a split. */
  function NonEmpty(pieces: seq<string>): (r: seq<string>)
    ensures forall k | 0 <= k < |r| :: r[k] != []
  {
    if pieces == [] then []
    else (if pieces[0] == [] then [] else [pieces[0]]) + NonEmpty(pieces[1..])
  }

  lemma {:induction false} NonEmptyOfNonEmpty(pieces: seq<string>)
    requires forall k | 0 <= k < |pieces| :: pieces[k] != []
    ensures NonEmpty(pieces) == pieces
  {
    if pieces != [] {
      NonEmptyOfNonEmpty(pieces[1..]);
      assert pieces == [pieces[0]] + pieces[1..];
    }
  }

  /** The non-empty pieces of two runs of pieces are those of each, in order. */
  lemma {:induction false} NonEmptyAppend(a: seq<string>, b: seq<string>)
    ensures NonEmpty(a + b) == NonEmpty(a) + NonEmpty(b)
  {
    if a == [] {
      assert a + b == b;
    } else {
      var h, t := a[0], a[1..];
      var head := if h == [] then [] else [h];
      calc {
        NonEmpty(a + b);
        { assert a + b == [h] + (t + b); }
        NonEmpty([h] + (t + b));
        { NonEmptyCons(h, t + b); }
        head + NonEmpty(t + b);
        { NonEmptyAppend(t, b); }
        head + (NonEmpty(t) + NonEmpty(b));
        (head + NonEmpty(t)) + NonEmpty(b);
        { NonEmptyCons(h, t); assert a == [h] + t; }
        NonEmpty(a) + NonEmpty(b);
      }
    }
  }

  /** Every non-empty piece is one of the pieces. */
  lemma {:induction false} NonEmptyFrom(pieces: seq<string>)
    ensures forall k | 0 <= k < |NonEmpty(pieces)| :: NonEmpty(pieces)[k] in pieces
  {
    if pieces != [] {
      NonEmptyFrom(pieces[1..]);
      assert pieces == [pieces[0]] + pieces[1..];
      NonEmptyCons(pieces[0], pieces[1..]);
    }
  }

  lemma {:induction false} NonEmptyCons(h: string, t: seq<string>)
    ensures NonEmpty([h] + t) == (if h == [] then [] else [h]) + NonEmpty(t)
  {
    assert ([h] + t)[1..] == t;
  }

  /** A string with no separator is one piece. */
  lemma {:induction false} SplitNoSeparator(s: string, p: char -> bool)
    requires NoneSatisfy(s, p)
    ensures SplitWhere(s, p) == [s]
  {
    if s != [] {
      SplitNoSeparator(s[1..], p);
      assert [s[0]] + s[1..] == s;
    }
  }

  /** A separator splits the pieces on its left from those on its right. */
  lemma {:induction false} SplitConcat(a: string, d: char, b: string, p: char -> bool)
    requires p(d)
    ensures SplitWhere(a + [d] + b, p) == SplitWhere(a, p) + SplitWhere(b, p)
  {
    if a == [] {
      assert a + [d] + b == [d] + b;
      assert ([d] + b)[1..] == b;
    } else {
      var s := a + [d] + b;
      assert s[0] == a[0] && s[1..] == a[1..] + [d] + b;
      SplitConcat(a[1..], d, b, p);
      var left := SplitWhere(a[1..], p);
      var rest := SplitWhere(s[1..], p);
      assert rest == left + SplitWhere(b, p);
      if !p(a[0]) {
        assert rest[0] == left[0] && rest[1..] == left[1..] + SplitWhere(b, p);
      }
    }
  }

  /** The pieces of `sx` and `sy` with the last of `sx` glued to the first of `sy`. */
  function Glue(sx: seq<string>, sy: seq<string>): seq<string>
    requires |sx| >= 1 && |sy| >= 1
  {
    sx[..|sx| - 1] + [sx[|sx| - 1] + sy[0]] + sy[1..]
  }

  /** `c` prepended to the first piece. */
  function Push(c: char, r: seq<string>): seq<string>
    requires |r| >= 1
  {
    [[c] + r[0]] + r[1..]
  }

  lemma {:induction false} SplitCons(c: char, s: string, p: char -> bool)
    ensures SplitWhere([c] + s, p) == if p(c) then [""] + SplitWhere(s, p) else Push(c, SplitWhere(s, p))
  {
    assert ([c] + s)[1..] == s;
  }

  lemma {:induction false} GlueEmptyFirst(sx: seq<string>, sy: seq<string>)
    requires |sx| >= 1 && |sy| >= 1
    ensures Glue([""] + sx, sy) == [""] + Glue(sx, sy)
  {
    var s := [""] + sx;
    assert s[..|s| - 1] == [""] + sx[..|sx| - 1];
  }

  lemma {:induction false} GluePush(c: char, sx: seq<string>, sy: seq<string>)
    requires |sx| >= 1 && |sy| >= 1
    ensures Glue(Push(c, sx), sy) == Push(c, Glue(sx, sy))
  {
    var s := Push(c, sx);
    if |sx| == 1 {
      assert s == [[c] + sx[0]];
      assert [c] + sx[0] + sy[0] == [c] + (sx[0] + sy[0]);
    } else {
      assert s[..|s| - 1] == [[c] + sx[0]] + sx[1..|sx| - 1];
      assert Glue(sx, sy)[0] == sx[0];
      assert Glue(sx, sy)[1..] == sx[1..|sx| - 1] + [sx[|sx| - 1] + sy[0]] + sy[1..];
    }
  }

  /**
   * Splitting a concatenation: the last piece of the left part and the
   * first of the right part are glued into one.
   */
  lemma {:induction false} SplitAppend(x: string, y: string, p: char -> bool)
    ensures SplitWhere(x + y, p) == Glue(SplitWhere(x, p), SplitWhere(y, p))
  {
    var sy := SplitWhere(y, p);
    if x == [] {
      assert x + y == y;
      assert SplitWhere(x, p) == [""];
      assert [""][..0] == [] && "" + sy[0] == sy[0];
      assert Glue([""], sy) == [sy[0]] + sy[1..] == sy;
    } else {
      var c, x' := x[0], x[1..];
      SplitAppend(x', y, p);
      assert x == [c] + x' && x + y == [c] + (x' + y);
      SplitCons(c, x', p);
      SplitCons(c, x' + y, p);
      if p(c) {
        GlueEmptyFirst(SplitWhere(x', p), sy);
      } else {
        GluePush(c, SplitWhere(x', p), sy);
      }
    }
  }

  /** Joining pieces free of a separator with it, then splitting, gives the pieces back. */
  lemma {:induction false} SplitJoinInverse(parts: seq<string>, d: char, p: char -> bool)
    requires p(d) && parts != []
    requires forall k | 0 <= k < |parts| :: NoneSatisfy(parts[k], p)
    ensures SplitWhere(Join(parts, [d]), p) == parts
  {
    if |parts| == 1 {
      SplitNoSeparator(parts[0], p);
    } else {
      SplitJoinInverse(parts[1..], d, p);
      SplitNoSeparator(parts[0], p);
      SplitConcat(parts[0], d, Join(parts[1..], [d]), p);
      assert parts == [parts[0]] + parts[1..];
    }
  }

  /** A joined text starts with the first part and ends with the last. */
  lemma {:induction false} JoinEnds(parts: seq<string>, sep: string)
    requires parts != []
    ensures StartsWith(Join(parts, sep), parts[0])
    ensures var j := Join(parts, sep); var l := parts[|parts| - 1];
      |l| <= |j| && j[|j| - |l|..] == l
  {
    if |parts| > 1 {
      JoinEnds(parts[1..], sep);
      var j := Join(parts, sep);
      assert j == parts[0] + (sep + Join(parts[1..], sep));
    }
  }
}
