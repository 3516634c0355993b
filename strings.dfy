/**
 * Substring search as the codec uses it (Go's `strings.Index` and
 * `strings.Contains`): a ghost specification of "occurs at", "contains" and
 * "first occurrence", an executable `IndexOf` proved against it, and lemmas
 * that locate the first occurrence in a concatenation one piece at a time.
 */
module Strings {
  import opened Wrappers

  /** `p` occurs in `t` starting at index `i`. */
  ghost predicate Occurs(t: string, p: string, i: int) {
    0 <= i && i + |p| <= |t| && t[i..i + |p|] == p
  }

  /** `p` occurs somewhere in `t`. */
  ghost predicate Contains(t: string, p: string) {
    exists i :: Occurs(t, p, i)
  }

  /** `i` is the first index at which `p` occurs in `t`. */
  ghost predicate IsFirstOccurrence(t: string, p: string, i: int) {
    Occurs(t, p, i) && forall j :: 0 <= j < i ==> !Occurs(t, p, j)
  }

  lemma OccursInTail(t: string, p: string, i: int)
    requires |t| > 0 && 0 <= i
    ensures Occurs(t[1..], p, i) <==> Occurs(t, p, i + 1)
  {
    if i + 1 + |p| <= |t| {
      assert t[1..][i..i + |p|] == t[i + 1..i + 1 + |p|];
    }
  }

  /** Moves an optional index `k` places to the right. */
  function Shift(o: Option<nat>, k: nat): Option<nat> {
    match o
    case None => None
    case Some(i) => Some(i + k)
  }

  /**
   * The index of the first occurrence of `p` in `t`, or None when there is
   * none (Go's `strings.Index`, with -1 as None).
   */
  function IndexOf(t: string, p: string): Option<nat>
    decreases |t|
  {
    if |t| < |p| then None
    else if t[..|p|] == p then Some(0)
    else Shift(IndexOf(t[1..], p), 1)
  }

  /** IndexOf finds the first occurrence, and finds none exactly when there is none. */
  lemma {:induction false} IndexOfIsFirstOccurrence(t: string, p: string)
    ensures IndexOf(t, p).Some? ==> IsFirstOccurrence(t, p, IndexOf(t, p).value)
    ensures IndexOf(t, p).None? <==> !Contains(t, p)
    decreases |t|
  {
    if |t| < |p| {
    } else if t[..|p|] == p {
      assert Occurs(t, p, 0);
    } else {
      assert !Occurs(t, p, 0);
      IndexOfIsFirstOccurrence(t[1..], p);
      match IndexOf(t[1..], p)
      case None =>
        forall i | 0 < i ensures !Occurs(t, p, i) {
          OccursInTail(t, p, i - 1);
        }
      case Some(k) =>
        OccursInTail(t, p, k);
        forall j | 0 < j < k + 1 ensures !Occurs(t, p, j) {
          OccursInTail(t, p, j - 1);
        }
    }
  }

  /** Go's `strings.Contains`. */
  function ContainsText(t: string, p: string): (b: bool)
    ensures b <==> Contains(t, p)
  {
    IndexOfIsFirstOccurrence(t, p);
    IndexOf(t, p).Some?
  }

  /** `IndexOf` returns every first occurrence. */
  lemma IndexOfFinds(t: string, p: string, i: int)
    requires IsFirstOccurrence(t, p, i)
    ensures IndexOf(t, p) == Some(i)
  {
    IndexOfIsFirstOccurrence(t, p);
    assert Occurs(t, p, i);
    FirstOccurrenceUnique(t, p, IndexOf(t, p).value, i);
  }

  lemma FirstOccurrenceUnique(t: string, p: string, i: int, j: int)
    requires IsFirstOccurrence(t, p, i) && IsFirstOccurrence(t, p, j)
    ensures i == j
  {
  }

  /** `p` occurs first at the very start of `p + b`. */
  lemma FirstAtStart(p: string, b: string)
    ensures IsFirstOccurrence(p + b, p, 0)
  {
    assert (p + b)[0..|p|] == p;
  }

  lemma Assoc(a: string, b: string, c: string)
    ensures (a + b) + c == a + (b + c)
  {
  }

  /** An occurrence in the part after `a` is an occurrence in `a + x`, shifted by `|a|`. */
  lemma OccursAfter(a: string, x: string, p: string, j: int)
    requires 0 <= j
    ensures Occurs(a + x, p, |a| + j) <==> Occurs(x, p, j)
  {
    if j + |p| <= |x| {
      assert (a + x)[|a| + j..|a| + j + |p|] == x[j..j + |p|];
    }
  }

  /** An occurrence inside `a` is an occurrence in `a + x`. */
  lemma OccursBefore(a: string, x: string, p: string, j: int)
    requires Occurs(a, p, j)
    ensures Occurs(a + x, p, j)
  {
    assert (a + x)[j..j + |p|] == a[j..j + |p|];
  }

  /** Whatever follows `a`, no occurrence of `p` starts inside `a`. */
  ghost predicate Skips(a: string, p: string) {
    forall x, j {:trigger Occurs(a + x, p, j)} :: 0 <= j < |a| ==> !Occurs(a + x, p, j)
  }

  /** `a` holds no character equal to the first one of `p`. */
  ghost predicate Plain(a: string, p: string) {
    |p| > 0 && p[0] !in a
  }

  /**
   * `c` starts like a tag other than `p` (its second character differs from
   * that of `p`) and holds no other character equal to the first one of `p`.
   */
  ghost predicate OtherTag(c: string, p: string) {
    2 <= |c| && 2 <= |p| && c[1] != p[1] && forall i :: 1 <= i < |c| ==> c[i] != p[0]
  }

  /** A piece holding no character equal to the first one of `p` is skipped. */
  lemma SkipsPlain(a: string, p: string)
    requires Plain(a, p)
    ensures Skips(a, p)
  {
    forall x, j | 0 <= j < |a| ensures !Occurs(a + x, p, j) {
      if j + |p| <= |a + x| {
        assert (a + x)[j..j + |p|][0] == a[j];
      }
    }
  }

  /** A piece that starts like a tag other than `p` is skipped. */
  lemma SkipsTag(c: string, p: string)
    requires OtherTag(c, p)
    ensures Skips(c, p)
  {
    forall x, j | 0 <= j < |c| ensures !Occurs(c + x, p, j) {
      if j + |p| <= |c + x| {
        var w := (c + x)[j..j + |p|];
        if j == 0 {
          assert w[1] == c[1];
        } else {
          assert w[0] == c[j];
        }
      }
    }
  }

  /** Two pieces a search skips are skipped together. */
  lemma SkipsConcat(a: string, b: string, p: string)
    requires Skips(a, p) && Skips(b, p)
    ensures Skips(a + b, p)
  {
    forall x, j | 0 <= j < |a + b| ensures !Occurs((a + b) + x, p, j) {
      Assoc(a, b, x);
      if j < |a| {
        assert !Occurs(a + (b + x), p, j);
      } else {
        OccursAfter(a, b + x, p, j - |a|);
        assert !Occurs(b + x, p, j - |a|);
      }
    }
  }

  /** After a skipped piece, the first occurrence is the first one of what follows, shifted. */
  lemma FirstAfterSkipped(a: string, x: string, p: string, k: int)
    requires Skips(a, p) && IsFirstOccurrence(x, p, k)
    ensures IsFirstOccurrence(a + x, p, |a| + k)
  {
    OccursAfter(a, x, p, k);
    forall j | 0 <= j < |a| + k ensures !Occurs(a + x, p, j) {
      if |a| <= j {
        OccursAfter(a, x, p, j - |a|);
      }
    }
  }

  /** `b` starts with `q`. */
  ghost predicate StartsWith(b: string, q: string) {
    |q| <= |b| && b[..|q|] == q
  }

  /** No proper suffix of `p` is a prefix of `b`: an occurrence of `p` cannot end inside `b`'s head. */
  ghost predicate NoOverlapInto(p: string, b: string) {
    forall m {:trigger StartsWith(b, p[m..])} :: 0 < m < |p| ==> !StartsWith(b, p[m..])
  }

  /**
   * In text that does not contain `p` followed by `b` that no occurrence of
   * `p` can overlap into, no occurrence of `p` starts inside the text.
   */
  lemma TextSkipped(d: string, b: string, p: string, j: int)
    requires !Contains(d, p) && NoOverlapInto(p, b) && 0 <= j < |d|
    ensures !Occurs(d + b, p, j)
  {
    var t := d + b;
    if j + |p| <= |d| {
      assert t[j..j + |p|] == d[j..j + |p|];
      assert !Occurs(d, p, j);
    } else if j + |p| <= |t| {
      var m := |d| - j;
      assert t[j..j + |p|][m..] == b[..|p| - m];
      assert !StartsWith(b, p[m..]);
    }
  }

  /** After text free of `p` that nothing overlaps from, the first occurrence is the first one of what follows. */
  lemma FirstAfterText(d: string, b: string, p: string, k: int)
    requires !Contains(d, p) && NoOverlapInto(p, b) && IsFirstOccurrence(b, p, k)
    ensures IsFirstOccurrence(d + b, p, |d| + k)
  {
    OccursAfter(d, b, p, k);
    forall j | 0 <= j < |d| + k ensures !Occurs(d + b, p, j) {
      if j < |d| {
        TextSkipped(d, b, p, j);
      } else {
        OccursAfter(d, b, p, j - |d|);
      }
    }
  }
}
