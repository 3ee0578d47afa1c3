/**
 * The history ring end to end. The device keeps HISTORY_COUNT samples in a
 * ring, writes each new sample at `index` and advances `index` modulo the
 * ring size; the console rotates the ring to start at `index` and drops the
 * samples it cannot plot. This module states both halves as functions on
 * sequences and proves what the console shows after any run of writes.
 */
module History {
  const HistoryCount: nat := 128

  /** The ring read starting at `index`: entry i is entries[(index + i) % count]. */
  function Rotation<T>(entries: seq<T>, index: nat): (r: seq<T>)
    ensures |r| == |entries|
    ensures forall i :: 0 <= i < |r| ==> r[i] == entries[(index + i) % |entries|]
  {
    seq(|entries|, i requires 0 <= i < |entries| => entries[(index + i) % |entries|])
  }

  /** The elements that `keep` accepts, in their order. */
  function Filter<T>(s: seq<T>, keep: T -> bool): (r: seq<T>)
    ensures |r| <= |s|
    ensures forall x :: x in r ==> x in s && keep(x)
  {
    if |s| == 0 then [] else (if keep(s[0]) then [s[0]] else []) + Filter(s[1..], keep)
  }

  /** What the console shows for a ring: the rotation from `index`, filtered. */
  function Ordered<T>(entries: seq<T>, index: nat, keep: T -> bool): seq<T> {
    Filter(Rotation(entries, index), keep)
  }

  lemma {:induction false} FilterConcat<T>(a: seq<T>, b: seq<T>, keep: T -> bool)
    ensures Filter(a + b, keep) == Filter(a, keep) + Filter(b, keep)
  {
    if |a| == 0 {
      assert a + b == b;
    } else {
      assert (a + b)[1..] == a[1..] + b;
      FilterConcat(a[1..], b, keep);
    }
  }

  lemma {:induction false} FilterKeepsAll<T>(s: seq<T>, keep: T -> bool)
    requires forall k :: 0 <= k < |s| ==> keep(s[k])
    ensures Filter(s, keep) == s
  {
    if |s| > 0 {
      assert forall k :: 0 <= k < |s[1..]| ==> keep(s[1..][k]) by {
        forall k | 0 <= k < |s[1..]| ensures keep(s[1..][k]) {
          assert s[1..][k] == s[k + 1];
        }
      }
      FilterKeepsAll(s[1..], keep);
    }
  }

  lemma {:induction false} FilterDrops<T>(s: seq<T>, keep: T -> bool, k: nat)
    requires k < |s| && !keep(s[k])
    ensures |Filter(s, keep)| < |s|
  {
    if k > 0 {
      assert s[1..][k - 1] == s[k];
      FilterDrops(s[1..], keep, k - 1);
    }
  }

  /** Filtering keeps everything exactly when every element is accepted. */
  lemma FilterAll<T>(s: seq<T>, keep: T -> bool)
    ensures (forall k :: 0 <= k < |s| ==> keep(s[k])) <==> Filter(s, keep) == s
  {
    if forall k :: 0 <= k < |s| ==> keep(s[k]) {
      FilterKeepsAll(s, keep);
    } else {
      var k :| 0 <= k < |s| && !keep(s[k]);
      FilterDrops(s, keep, k);
    }
  }

  lemma {:induction false} FilterNone<T>(s: seq<T>, keep: T -> bool)
    requires forall k :: 0 <= k < |s| ==> !keep(s[k])
    ensures Filter(s, keep) == []
  {
    if |s| > 0 {
      assert forall k :: 0 <= k < |s[1..]| ==> !keep(s[1..][k]) by {
        forall k | 0 <= k < |s[1..]| ensures !keep(s[1..][k]) {
          assert s[1..][k] == s[k + 1];
        }
      }
      FilterNone(s[1..], keep);
    }
  }

  /** At most count entries are shown, and every shown entry is accepted. */
  lemma OrderedBounds<T>(entries: seq<T>, index: nat, keep: T -> bool)
    ensures |Ordered(entries, index, keep)| <= |entries|
    ensures forall x :: x in Ordered(entries, index, keep) ==> x in entries && keep(x)
  {
    var r := Rotation(entries, index);
    forall x | x in r ensures x in entries {
      var i :| 0 <= i < |r| && r[i] == x;
      assert entries[(index + i) % |entries|] == x;
    }
  }

  /** With nothing to drop, the console shows exactly the rotation. */
  lemma OrderedIsRotation<T>(entries: seq<T>, index: nat, keep: T -> bool)
    requires forall k :: 0 <= k < |entries| ==> keep(entries[k])
    ensures Ordered(entries, index, keep) == Rotation(entries, index)
  {
    var r := Rotation(entries, index);
    forall k | 0 <= k < |r| ensures keep(r[k]) {
      assert r[k] == entries[(index + k) % |entries|];
    }
    FilterAll(r, keep);
  }

  /** The worked example: four entries read from index 2 come out as C, D, A, B. */
  lemma RotationExample<T>(a: T, b: T, c: T, d: T)
    ensures Rotation([a, b, c, d], 2) == [c, d, a, b]
  {
    var r := Rotation([a, b, c, d], 2);
    assert r[0] == c && r[1] == d && r[2] == a && r[3] == b;
  }

  // ---------------------------------------------------------------------
  // The writer.

  datatype Ring<T> = Ring(entries: seq<T>, index: nat)

  ghost predicate ValidRing<T>(r: Ring<T>) {
    |r.entries| > 0 && r.index < |r.entries|
  }

  /** One write: the sample goes to slot `index`, which then advances modulo the ring size. */
  function Write<T>(r: Ring<T>, x: T): (w: Ring<T>)
    requires ValidRing(r)
    ensures ValidRing(w) && |w.entries| == |r.entries|
    ensures w.entries[r.index] == x
    ensures forall k :: 0 <= k < |r.entries| && k != r.index ==> w.entries[k] == r.entries[k]
    ensures w.index == (r.index + 1) % |r.entries|
  {
    Ring(r.entries[r.index := x], (r.index + 1) % |r.entries|)
  }

  function WriteAll<T>(r: Ring<T>, xs: seq<T>): (w: Ring<T>)
    requires ValidRing(r)
    ensures ValidRing(w) && |w.entries| == |r.entries|
    decreases |xs|
  {
    if |xs| == 0 then r else WriteAll(Write(r, xs[0]), xs[1..])
  }

  /** A position past the end of a ring wraps around once. */
  lemma ModWrap(x: int, n: int)
    requires 0 < n && 0 <= x < 2 * n
    ensures x % n == if x < n then x else x - n
  {
  }

  /** Reading the ring after a write: the oldest sample has gone, and the new one is last. */
  lemma RotationAfterWrite<T>(r: Ring<T>, x: T)
    requires ValidRing(r)
    ensures Rotation(Write(r, x).entries, Write(r, x).index) == Rotation(r.entries, r.index)[1..] + [x]
  {
    var n := |r.entries|;
    var i := r.index;
    var w := Write(r, x);
    var before := Rotation(r.entries, i);
    var after := Rotation(w.entries, w.index);
    var want := before[1..] + [x];
    ModWrap(i + 1, n);
    forall k | 0 <= k < n ensures after[k] == want[k] {
      ModWrap(w.index + k, n);
      ModWrap(i + k + 1, n);
      var p := (w.index + k) % n;
      assert p == (i + k + 1) % n;
      assert after[k] == w.entries[p];
      if k + 1 < n {
        assert p != i;
        assert want[k] == before[k + 1] == r.entries[p];
      } else {
        assert p == i;
      }
    }
  }

  /** After any run of writes, reading the ring gives the last |entries| elements of the old
      reading followed by the samples written: a sliding window, oldest first. */
  lemma {:induction false} RotationAfterWrites<T>(r: Ring<T>, xs: seq<T>)
    requires ValidRing(r)
    ensures var w := WriteAll(r, xs);
      Rotation(w.entries, w.index) == (Rotation(r.entries, r.index) + xs)[|xs|..]
    decreases |xs|
  {
    if |xs| > 0 {
      var r1 := Write(r, xs[0]);
      RotationAfterWrite(r, xs[0]);
      RotationAfterWrites(r1, xs[1..]);
      var a := Rotation(r.entries, r.index);
      assert (a[1..] + [xs[0]] + xs[1..])[|xs| - 1..] == (a + xs)[|xs|..] by {
        assert a[1..] + [xs[0]] + xs[1..] == (a + xs)[1..];
      }
    }
  }

  /** The end-to-end property: once at least a ring's worth of samples has been written, the
      console shows exactly the plottable ones among the last HistoryCount written, oldest first
      and newest last. */
  lemma ShownAfterFullRing<T>(r: Ring<T>, xs: seq<T>, keep: T -> bool)
    requires ValidRing(r) && |xs| >= |r.entries|
    ensures var w := WriteAll(r, xs);
      Ordered(w.entries, w.index, keep) == Filter(xs[|xs| - |r.entries|..], keep)
  {
    RotationAfterWrites(r, xs);
    var a := Rotation(r.entries, r.index);
    assert (a + xs)[|xs|..] == xs[|xs| - |r.entries|..];
  }

  lemma RotationNoneKept<T>(entries: seq<T>, index: nat, keep: T -> bool)
    requires forall k :: 0 <= k < |entries| ==> !keep(entries[k])
    ensures forall k :: 0 <= k < |entries| ==> !keep(Rotation(entries, index)[k])
  {
  }

  lemma SuffixNoneKept<T>(a: seq<T>, m: nat, keep: T -> bool)
    requires m <= |a|
    requires forall k :: 0 <= k < |a| ==> !keep(a[k])
    ensures Filter(a[m..], keep) == []
  {
    assert forall k :: 0 <= k < |a[m..]| ==> !keep(a[m..][k]) by {
      forall k | 0 <= k < |a[m..]| ensures !keep(a[m..][k]) {
        assert a[m..][k] == a[k + m];
      }
    }
    FilterNone(a[m..], keep);
  }

  /** For a ring whose initial slots are all unplottable, such as the console's view of a ring
      still holding only NaN samples, the console shows the plottable samples among the last
      min(N, HistoryCount) written, whatever N is. */
  lemma ShownFromEmptyRing<T>(r: Ring<T>, xs: seq<T>, keep: T -> bool)
    requires ValidRing(r) && |xs| < |r.entries|
    requires forall k :: 0 <= k < |r.entries| ==> !keep(r.entries[k])
    ensures var w := WriteAll(r, xs);
      Ordered(w.entries, w.index, keep) == Filter(xs, keep)
  {
    RotationAfterWrites(r, xs);
    var a := Rotation(r.entries, r.index);
    assert (a + xs)[|xs|..] == a[|xs|..] + xs;
    FilterConcat(a[|xs|..], xs, keep);
    RotationNoneKept(r.entries, r.index, keep);
    SuffixNoneKept(a, |xs|, keep);
  }
}
