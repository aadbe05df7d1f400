/** `Algos.get_segments`: the runs of consecutive 1s of each channel of a
    0/1 waveform matrix, with runs closer than `min_samples_to_merge`
    merged, as `(channel, start, stop)` rows.

    The module holds a reference definition (maximal runs, then a forward
    merge), the numpy computation as the source writes it (transitions of
    the sum of two shifted copies, a fake leading segment, an index-removal
    list), and the lemmas that the two agree. */
module Segments {
  import opened Wrappers
  import opened NdArray

  /** A segment `[start, stop)`: `stop` is one past its last sample. */
  datatype Seg = Seg(start: int, stop: int)

  /** One output row: channel, start, stop. */
  datatype Segment = Segment(channel: nat, start: int, stop: int)

  /** The input contract of `get_segments`: values 0 or 1 only. */
  predicate Binary(w: seq<int>)
  {
    forall i :: 0 <= i < |w| ==> w[i] == 0 || w[i] == 1
  }

  predicate Ordered(segs: seq<Seg>)
  {
    && (forall j :: 0 <= j < |segs| ==> segs[j].start < segs[j].stop)
    && (forall j :: 0 <= j < |segs| - 1 ==> segs[j].stop < segs[j + 1].start)
  }

  predicate Within(segs: seq<Seg>, lo: int, hi: int)
  {
    forall j :: 0 <= j < |segs| ==> lo <= segs[j].start && segs[j].stop <= hi
  }

  predicate Covers(segs: seq<Seg>, k: int)
  {
    exists j :: 0 <= j < |segs| && segs[j].start <= k < segs[j].stop
  }

  lemma CoversCons(s: Seg, segs: seq<Seg>, k: int)
    ensures Covers([s] + segs, k) <==> (s.start <= k < s.stop || Covers(segs, k))
  {
    assert ([s] + segs)[0] == s;
    if Covers(segs, k) {
      var j :| 0 <= j < |segs| && segs[j].start <= k < segs[j].stop;
      assert ([s] + segs)[j + 1] == segs[j];
    }
    if Covers([s] + segs, k) {
      var j :| 0 <= j < |[s] + segs| && ([s] + segs)[j].start <= k < ([s] + segs)[j].stop;
      if j > 0 {
        assert segs[j - 1] == ([s] + segs)[j];
      } else {
        assert ([s] + segs)[0] == s;
      }
    }
  }

  // ---------------------------------------------------------------------
  // Reference definition.

  /** The first index at or after `i` that does not hold a 1. */
  function RunEnd(w: seq<int>, i: nat): (e: nat)
    requires i <= |w|
    ensures i <= e <= |w| && (e == |w| || w[e] != 1)
    ensures forall k :: i <= k < e ==> w[k] == 1
    decreases |w| - i
  {
    if i < |w| && w[i] == 1 then RunEnd(w, i + 1) else i
  }

  /** The maximal runs of 1s at or after index `i`, in order. */
  function RunsFrom(w: seq<int>, i: nat): seq<Seg>
    requires i <= |w|
    decreases |w| - i
  {
    if i == |w| then []
    else if w[i] != 1 then RunsFrom(w, i + 1)
    else
      var e := RunEnd(w, i);
      [Seg(i, e)] + RunsFrom(w, e)
  }

  function Runs(w: seq<int>): seq<Seg>
  {
    RunsFrom(w, 0)
  }

  /** The runs are ordered, separated by at least one 0, and inside the
      waveform. */
  lemma {:induction false} RunsFromShape(w: seq<int>, i: nat)
    requires i <= |w|
    ensures Ordered(RunsFrom(w, i)) && Within(RunsFrom(w, i), i, |w|)
    decreases |w| - i
  {
    if i < |w| {
      if w[i] != 1 {
        RunsFromShape(w, i + 1);
        WithinWiden(RunsFrom(w, i + 1), i + 1, i, |w|);
      } else {
        var e := RunEnd(w, i);
        var rest := RunsFrom(w, e);
        if e < |w| {
          RunsFromShape(w, e + 1);
          RunsFromSkip(w, e);
          WithinWiden(rest, e + 1, e, |w|);
        } else {
          assert rest == [];
        }
        OrderedCons(Seg(i, e), rest, |w|);
      }
    }
  }

  /** The runs cover exactly the 1s: they are the maximal runs. */
  lemma {:induction false} RunsFromCovers(w: seq<int>, i: nat)
    requires Binary(w) && i <= |w|
    ensures forall k :: i <= k < |w| ==> (w[k] == 1 <==> Covers(RunsFrom(w, i), k))
    decreases |w| - i
  {
    if i < |w| {
      if w[i] != 1 {
        RunsFromCovers(w, i + 1);
        RunsFromShape(w, i + 1);
        NotCoveredBelow(RunsFrom(w, i + 1), i + 1, |w|, i);
      } else {
        var e := RunEnd(w, i);
        var rest := RunsFrom(w, e);
        if e < |w| {
          RunsFromCovers(w, e + 1);
          RunsFromShape(w, e + 1);
          RunsFromSkip(w, e);
        } else {
          assert rest == [];
        }
        forall k | i <= k < |w|
          ensures w[k] == 1 <==> Covers([Seg(i, e)] + rest, k)
        {
          CoversCons(Seg(i, e), rest, k);
          if k <= e {
            NotCoveredBelow(rest, e + 1, |w|, k);
          }
        }
      }
    }
  }

  lemma RunsFromSpec(w: seq<int>, i: nat)
    requires Binary(w) && i <= |w|
    ensures Ordered(RunsFrom(w, i)) && Within(RunsFrom(w, i), i, |w|)
    ensures forall k :: i <= k < |w| ==> (w[k] == 1 <==> Covers(RunsFrom(w, i), k))
  {
    RunsFromShape(w, i);
    RunsFromCovers(w, i);
  }

  lemma RunsFromSkip(w: seq<int>, i: nat)
    requires i < |w| && w[i] != 1
    ensures RunsFrom(w, i) == RunsFrom(w, i + 1)
  {
  }

  lemma WithinWiden(segs: seq<Seg>, lo: int, lo': int, hi: int)
    requires Within(segs, lo, hi) && lo' <= lo
    ensures Within(segs, lo', hi)
  {
  }

  lemma NotCoveredBelow(segs: seq<Seg>, lo: int, hi: int, k: int)
    requires Within(segs, lo, hi) && k < lo
    ensures !Covers(segs, k)
  {
  }

  /** Putting a segment in front of ordered segments that start after it
      (and stay below `hi`) keeps them ordered. */
  lemma OrderedCons(s: Seg, segs: seq<Seg>, hi: int)
    requires s.start < s.stop && Ordered(segs)
    requires Within(segs, s.stop + 1, hi)
    ensures Ordered([s] + segs)
    ensures s.stop <= hi ==> Within([s] + segs, s.start, hi)
  {
    var t := [s] + segs;
    forall j | 0 <= j < |t|
      ensures t[j].start < t[j].stop
    {
      if j > 0 { assert t[j] == segs[j - 1]; }
    }
    forall j | 0 <= j < |t| - 1
      ensures t[j].stop < t[j + 1].start
    {
      assert t[j + 1] == segs[j];
      if j > 0 { assert t[j] == segs[j - 1]; }
    }
    if s.stop <= hi {
      forall j | 0 <= j < |t|
        ensures s.start <= t[j].start && t[j].stop <= hi
      {
        if j > 0 { assert t[j] == segs[j - 1]; }
      }
    }
  }

  lemma RunsSpec(w: seq<int>)
    requires Binary(w)
    ensures Ordered(Runs(w)) && Within(Runs(w), 0, |w|)
    ensures forall k :: 0 <= k < |w| ==> (w[k] == 1 <==> Covers(Runs(w), k))
  {
    RunsFromSpec(w, 0);
  }

  /** Forward merge: the segment being built absorbs the next run while the
      gap to it is below `minGap`. */
  function MergeFrom(cur: Seg, rest: seq<Seg>, minGap: int): seq<Seg>
    decreases |rest|
  {
    if rest == [] then [cur]
    else if rest[0].start - cur.stop < minGap then
      MergeFrom(Seg(cur.start, rest[0].stop), rest[1..], minGap)
    else
      [cur] + MergeFrom(rest[0], rest[1..], minGap)
  }

  function Merge(segs: seq<Seg>, minGap: int): seq<Seg>
  {
    if segs == [] then [] else MergeFrom(segs[0], segs[1..], minGap)
  }

  /** The segments of one channel, by the reference definition. */
  function ChannelReference(w: seq<int>, minGap: int): seq<Seg>
  {
    Merge(Runs(w), minGap)
  }

  predicate GapsAtLeast(segs: seq<Seg>, minGap: int)
  {
    forall j :: 0 <= j < |segs| - 1 ==> segs[j + 1].start - segs[j].stop >= minGap
  }

  lemma OrderedTail(cur: Seg, rest: seq<Seg>)
    requires Ordered([cur] + rest) && rest != []
    ensures Ordered(rest) && cur.start < cur.stop < rest[0].start
  {
    var all := [cur] + rest;
    assert all[0] == cur && all[1] == rest[0];
    forall j | 0 <= j < |rest|
      ensures rest[j].start < rest[j].stop
    {
      assert rest[j] == all[j + 1];
    }
    forall j | 0 <= j < |rest| - 1
      ensures rest[j].stop < rest[j + 1].start
    {
      assert rest[j] == all[j + 1] && rest[j + 1] == all[j + 2];
    }
  }

  lemma OrderedAbsorb(cur: Seg, rest: seq<Seg>)
    requires Ordered([cur] + rest) && rest != []
    ensures Ordered([Seg(cur.start, rest[0].stop)] + rest[1..])
  {
    OrderedTail(cur, rest);
    var next := [Seg(cur.start, rest[0].stop)] + rest[1..];
    assert forall j :: 1 <= j < |next| ==> next[j] == rest[j];
  }

  /** Merging keeps the order, leaves gaps of at least `minGap` between
      consecutive segments, spans from the first start to the last stop,
      and never adds a segment. */
  lemma {:induction false} MergeFromShape(cur: Seg, rest: seq<Seg>, minGap: int)
    requires Ordered([cur] + rest)
    ensures var m := MergeFrom(cur, rest, minGap);
            && 1 <= |m| <= 1 + |rest|
            && Ordered(m) && GapsAtLeast(m, minGap)
            && m[0].start == cur.start
            && m[|m| - 1].stop == ([cur] + rest)[|rest|].stop
    decreases |rest|
  {
    if rest == [] {
      assert ([cur] + rest)[0] == cur;
    } else {
      assert ([cur] + rest)[|rest|] == rest[|rest| - 1];
      OrderedTail(cur, rest);
      if rest[0].start - cur.stop < minGap {
        var merged := Seg(cur.start, rest[0].stop);
        OrderedAbsorb(cur, rest);
        MergeFromShape(merged, rest[1..], minGap);
        assert ([merged] + rest[1..])[|rest[1..]|].stop == rest[|rest| - 1].stop;
      } else {
        assert [rest[0]] + rest[1..] == rest;
        MergeFromShape(rest[0], rest[1..], minGap);
        assert rest[|rest| - 1] == ([rest[0]] + rest[1..])[|rest[1..]|];
        ShapeCons(cur, MergeFrom(rest[0], rest[1..], minGap), minGap);
      }
    }
  }

  /** A segment put in front of ordered segments, with a gap of at least
      `minGap` before the first of them. */
  lemma ShapeCons(cur: Seg, m': seq<Seg>, minGap: int)
    requires m' != [] && Ordered(m') && GapsAtLeast(m', minGap)
    requires cur.start < cur.stop < m'[0].start && m'[0].start - cur.stop >= minGap
    ensures var m := [cur] + m';
            && Ordered(m) && GapsAtLeast(m, minGap) && m[0] == cur && m[|m| - 1] == m'[|m'| - 1]
  {
    var m := [cur] + m';
    assert m[0] == cur && m[1] == m'[0];
    forall j | 0 <= j < |m|
      ensures m[j].start < m[j].stop
    {
      if j > 0 {
        assert m[j] == m'[j - 1];
      }
    }
    forall j | 0 <= j < |m| - 1
      ensures m[j].stop < m[j + 1].start && m[j + 1].start - m[j].stop >= minGap
    {
      if j > 0 {
        assert m[j] == m'[j - 1] && m[j + 1] == m'[j];
      }
    }
    assert m[|m| - 1] == m'[|m'| - 1];
  }

  /** Every sample a run covers is covered by a merged segment. */
  lemma {:induction false} MergeFromCovers(cur: Seg, rest: seq<Seg>, minGap: int, k: int)
    requires Ordered([cur] + rest) && Covers([cur] + rest, k)
    ensures Covers(MergeFrom(cur, rest, minGap), k)
    decreases |rest|
  {
    var all := [cur] + rest;
    if rest != [] {
      OrderedTail(cur, rest);
      var j :| 0 <= j < |all| && all[j].start <= k < all[j].stop;
      if rest[0].start - cur.stop < minGap {
        var merged := Seg(cur.start, rest[0].stop);
        var next := [merged] + rest[1..];
        OrderedAbsorb(cur, rest);
        if j <= 1 {
          assert all[1] == rest[0];
          assert next[0].start <= k < next[0].stop;
        } else {
          assert next[j - 1] == all[j];
        }
        MergeFromCovers(merged, rest[1..], minGap, k);
      } else {
        var m' := MergeFrom(rest[0], rest[1..], minGap);
        CoversCons(cur, rest, k);
        CoversCons(cur, m', k);
        if Covers(rest, k) {
          assert [rest[0]] + rest[1..] == rest;
          MergeFromCovers(rest[0], rest[1..], minGap, k);
        }
      }
    }
  }

  /** The merged segments of a waveform's runs. */
  lemma ChannelReferenceSpec(w: seq<int>, minGap: int)
    requires Binary(w)
    ensures var m := ChannelReference(w, minGap);
            && Ordered(m) && Within(m, 0, |w|) && GapsAtLeast(m, minGap)
            && (forall k :: 0 <= k < |w| && w[k] == 1 ==> Covers(m, k))
            && (m == [] <==> forall k :: 0 <= k < |w| ==> w[k] == 0)
  {
    var runs := Runs(w);
    RunsSpec(w);
    if runs != [] {
      assert runs == [runs[0]] + runs[1..];
      MergeFromShape(runs[0], runs[1..], minGap);
      var m := ChannelReference(w, minGap);
      forall k | 0 <= k < |w| && w[k] == 1
        ensures Covers(m, k)
      {
        MergeFromCovers(runs[0], runs[1..], minGap, k);
      }
      forall j | 0 <= j < |m|
        ensures 0 <= m[j].start && m[j].stop <= |w|
      {
        OrderedBounds(m, j);
        OrderedBounds(runs, |runs| - 1);
      }
      var k := runs[0].start;
      assert w[k] == 1 by {
        assert Covers(runs, k);
      }
    } else {
      forall k | 0 <= k < |w|
        ensures w[k] == 0
      {
        assert !Covers(runs, k);
      }
    }
  }

  /** In an ordered list every segment lies between the first start and
      the last stop. */
  lemma {:induction false} OrderedBounds(segs: seq<Seg>, j: nat)
    requires Ordered(segs) && j < |segs|
    ensures segs[0].start <= segs[j].start && segs[j].stop <= segs[|segs| - 1].stop
    decreases |segs| - j
  {
    if j < |segs| - 1 {
      OrderedBounds(segs, j + 1);
    }
    if j > 0 {
      OrderedStartsIncrease(segs, j);
    }
  }

  lemma {:induction false} OrderedStartsIncrease(segs: seq<Seg>, j: nat)
    requires Ordered(segs) && j < |segs|
    ensures segs[0].start <= segs[j].start
    decreases j
  {
    if j > 0 {
      OrderedStartsIncrease(segs, j - 1);
    }
  }

  // ---------------------------------------------------------------------
  // The numpy computation as written.

  /** Sample `i`, or 0 outside the waveform (the zero column padded on). */
  function Pad(w: seq<int>, i: int): int
  {
    if 0 <= i < |w| then w[i] else 0
  }

  /** The waveform plus itself shifted right by one sample, for one channel. */
  function Step(w: seq<int>): (s: seq<int>)
    ensures |s| == |w| + 1
  {
    seq(|w| + 1, i requires 0 <= i <= |w| => Pad(w, i) + Pad(w, i - 1))
  }

  /** Within a run of 1s the shifted sum is 2; it is 1 exactly at the
      run's first sample and one past its last. */
  lemma StepInRun(w: seq<int>, i: nat)
    requires Binary(w) && i < |w| && w[i] == 1 && Pad(w, i - 1) == 0
    ensures var e := RunEnd(w, i);
            && Step(w)[i] == 1 && Step(w)[e] == 1
            && forall k :: i < k < e ==> Step(w)[k] == 2
  {
  }

  lemma StepOutsideRun(w: seq<int>, i: nat)
    requires Binary(w) && i <= |w| && Pad(w, i) == 0 && Pad(w, i - 1) == 0
    ensures Step(w)[i] == 0
  {
  }

  /** The indices, from `i` on, where the shifted sum is 1. */
  function WhereFrom(s: seq<int>, i: nat): seq<int>
    requires i <= |s|
    decreases |s| - i
  {
    if i == |s| then []
    else (if s[i] == 1 then [i] else []) + WhereFrom(s, i + 1)
  }

  /** `flatten()` of a two-column matrix of segments. */
  function Flatten(segs: seq<Seg>): (f: seq<int>)
    ensures |f| == 2 * |segs|
  {
    if segs == [] then [] else [segs[0].start, segs[0].stop] + Flatten(segs[1..])
  }

  /** `reshape(-1, 2)` of an even-length vector. */
  function Pairs(f: seq<int>): (r: seq<Seg>)
    requires |f| % 2 == 0
    ensures |r| == |f| / 2
    ensures forall i :: 0 <= i < |r| ==> r[i] == Seg(f[2 * i], f[2 * i + 1])
    decreases |f|
  {
    if f == [] then [] else [Seg(f[0], f[1])] + Pairs(f[2..])
  }

  lemma {:induction false} FlattenIndex(segs: seq<Seg>, j: nat)
    requires j < |segs|
    ensures Flatten(segs)[2 * j] == segs[j].start && Flatten(segs)[2 * j + 1] == segs[j].stop
    decreases j
  {
    if j > 0 {
      FlattenIndex(segs[1..], j - 1);
    }
  }

  /** `reshape(-1, 2)` undoes `flatten()`. */
  lemma PairsFlatten(segs: seq<Seg>)
    ensures Pairs(Flatten(segs)) == segs
  {
    forall j | 0 <= j < |segs|
      ensures Pairs(Flatten(segs))[j] == segs[j]
    {
      FlattenIndex(segs, j);
    }
  }

  lemma {:induction false} WhereSkip(s: seq<int>, i: nat, e: nat)
    requires i <= e <= |s|
    requires forall k :: i <= k < e ==> s[k] != 1
    ensures WhereFrom(s, i) == WhereFrom(s, e)
    decreases e - i
  {
    if i < e {
      WhereSkip(s, i + 1, e);
    }
  }

  /** The positions where the shifted sum equals 1 are the starts and stops
      of the maximal runs, alternating. */
  lemma {:induction false} TransitionsFrom(w: seq<int>, i: nat)
    requires Binary(w) && i <= |w| && Pad(w, i - 1) == 0
    ensures WhereFrom(Step(w), i) == Flatten(RunsFrom(w, i))
    decreases |w| - i
  {
    if i == |w| {
      TransitionsEnd(w);
    } else if w[i] != 1 {
      assert Pad(w, i + 1 - 1) == 0;
      TransitionsFrom(w, i + 1);
      TransitionsZero(w, i);
    } else {
      var e := RunEnd(w, i);
      if e < |w| {
        assert Pad(w, e + 1 - 1) == 0;
        TransitionsFrom(w, e + 1);
      }
      TransitionsRun(w, i, e);
    }
  }

  /** Past the last sample there is no transition left. */
  lemma TransitionsEnd(w: seq<int>)
    requires Binary(w) && Pad(w, |w| - 1) == 0
    ensures WhereFrom(Step(w), |w|) == Flatten(RunsFrom(w, |w|))
  {
    StepOutsideRun(w, |w|);
  }

  /** A 0 at `i` is no transition and starts no run. */
  lemma TransitionsZero(w: seq<int>, i: nat)
    requires Binary(w) && i < |w| && w[i] != 1 && Pad(w, i - 1) == 0
    requires WhereFrom(Step(w), i + 1) == Flatten(RunsFrom(w, i + 1))
    ensures WhereFrom(Step(w), i) == Flatten(RunsFrom(w, i))
  {
    StepOutsideRun(w, i);
    RunsFromSkip(w, i);
  }

  /** A run of 1s from `i` to `e` gives the transitions `i` and `e`. */
  lemma TransitionsRun(w: seq<int>, i: nat, e: nat)
    requires Binary(w) && i < |w| && w[i] == 1 && Pad(w, i - 1) == 0 && e == RunEnd(w, i)
    requires e < |w| ==> WhereFrom(Step(w), e + 1) == Flatten(RunsFrom(w, e + 1))
    ensures WhereFrom(Step(w), i) == Flatten(RunsFrom(w, i))
  {
    var s := Step(w);
    var rest := RunsFrom(w, e);
    StepInRun(w, i);
    calc {
      WhereFrom(s, i);
      == { WhereRun(s, i, e); }
      [i, e] + WhereFrom(s, e + 1);
      == { if e < |w| { RunsFromSkip(w, e); } else { assert rest == []; } }
      [i, e] + Flatten(rest);
      == { FlattenCons(Seg(i, e), rest); }
      Flatten([Seg(i, e)] + rest);
      Flatten(RunsFrom(w, i));
    }
  }

  /** A 1 at `i`, none strictly between, a 1 at `e`: `where` lists `i` and `e`. */
  lemma WhereRun(s: seq<int>, i: nat, e: nat)
    requires i < e < |s| && s[i] == 1 && s[e] == 1
    requires forall k :: i < k < e ==> s[k] != 1
    ensures WhereFrom(s, i) == [i, e] + WhereFrom(s, e + 1)
  {
    var tail := WhereFrom(s, e + 1);
    calc {
      WhereFrom(s, i);
      [i] + WhereFrom(s, i + 1);
      == { WhereSkip(s, i + 1, e); }
      [i] + WhereFrom(s, e);
      [i] + ([e] + tail);
      == { assert [i] + ([e] + tail) == [i, e] + tail; }
      [i, e] + tail;
    }
  }

  lemma FlattenCons(x: Seg, segs: seq<Seg>)
    ensures Flatten([x] + segs) == [x.start, x.stop] + Flatten(segs)
  {
    assert ([x] + segs)[1..] == segs;
  }

  lemma Transitions(w: seq<int>)
    requires Binary(w)
    ensures WhereFrom(Step(w), 0) == Flatten(Runs(w))
  {
    TransitionsFrom(w, 0);
  }

  /** `[x for x in range(len(f)) if x not in remove]` applied to `f`, from index `x`. */
  function Kept(f: seq<int>, remove: seq<int>, x: nat): seq<int>
    requires x <= |f|
    decreases |f| - x
  {
    if x == |f| then []
    else (if x in remove then [] else [f[x]]) + Kept(f, remove, x + 1)
  }

  /** `remove[remove != 0]` */
  function NonZero(xs: seq<int>): seq<int>
  {
    if xs == [] then [] else (if xs[0] != 0 then [xs[0]] else []) + NonZero(xs[1..])
  }

  lemma {:induction false} NonZeroIn(xs: seq<int>, x: int)
    ensures x in NonZero(xs) <==> x != 0 && x in xs
  {
    if xs != [] {
      NonZeroIn(xs[1..], x);
      assert xs == [xs[0]] + xs[1..];
    }
  }

  /** The removal list built from the `distance` flags: the start of run
      `i` (flat index `2i`) and the stop of run `i-1` (flat index `2i-1`)
      whenever run `i` is too close to run `i-1`. */
  function Removal(distance: seq<int>): seq<int>
  {
    var starts := seq(|distance|, i requires 0 <= i < |distance| => distance[i] * 2 * i);
    var stops := seq(|distance|, i requires 0 <= i < |distance| => distance[i] * 2 * i - 1);
    NonZero(starts + stops)
  }

  /** Which flat index the removal list names, for 0/1 flags.  Flag 0 (the
      fake segment's gap) never removes anything: index 0, the first start,
      is always kept. */
  predicate RemovedBy(distance: seq<int>, x: nat)
  {
    if x % 2 == 0 then 0 < x / 2 < |distance| && distance[x / 2] == 1
    else (x + 1) / 2 < |distance| && distance[(x + 1) / 2] == 1
  }

  lemma RemovalSpec(distance: seq<int>, x: nat)
    requires forall i :: 0 <= i < |distance| ==> distance[i] == 0 || distance[i] == 1
    ensures x in Removal(distance) <==> RemovedBy(distance, x)
  {
    if RemovedBy(distance, x) {
      RemovalNames(distance, x);
    }
    if x in Removal(distance) {
      RemovalNamesOnly(distance, x);
    }
  }

  lemma RemovalNames(distance: seq<int>, x: nat)
    requires forall i :: 0 <= i < |distance| ==> distance[i] == 0 || distance[i] == 1
    requires RemovedBy(distance, x)
    ensures x in Removal(distance)
  {
    var n := |distance|;
    var starts := seq(n, i requires 0 <= i < n => distance[i] * 2 * i);
    var stops := seq(n, i requires 0 <= i < n => distance[i] * 2 * i - 1);
    var both := starts + stops;
    assert Removal(distance) == NonZero(both);
    NonZeroIn(both, x);
    if x % 2 == 0 {
      var i := x / 2;
      FlagProduct(distance[i], i);
      assert both[i] == starts[i] == x;
    } else {
      var i := (x + 1) / 2;
      FlagProduct(distance[i], i);
      assert both[n + i] == stops[i] == x;
    }
  }

  lemma RemovalNamesOnly(distance: seq<int>, x: nat)
    requires forall i :: 0 <= i < |distance| ==> distance[i] == 0 || distance[i] == 1
    requires x in Removal(distance)
    ensures RemovedBy(distance, x)
  {
    var n := |distance|;
    var starts := seq(n, i requires 0 <= i < n => distance[i] * 2 * i);
    var stops := seq(n, i requires 0 <= i < n => distance[i] * 2 * i - 1);
    var both := starts + stops;
    assert Removal(distance) == NonZero(both);
    NonZeroIn(both, x);
    var p :| 0 <= p < |both| && both[p] == x;
    if p < n {
      assert starts[p] == x;
      FlagProduct(distance[p], p);
    } else {
      var i := p - n;
      assert stops[i] == x;
      FlagProduct(distance[i], i);
    }
  }

  /** A 0/1 flag times `2 * i` is `2 * i` or nothing. */
  lemma FlagProduct(d: int, i: int)
    requires d == 0 || d == 1
    ensures d * 2 * i == if d == 1 then 2 * i else 0
  {
  }

  /** The flat start/stop values the index-removal step keeps, for the
      segments `seg` of one channel. */
  function KeptBounds(seg: seq<Seg>, minGap: int): seq<int>
    requires |seg| > 0
  {
    var withFake := [Seg(-1, -10000)] + seg;
    Kept(Flatten(withFake[1..]), Removal(Distance(seg, minGap)), 0)
  }

  /** The 0/1 flags of the gaps, computed with the fake segment in front:
      flag `i > 0` is set exactly when the gap before segment `i` is below
      `minGap`. */
  function Distance(seg: seq<Seg>, minGap: int): (d: seq<int>)
    ensures |d| == |seg|
    ensures forall i :: 0 <= i < |d| ==> d[i] == 0 || d[i] == 1
    ensures forall i :: 0 < i < |d| ==> (d[i] == 1 <==> seg[i].start - seg[i - 1].stop < minGap)
  {
    var withFake := [Seg(-1, -10000)] + seg;
    var flat := Flatten(withFake);
    // rows [stop of the previous segment, start of this one]
    var gaps := Pairs(flat[1..|flat| - 1]);
    GapsOfFake(seg);
    seq(|gaps|, i requires 0 <= i < |gaps| => if gaps[i].stop - gaps[i].start < minGap then 1 else 0)
  }

  /** With 0/1 flags from `Distance`, the removal list names exactly the
      bounds a merge removes. */
  lemma RemovalMerged(seg: seq<Seg>, minGap: int, x: nat)
    requires x < 2 * |seg|
    ensures x in Removal(Distance(seg, minGap)) <==> MergedAway(seg, minGap, x)
  {
    var d := Distance(seg, minGap);
    RemovalSpec(d, x);
    if x % 2 == 0 {
      assert x / 2 < |seg|;
    } else {
      assert (x - 1) / 2 == (x + 1) / 2 - 1;
    }
  }

  /** Whether flat index `x` of `Flatten(seg)` is one of the bounds a merge removes. */
  predicate MergedAway(seg: seq<Seg>, minGap: int, x: nat)
    requires x < 2 * |seg|
  {
    if x % 2 == 0 then x > 0 && seg[x / 2].start - seg[x / 2 - 1].stop < minGap
    else (x + 1) / 2 < |seg| && seg[(x + 1) / 2].start - seg[(x - 1) / 2].stop < minGap
  }

  /** Flat index `x` of `Flatten(seg)`: a start at even, a stop at odd positions. */
  function Bound(seg: seq<Seg>, x: nat): int
    requires x < 2 * |seg|
  {
    if x % 2 == 0 then seg[x / 2].start else seg[x / 2].stop
  }

  /** The bounds from flat index `x` on that a merge does not remove. */
  function Unmerged(seg: seq<Seg>, minGap: int, x: nat): seq<int>
    requires x <= 2 * |seg|
    decreases 2 * |seg| - x
  {
    if x == 2 * |seg| then []
    else (if MergedAway(seg, minGap, x) then [] else [Bound(seg, x)]) + Unmerged(seg, minGap, x + 1)
  }

  /** A removal list that names exactly the merged-away bounds keeps the
      unmerged ones. */
  lemma {:induction false} KeptUnmerged(seg: seq<Seg>, minGap: int, remove: seq<int>, x: nat)
    requires x <= 2 * |seg|
    requires forall x: nat :: x < 2 * |seg| ==> (x in remove <==> MergedAway(seg, minGap, x))
    ensures Kept(Flatten(seg), remove, x) == Unmerged(seg, minGap, x)
    decreases 2 * |seg| - x
  {
    if x < 2 * |seg| {
      var f := Flatten(seg);
      var gone := x in remove;
      assert gone == MergedAway(seg, minGap, x);
      FlattenBound(seg, x);
      KeptUnmerged(seg, minGap, remove, x + 1);
      calc {
        Kept(f, remove, x);
        (if gone then [] else [f[x]]) + Kept(f, remove, x + 1);
        (if gone then [] else [Bound(seg, x)]) + Unmerged(seg, minGap, x + 1);
        Unmerged(seg, minGap, x);
      }
    }
  }

  lemma FlattenBound(seg: seq<Seg>, x: nat)
    requires x < 2 * |seg|
    ensures Flatten(seg)[x] == Bound(seg, x)
  {
    var j := x / 2;
    FlattenIndex(seg, j);
    if x % 2 == 0 {
      assert x == 2 * j;
    } else {
      assert x == 2 * j + 1;
    }
  }

  /** The unmerged bounds after the start `s` of the segment being built
      are the flattened forward merge. */
  lemma {:induction false} KeptMergeFrom(seg: seq<Seg>, minGap: int, i: nat, s: int)
    requires i < |seg|
    ensures [s] + Unmerged(seg, minGap, 2 * i + 1)
            == Flatten(MergeFrom(Seg(s, seg[i].stop), seg[i + 1..], minGap))
    decreases |seg| - i
  {
    if i == |seg| - 1 {
      MergeLast(seg, minGap, i, s);
    } else if seg[i + 1].start - seg[i].stop < minGap {
      KeptMergeFrom(seg, minGap, i + 1, s);
      MergeAbsorb(seg, minGap, i, s);
    } else {
      KeptMergeFrom(seg, minGap, i + 1, seg[i + 1].start);
      MergeSeparate(seg, minGap, i, s);
    }
  }

  lemma MergeLast(seg: seq<Seg>, minGap: int, i: nat, s: int)
    requires i == |seg| - 1
    ensures [s] + Unmerged(seg, minGap, 2 * i + 1)
            == Flatten(MergeFrom(Seg(s, seg[i].stop), seg[i + 1..], minGap))
  {
    var cur := Seg(s, seg[i].stop);
    calc {
      [s] + Unmerged(seg, minGap, 2 * i + 1);
      == { UnmergedLast(seg, minGap, i); }
      [cur.start, cur.stop];
      == { FlattenCons(cur, []); }
      Flatten([cur]);
      == { assert seg[i + 1..] == []; }
      Flatten(MergeFrom(cur, seg[i + 1..], minGap));
    }
  }

  /** A gap below `minGap`: the segment being built absorbs the next one. */
  lemma MergeAbsorb(seg: seq<Seg>, minGap: int, i: nat, s: int)
    requires i + 1 < |seg| && seg[i + 1].start - seg[i].stop < minGap
    requires [s] + Unmerged(seg, minGap, 2 * (i + 1) + 1)
             == Flatten(MergeFrom(Seg(s, seg[i + 1].stop), seg[i + 1 + 1..], minGap))
    ensures [s] + Unmerged(seg, minGap, 2 * i + 1)
            == Flatten(MergeFrom(Seg(s, seg[i].stop), seg[i + 1..], minGap))
  {
    var cur := Seg(s, seg[i].stop);
    calc {
      [s] + Unmerged(seg, minGap, 2 * i + 1);
      == { UnmergedPair(seg, minGap, i); }
      [s] + Unmerged(seg, minGap, 2 * (i + 1) + 1);
      Flatten(MergeFrom(Seg(s, seg[i + 1].stop), seg[i + 1 + 1..], minGap));
      == { MergeFromNext(cur, seg, i, minGap); }
      Flatten(MergeFrom(cur, seg[i + 1..], minGap));
    }
  }

  /** A gap of at least `minGap`: the segment being built is complete. */
  lemma MergeSeparate(seg: seq<Seg>, minGap: int, i: nat, s: int)
    requires i + 1 < |seg| && seg[i + 1].start - seg[i].stop >= minGap
    requires [seg[i + 1].start] + Unmerged(seg, minGap, 2 * (i + 1) + 1)
             == Flatten(MergeFrom(Seg(seg[i + 1].start, seg[i + 1].stop), seg[i + 1 + 1..], minGap))
    ensures [s] + Unmerged(seg, minGap, 2 * i + 1)
            == Flatten(MergeFrom(Seg(s, seg[i].stop), seg[i + 1..], minGap))
  {
    var cur := Seg(s, seg[i].stop);
    var tail := MergeFrom(seg[i + 1], seg[i + 1 + 1..], minGap);
    calc {
      [s] + Unmerged(seg, minGap, 2 * i + 1);
      == { UnmergedPair(seg, minGap, i); }
      [cur.start, cur.stop] + ([seg[i + 1].start] + Unmerged(seg, minGap, 2 * (i + 1) + 1));
      [cur.start, cur.stop] + Flatten(MergeFrom(Seg(seg[i + 1].start, seg[i + 1].stop), seg[i + 1 + 1..], minGap));
      == { assert Seg(seg[i + 1].start, seg[i + 1].stop) == seg[i + 1]; }
      [cur.start, cur.stop] + Flatten(tail);
      == { FlattenCons(cur, tail); }
      Flatten([cur] + tail);
      == { MergeFromNext(cur, seg, i, minGap); }
      Flatten(MergeFrom(cur, seg[i + 1..], minGap));
    }
  }

  /** One step of the forward merge over `seg[i + 1..]`. */
  lemma MergeFromNext(cur: Seg, seg: seq<Seg>, i: nat, minGap: int)
    requires i + 1 < |seg|
    ensures MergeFrom(cur, seg[i + 1..], minGap)
            == if seg[i + 1].start - cur.stop < minGap
               then MergeFrom(Seg(cur.start, seg[i + 1].stop), seg[i + 1 + 1..], minGap)
               else [cur] + MergeFrom(seg[i + 1], seg[i + 1 + 1..], minGap)
  {
    var rest := seg[i + 1..];
    assert rest[0] == seg[i + 1] && rest[1..] == seg[i + 1 + 1..];
  }

  /** The last stop is never merged away. */
  lemma UnmergedLast(seg: seq<Seg>, minGap: int, i: nat)
    requires i == |seg| - 1
    ensures Unmerged(seg, minGap, 2 * i + 1) == [seg[i].stop]
  {
    Halves(i);
  }

  /** A stop and the next start are merged away together or kept together. */
  lemma UnmergedPair(seg: seq<Seg>, minGap: int, i: nat)
    requires i + 1 < |seg|
    ensures Unmerged(seg, minGap, 2 * i + 1)
            == (if seg[i + 1].start - seg[i].stop < minGap then [] else [seg[i].stop, seg[i + 1].start])
               + Unmerged(seg, minGap, 2 * (i + 1) + 1)
  {
    Halves(i);
    Halves(i + 1);
    assert Unmerged(seg, minGap, 2 * (i + 1))
        == (if seg[i + 1].start - seg[i].stop < minGap then [] else [seg[i + 1].start])
           + Unmerged(seg, minGap, 2 * (i + 1) + 1);
  }

  lemma Halves(i: nat)
    ensures (2 * i) % 2 == 0 && (2 * i) / 2 == i
    ensures (2 * i + 1) % 2 == 1 && (2 * i + 1) / 2 == i
  {
  }


  /** The fake segment and the removal list compute the forward merge. */
  lemma KeptBoundsMerge(seg: seq<Seg>, minGap: int)
    requires |seg| > 0
    ensures KeptBounds(seg, minGap) == Flatten(Merge(seg, minGap))
  {
    var remove := Removal(Distance(seg, minGap));
    forall x: nat | x < 2 * |seg|
      ensures x in remove <==> MergedAway(seg, minGap, x)
    {
      RemovalMerged(seg, minGap, x);
    }
    assert ([Seg(-1, -10000)] + seg)[1..] == seg;
    calc {
      KeptBounds(seg, minGap);
      Kept(Flatten(seg), remove, 0);
      == { FlattenIndex(seg, 0); RemovalMerged(seg, minGap, 0); }
      [seg[0].start] + Kept(Flatten(seg), remove, 1);
      == { KeptUnmerged(seg, minGap, remove, 1); }
      [seg[0].start] + Unmerged(seg, minGap, 2 * 0 + 1);
      == { KeptMergeFrom(seg, minGap, 0, seg[0].start); }
      Flatten(MergeFrom(Seg(seg[0].start, seg[0].stop), seg[0 + 1..], minGap));
      == { assert Seg(seg[0].start, seg[0].stop) == seg[0]; }
      Flatten(Merge(seg, minGap));
    }
  }

  lemma GapsOfFake(seg: seq<Seg>)
    ensures var flat := Flatten([Seg(-1, -10000)] + seg);
            forall i :: 0 < i < |seg| ==> Pairs(flat[1..|flat| - 1])[i] == Seg(seg[i - 1].stop, seg[i].start)
  {
    forall i | 0 < i < |seg|
      ensures var flat := Flatten([Seg(-1, -10000)] + seg);
              Pairs(flat[1..|flat| - 1])[i] == Seg(seg[i - 1].stop, seg[i].start)
    {
      GapOfFake(seg, i);
    }
  }

  /** Row `i > 0` of the `[stop, start]` pairs is the gap before segment `i`. */
  lemma GapOfFake(seg: seq<Seg>, i: nat)
    requires 0 < i < |seg|
    ensures var flat := Flatten([Seg(-1, -10000)] + seg);
            Pairs(flat[1..|flat| - 1])[i] == Seg(seg[i - 1].stop, seg[i].start)
  {
    var g := Flatten(seg);
    var flat := Flatten([Seg(-1, -10000)] + seg);
    FlattenCons(Seg(-1, -10000), seg);
    assert flat == [-1, -10000] + g;
    var f := flat[1..|flat| - 1];
    assert |f| == 2 * |seg|;
    Halves(|seg|);
    assert f[2 * i] == g[2 * (i - 1) + 1];
    assert f[2 * i + 1] == g[2 * i];
    FlattenIndex(seg, i - 1);
    FlattenIndex(seg, i);
    assert Pairs(f)[i] == Seg(f[2 * i], f[2 * i + 1]);
  }

  /** One channel of `get_segments` as written: transitions, pairs, and,
      when there is at least one run, the removal step.  It agrees with
      the reference definition. */
  function ChannelSegments(w: seq<int>, minGap: int): (r: seq<Seg>)
    requires Binary(w)
    ensures r == ChannelReference(w, minGap)
  {
    Transitions(w);
    PairsFlatten(Runs(w));
    var seg := Pairs(WhereFrom(Step(w), 0));
    assert seg == Runs(w);
    if |seg| == 0 then []
    else
      KeptBoundsMerge(seg, minGap);
      PairsFlatten(Merge(seg, minGap));
      Pairs(KeptBounds(seg, minGap))
  }

  // ---------------------------------------------------------------------
  // All channels.

  /** A 1-D waveform is the single channel 0. */
  function Channels(wfs: Waveforms): seq<seq<int>>
  {
    match wfs
    case OneD(samples) => [samples]
    case TwoD(m) => m.rows
  }

  predicate AllBinary(rows: seq<seq<int>>)
  {
    forall ch :: 0 <= ch < |rows| ==> Binary(rows[ch])
  }

  /** Each segment of channel `ch` tagged with its channel number. */
  function Label(ch: nat, segs: seq<Seg>): (r: seq<Segment>)
    ensures |r| == |segs|
    ensures forall j :: 0 <= j < |r| ==> r[j] == Segment(ch, segs[j].start, segs[j].stop)
  {
    if segs == [] then [] else [Segment(ch, segs[0].start, segs[0].stop)] + Label(ch, segs[1..])
  }

  /** The reference rows of all channels, channel by channel. */
  function AllSegments(rows: seq<seq<int>>, minGap: int): seq<Segment>
    decreases |rows|
  {
    if rows == [] then []
    else AllSegments(rows[..|rows| - 1], minGap) + Label(|rows| - 1, ChannelReference(rows[|rows| - 1], minGap))
  }

  /** `get_segments`: `None` stands for the one-element array holding
      `None` that is returned when no channel has a segment. */
  method GetSegments(wfs: Waveforms, minSamplesToMerge: int) returns (segs: Option<seq<Segment>>)
    requires AllBinary(Channels(wfs))
    ensures var all := AllSegments(Channels(wfs), minSamplesToMerge);
            segs == if all == [] then None else Some(all)
  {
    var step := Channels(wfs);
    var acc: seq<Segment> := [];
    for ch := 0 to |step|
      invariant acc == AllSegments(step[..ch], minSamplesToMerge)
    {
      assert step[..ch + 1][..ch] == step[..ch];
      var seg := ChannelSegments(step[ch], minSamplesToMerge);
      if |seg| == 0 {
        assert acc + Label(ch, seg) == acc;
        continue;
      }
      acc := acc + Label(ch, seg);
    }
    assert step[..|step|] == step;
    if |acc| == 0 {
      return None;
    }
    return Some(acc);
  }

  /** Row `r` names a channel of `rows` and one of its merged segments. */
  predicate RowOf(rows: seq<seq<int>>, minGap: int, r: Segment)
  {
    r.channel < |rows| && Seg(r.start, r.stop) in ChannelReference(rows[r.channel], minGap)
  }

  /** Every output row names an input channel and one of that channel's
      merged segments, and rows come in ascending channel order. */
  lemma {:induction false} AllSegmentsSpec(rows: seq<seq<int>>, minGap: int)
    ensures forall i :: 0 <= i < |AllSegments(rows, minGap)| ==> RowOf(rows, minGap, AllSegments(rows, minGap)[i])
    ensures forall i, j :: 0 <= i < j < |AllSegments(rows, minGap)| ==>
              AllSegments(rows, minGap)[i].channel <= AllSegments(rows, minGap)[j].channel
    decreases |rows|
  {
    if rows != [] {
      var init := rows[..|rows| - 1];
      var last := |rows| - 1;
      AllSegmentsSpec(init, minGap);
      var a := AllSegments(init, minGap);
      var b := Label(last, ChannelReference(rows[last], minGap));
      var all := a + b;
      assert all == AllSegments(rows, minGap);
      forall i | 0 <= i < |all|
        ensures RowOf(rows, minGap, all[i])
      {
        if i < |a| {
          assert RowOf(init, minGap, a[i]);
          assert all[i] == a[i];
          assert rows[a[i].channel] == init[a[i].channel];
        } else {
          assert all[i] == b[i - |a|];
          assert Seg(all[i].start, all[i].stop) == ChannelReference(rows[last], minGap)[i - |a|];
        }
      }
      forall i, j | 0 <= i < j < |all|
        ensures all[i].channel <= all[j].channel
      {
        if j >= |a| {
          assert all[j] == b[j - |a|];
          if i < |a| {
            assert all[i] == a[i];
          } else {
            assert all[i] == b[i - |a|];
          }
        } else {
          assert all[i] == a[i] && all[j] == a[j];
        }
      }
    }
  }

  /** The result is the `None` sentinel exactly when no channel holds a 1. */
  lemma NoSegmentsIff(rows: seq<seq<int>>, minGap: int)
    requires AllBinary(rows)
    ensures AllSegments(rows, minGap) == []
            <==> forall ch, k :: 0 <= ch < |rows| && 0 <= k < |rows[ch]| ==> rows[ch][k] == 0
  {
    NoSegmentsIffZeros(rows, minGap);
  }

  predicate Zeros(w: seq<int>)
  {
    forall k :: 0 <= k < |w| ==> w[k] == 0
  }

  predicate AllZeros(rows: seq<seq<int>>)
  {
    forall ch :: 0 <= ch < |rows| ==> Zeros(rows[ch])
  }

  lemma {:induction false} NoSegmentsIffZeros(rows: seq<seq<int>>, minGap: int)
    requires AllBinary(rows)
    ensures AllSegments(rows, minGap) == [] <==> AllZeros(rows)
    decreases |rows|
  {
    if rows != [] {
      var init := rows[..|rows| - 1];
      var last := rows[|rows| - 1];
      var here := Label(|rows| - 1, ChannelReference(last, minGap));
      assert AllBinary(init) && Binary(last) by {
        assert forall ch :: 0 <= ch < |init| ==> init[ch] == rows[ch];
      }
      assert here == [] <==> Zeros(last) by {
        ChannelReferenceSpec(last, minGap);
      }
      assert AllSegments(rows, minGap) == AllSegments(init, minGap) + here;
      NoSegmentsIffZeros(init, minGap);
      AllZerosSnoc(rows);
    }
  }

  lemma AllZerosSnoc(rows: seq<seq<int>>)
    requires rows != []
    ensures AllZeros(rows) <==> AllZeros(rows[..|rows| - 1]) && Zeros(rows[|rows| - 1])
  {
    var init := rows[..|rows| - 1];
    assert forall ch :: 0 <= ch < |init| ==> init[ch] == rows[ch];
  }

}
