/**
  The paired estimator of the overhead benchmark
  (scripts/bench-count-overhead-analyze.py, unit_ns, paired_deltas and the shape gate of analyze).

  Each round runs the measured and the plain arm four times, in order ABBA or BAAB.  The deltas
  of the i-th measured and the i-th plain run are collected and their median is reported.
*/
module PairedMedian {
  import opened Options

  datatype Arm = On | Off | Unobserved | Traced

  datatype Sample = Sample(round: nat, arm: Arm, wall: nat, threads: nat, ops: nat, call: bool)

  /** Nanoseconds per call, over all threads, or per operation. */
  function UnitNs(s: Sample): real
    requires s.ops > 0
  {
    (if s.call then s.wall * s.threads else s.wall) as real / s.ops as real
  }

  ghost predicate Counted(samples: seq<Sample>) {
    forall i :: 0 <= i < |samples| ==> samples[i].ops > 0
  }

  // ---------------------------------------------------------------- selection, in log order

  function OfRound(samples: seq<Sample>, round: nat): seq<Sample> {
    if samples == [] then []
    else
      var s, rest := samples[|samples| - 1], OfRound(samples[..|samples| - 1], round);
      if s.round == round then rest + [s] else rest
  }

  function OfArm(samples: seq<Sample>, arm: Arm): seq<Sample> {
    if samples == [] then []
    else
      var s, rest := samples[|samples| - 1], OfArm(samples[..|samples| - 1], arm);
      if s.arm == arm then rest + [s] else rest
  }

  function Arms(samples: seq<Sample>): seq<Arm> {
    if samples == [] then [] else Arms(samples[..|samples| - 1]) + [samples[|samples| - 1].arm]
  }

  /** The rounds up to a number that have a sample, in order. */
  function Rounds(samples: seq<Sample>, top: nat): seq<nat> {
    (if top == 0 then [] else Rounds(samples, top - 1)) + if OfRound(samples, top) != [] then [top] else []
  }

  function Range(n: nat): seq<nat> {
    if n == 0 then [] else Range(n - 1) + [n]
  }

  // ---------------------------------------------------------------- deltas

  function Differences(on: seq<Sample>, off: seq<Sample>): (d: seq<real>)
    requires |on| == |off| && Counted(on) && Counted(off)
    ensures |d| == |on|
  {
    if on == [] then []
    else
      var n := |on| - 1;
      Differences(on[..n], off[..n]) + [UnitNs(on[n]) - UnitNs(off[n])]
  }

  /** The deltas of these rounds, or nothing if the arms of one do not pair. */
  function DeltasOf(samples: seq<Sample>, rounds: seq<nat>): Option<seq<real>>
    requires Counted(samples)
  {
    if rounds == [] then Some([])
    else
      var n := |rounds| - 1;
      var before := DeltasOf(samples, rounds[..n]);
      var on, off := OfArm(OfRound(samples, rounds[n]), On), OfArm(OfRound(samples, rounds[n]), Off);
      SelectedCounted(samples, rounds[n], On);
      SelectedCounted(samples, rounds[n], Off);
      if before.None? || |on| != |off| || on == [] then None
      else Some(before.value + Differences(on, off))
  }

  lemma {:induction false} OfRoundCounted(samples: seq<Sample>, round: nat)
    requires Counted(samples)
    ensures Counted(OfRound(samples, round))
  {
    if samples != [] { OfRoundCounted(samples[..|samples| - 1], round); }
  }

  lemma {:induction false} OfArmCounted(samples: seq<Sample>, arm: Arm)
    requires Counted(samples)
    ensures Counted(OfArm(samples, arm))
  {
    if samples != [] { OfArmCounted(samples[..|samples| - 1], arm); }
  }

  lemma {:induction false} SelectedCounted(samples: seq<Sample>, round: nat, arm: Arm)
    requires Counted(samples)
    ensures Counted(OfArm(OfRound(samples, round), arm))
  {
    OfRoundCounted(samples, round);
    OfArmCounted(OfRound(samples, round), arm);
  }

  function Active(samples: seq<Sample>): seq<Sample> {
    if samples == [] then []
    else
      var s, rest := samples[|samples| - 1], Active(samples[..|samples| - 1]);
      if s.arm == On || s.arm == Off then rest + [s] else rest
  }

  function Top(samples: seq<Sample>): nat {
    if samples == [] then 0
    else
      var s, top := samples[|samples| - 1], Top(samples[..|samples| - 1]);
      if s.round > top then s.round else top
  }

  /** The deltas of a cell, round by round. */
  method PairedDeltas(samples: seq<Sample>) returns (r: Option<seq<real>>)
    requires Counted(samples)
    ensures r == DeltasOf(samples, Rounds(Active(samples), Top(samples)))
  {
    var rounds, deltas: seq<real> := Rounds(Active(samples), Top(samples)), [];
    for k := 0 to |rounds|
      invariant DeltasOf(samples, rounds[..k]) == Some(deltas)
    {
      assert rounds[..k + 1][..k] == rounds[..k];
      var on, off := OfArm(OfRound(samples, rounds[k]), On), OfArm(OfRound(samples, rounds[k]), Off);
      SelectedCounted(samples, rounds[k], On);
      SelectedCounted(samples, rounds[k], Off);
      if |on| != |off| || on == [] {
        NoneStays(samples, rounds, k + 1);
        return None;
      }
      deltas := deltas + Differences(on, off);
    }
    assert rounds[..|rounds|] == rounds;
    return Some(deltas);
  }

  lemma {:induction false} NoneStays(samples: seq<Sample>, rounds: seq<nat>, k: nat)
    requires Counted(samples) && k <= |rounds| && DeltasOf(samples, rounds[..k]) == None
    ensures DeltasOf(samples, rounds) == None
    decreases |rounds|
  {
    if k == |rounds| {
      assert rounds[..k] == rounds;
    } else {
      assert rounds[..|rounds| - 1][..k] == rounds[..k];
      NoneStays(samples, rounds[..|rounds| - 1], k);
    }
  }

  // ---------------------------------------------------------------- the shape gate

  function Want(round: nat): seq<Arm> {
    (if round % 2 == 1 then [On, Off, Off, On] else [Off, On, On, Off]) + [Unobserved]
  }

  /** Rounds 1 to n, each in order ABBA or BAAB plus one baseline. */
  predicate Shaped(samples: seq<Sample>, n: nat) {
    Rounds(samples, Top(samples)) == Range(n) && forall r | 1 <= r <= n :: Arms(OfRound(samples, r)) == Want(r)
  }

  /** A round of a shaped cell costs a base, plus a drift per run, plus the effect on measured runs. */
  ghost predicate Drifts(run: seq<Sample>, base: real, drift: real, effect: real) {
    && |run| >= 4 && Counted(run)
    && forall k :: 0 <= k < 4 ==> UnitNs(run[k]) == base + k as real * drift + if run[k].arm == On then effect else 0.0
  }

  /** The two deltas of a shaped round lie around the effect, one drift below and one above. */
  lemma {:induction false} RoundDeltas(run: seq<Sample>, round: nat, base: real, drift: real, effect: real)
    requires Arms(run) == Want(round) && Drifts(run, base, drift, effect)
    ensures |OfArm(run, On)| == |OfArm(run, Off)| == 2 && Counted(OfArm(run, On)) && Counted(OfArm(run, Off))
    ensures var d := Differences(OfArm(run, On), OfArm(run, Off));
            d == [effect - drift, effect + drift] || d == [effect + drift, effect - drift]
  {
    hide OfArm, Arms, Differences, UnitNs;
    ArmsAt(run);
    OfArmCounted(run, On);
    OfArmCounted(run, Off);
    var a, b, c, d, e := run[0], run[1], run[2], run[3], run[4];
    assert run == [a, b, c, d, e];
    FiveOfArm(a, b, c, d, e, On);
    FiveOfArm(a, b, c, d, e, Off);
    assert UnitNs(run[3]) == base + 3 as real * drift + if d.arm == On then effect else 0.0;
    if round % 2 == 1 {
      assert OfArm(run, On) == [a, d] && OfArm(run, Off) == [b, c];
      TwoDifferences(a, d, b, c);
    } else {
      assert OfArm(run, On) == [b, c] && OfArm(run, Off) == [a, d];
      TwoDifferences(b, c, a, d);
    }
  }

  lemma {:induction false} ArmsAt(samples: seq<Sample>)
    ensures |Arms(samples)| == |samples| && forall k :: 0 <= k < |samples| ==> Arms(samples)[k] == samples[k].arm
  {
    if samples != [] { ArmsAt(samples[..|samples| - 1]); }
  }

  lemma {:induction false} FiveOfArm(a: Sample, b: Sample, c: Sample, d: Sample, e: Sample, arm: Arm)
    ensures OfArm([a, b, c, d, e], arm)
         == (if a.arm == arm then [a] else []) + (if b.arm == arm then [b] else []) + (if c.arm == arm then [c] else [])
            + (if d.arm == arm then [d] else []) + (if e.arm == arm then [e] else [])
  {
    assert [a, b, c, d, e][..4] == [a, b, c, d] && [a, b, c, d][..3] == [a, b, c] && [a, b, c][..2] == [a, b] && [a, b][..1] == [a] && [a][..0] == [];
    assert OfArm([a], arm) == if a.arm == arm then [a] else [];
    assert OfArm([a, b], arm) == OfArm([a], arm) + if b.arm == arm then [b] else [];
    assert OfArm([a, b, c], arm) == OfArm([a, b], arm) + if c.arm == arm then [c] else [];
    assert OfArm([a, b, c, d], arm) == OfArm([a, b, c], arm) + if d.arm == arm then [d] else [];
  }

  lemma TwoDifferences(a: Sample, b: Sample, x: Sample, y: Sample)
    requires a.ops > 0 && b.ops > 0 && x.ops > 0 && y.ops > 0
    ensures Differences([a, b], [x, y]) == [UnitNs(a) - UnitNs(x), UnitNs(b) - UnitNs(y)]
  {
    assert [a, b][..1] == [a] && [x, y][..1] == [x] && [a][..0] == [] && [x][..0] == [];
    assert Differences([a], [x]) == [UnitNs(a) - UnitNs(x)];
  }

  // ---------------------------------------------------------------- which rounds are paired

  lemma {:induction false} RoundsMember(samples: seq<Sample>, top: nat, r: nat)
    ensures r in Rounds(samples, top) <==> r <= top && OfRound(samples, r) != []
    decreases top
  {
    if top > 0 { RoundsMember(samples, top - 1, r); }
  }

  lemma {:induction false} RangeMember(n: nat, r: nat)
    ensures r in Range(n) <==> 1 <= r <= n
  {
    if n > 0 { RangeMember(n - 1, r); }
  }

  lemma {:induction false} ActiveOfRound(samples: seq<Sample>, r: nat)
    ensures OfRound(Active(samples), r) == Active(OfRound(samples, r))
  {
    if samples != [] {
      var s, rest := samples[|samples| - 1], samples[..|samples| - 1];
      ActiveOfRound(rest, r);
      assert (Active(rest) + [s])[..|Active(rest)|] == Active(rest);
      assert (OfRound(rest, r) + [s])[..|OfRound(rest, r)|] == OfRound(rest, r);
    }
  }

  lemma {:induction false} ActiveHas(samples: seq<Sample>, k: nat)
    requires k < |samples| && (samples[k].arm == On || samples[k].arm == Off)
    ensures Active(samples) != []
    decreases |samples|
  {
    if k < |samples| - 1 { ActiveHas(samples[..|samples| - 1], k); }
  }

  lemma {:induction false} SameRounds(a: seq<Sample>, b: seq<Sample>, top: nat)
    requires forall r :: 0 <= r <= top ==> (OfRound(a, r) == [] <==> OfRound(b, r) == [])
    ensures Rounds(a, top) == Rounds(b, top)
    decreases top
  {
    if top > 0 { SameRounds(a, b, top - 1); }
  }

  /** In a shaped cell the rounds that are paired are all the rounds. */
  lemma {:induction false} ShapedRounds(samples: seq<Sample>, n: nat)
    requires Shaped(samples, n)
    ensures Rounds(Active(samples), Top(samples)) == Range(n)
  {
    forall r: nat | 0 <= r <= Top(samples) ensures OfRound(Active(samples), r) == [] <==> OfRound(samples, r) == [] {
      ActiveOfRound(samples, r);
      if OfRound(samples, r) != [] {
        RoundsMember(samples, Top(samples), r);
        RangeMember(n, r);
        ArmsAt(OfRound(samples, r));
        ActiveHas(OfRound(samples, r), 0);
      }
    }
    SameRounds(Active(samples), samples, Top(samples));
  }

  // ---------------------------------------------------------------- the median

  ghost predicate Ascending(s: seq<real>) {
    forall i, j :: 0 <= i < j < |s| ==> s[i] <= s[j]
  }

  ghost function Count(s: seq<real>, x: real): nat {
    if s == [] then 0 else Count(s[..|s| - 1], x) + if s[|s| - 1] == x then 1 else 0
  }

  /** The same values, in some order. */
  ghost predicate Same(a: seq<real>, b: seq<real>) {
    |a| == |b| && forall x: real :: Count(a, x) == Count(b, x)
  }

  lemma {:induction false} CountLast(s: seq<real>, y: real, x: real)
    ensures Count(s + [y], x) == Count(s, x) + if y == x then 1 else 0
  {
    assert (s + [y])[..|s|] == s;
  }

  lemma {:induction false} CountIn(s: seq<real>, x: real)
    ensures Count(s, x) > 0 <==> exists i :: 0 <= i < |s| && s[i] == x
  {
    if s != [] {
      CountIn(s[..|s| - 1], x);
      if i :| 0 <= i < |s| && s[i] == x {
        if i < |s| - 1 { assert s[..|s| - 1][i] == x; }
      }
    }
  }

  function Insert(s: seq<real>, x: real): (r: seq<real>)
    ensures |r| == |s| + 1
  {
    if s == [] || s[|s| - 1] <= x then s + [x]
    else Insert(s[..|s| - 1], x) + [s[|s| - 1]]
  }

  function Sort(s: seq<real>): (r: seq<real>)
    ensures |r| == |s|
  {
    if s == [] then [] else Insert(Sort(s[..|s| - 1]), s[|s| - 1])
  }

  lemma {:induction false} InsertCounts(s: seq<real>, x: real, y: real)
    ensures Count(Insert(s, x), y) == Count(s, y) + if x == y then 1 else 0
    decreases |s|
  {
    if s == [] || s[|s| - 1] <= x {
      CountLast(s, x, y);
    } else {
      InsertCounts(s[..|s| - 1], x, y);
      CountLast(Insert(s[..|s| - 1], x), s[|s| - 1], y);
    }
  }

  lemma {:induction false} InsertBelow(s: seq<real>, x: real, top: real)
    requires x <= top && forall i :: 0 <= i < |s| ==> s[i] <= top
    ensures forall i :: 0 <= i < |Insert(s, x)| ==> Insert(s, x)[i] <= top
    decreases |s|
  {
    if s != [] && s[|s| - 1] > x {
      InsertBelow(s[..|s| - 1], x, top);
    }
  }

  lemma {:induction false} InsertSorted(s: seq<real>, x: real)
    requires Ascending(s)
    ensures Ascending(Insert(s, x))
    decreases |s|
  {
    if s != [] && s[|s| - 1] > x {
      InsertSorted(s[..|s| - 1], x);
      InsertBelow(s[..|s| - 1], x, s[|s| - 1]);
    }
  }

  lemma {:induction false} SortSorts(s: seq<real>)
    ensures Ascending(Sort(s)) && Same(Sort(s), s)
  {
    if s != [] {
      var rest, last := s[..|s| - 1], s[|s| - 1];
      SortSorts(rest);
      InsertSorted(Sort(rest), last);
      forall x: real ensures Count(Sort(s), x) == Count(s, x) {
        InsertCounts(Sort(rest), last, x);
      }
    }
  }

  /** The middle value, or the mean of the two middle ones. */
  function Median(s: seq<real>): real
    requires s != []
  {
    var t, n := Sort(s), |s|;
    if n % 2 == 1 then t[n / 2] else (t[n / 2 - 1] + t[n / 2]) / 2.0
  }

  /** The values seen from the other side of a centre, in reverse order. */
  function Mirror(s: seq<real>, centre: real): (r: seq<real>)
    ensures |r| == |s| && forall i :: 0 <= i < |s| ==> r[i] == 2.0 * centre - s[|s| - 1 - i]
  {
    if s == [] then [] else [2.0 * centre - s[|s| - 1]] + Mirror(s[..|s| - 1], centre)
  }

  lemma {:induction false} CountAppend(a: seq<real>, b: seq<real>, x: real)
    ensures Count(a + b, x) == Count(a, x) + Count(b, x)
    decreases |b|
  {
    if b == [] {
      assert a + b == a;
    } else {
      assert (a + b)[..|a + b| - 1] == a + b[..|b| - 1];
      CountAppend(a, b[..|b| - 1], x);
    }
  }

  lemma {:induction false} MirrorCounts(s: seq<real>, centre: real, x: real)
    ensures Count(Mirror(s, centre), x) == Count(s, 2.0 * centre - x)
  {
    if s != [] {
      var n := |s| - 1;
      MirrorCounts(s[..n], centre, x);
      CountAppend([2.0 * centre - s[n]], Mirror(s[..n], centre), x);
      CountLast([], 2.0 * centre - s[n], x);
      assert [] + [2.0 * centre - s[n]] == [2.0 * centre - s[n]];
    }
  }

  /** Seen from the other side, the values are the same. */
  ghost predicate Symmetric(s: seq<real>, centre: real) {
    Same(Mirror(s, centre), s)
  }

  /** Sorted lists of the same values are the same list. */
  lemma {:induction false} SortedOnce(a: seq<real>, b: seq<real>)
    requires Ascending(a) && Ascending(b) && Same(a, b)
    ensures a == b
    decreases |a|
  {
    if a != [] {
      var n := |a| - 1;
      SameLast(a, b);
      forall x: real ensures Count(a[..n], x) == Count(b[..n], x) {
        assert Count(a, x) == Count(b, x);
      }
      SortedOnce(a[..n], b[..n]);
      assert a == a[..n] + [a[n]] && b == b[..n] + [b[n]];
    }
  }

  lemma SameLast(a: seq<real>, b: seq<real>)
    requires Ascending(a) && Ascending(b) && Same(a, b) && a != []
    ensures a[|a| - 1] == b[|b| - 1]
  {
    var x, y := a[|a| - 1], b[|b| - 1];
    CountIn(a, x);
    CountIn(b, x);
    CountIn(a, y);
    CountIn(b, y);
    assert Count(a, x) == Count(b, x) && Count(a, y) == Count(b, y);
    var i :| 0 <= i < |b| && b[i] == x;
    var j :| 0 <= j < |a| && a[j] == y;
  }

  /** A symmetric list stays symmetric when sorted. */
  lemma {:induction false} SortedMirrors(s: seq<real>, centre: real)
    requires Symmetric(s, centre)
    ensures Mirror(Sort(s), centre) == Sort(s)
  {
    SortSorts(s);
    hide Sort, Mirror, Count;
    var t := Sort(s);
    forall x: real ensures Count(Mirror(t, centre), x) == Count(t, x) {
      MirrorCounts(t, centre, x);
      MirrorCounts(s, centre, x);
      assert Count(t, 2.0 * centre - x) == Count(s, 2.0 * centre - x);
      assert Count(Mirror(s, centre), x) == Count(s, x) && Count(t, x) == Count(s, x);
    }
    MirrorAscends(t, centre);
    SortedOnce(Mirror(t, centre), t);
  }

  lemma {:induction false} MirrorAscends(s: seq<real>, centre: real)
    requires Ascending(s)
    ensures Ascending(Mirror(s, centre))
  {}

  /** A list that is symmetric about a centre, however long and scattered, has it as its median. */
  lemma SymmetricMedian(s: seq<real>, centre: real)
    requires s != [] && Symmetric(s, centre)
    ensures Median(s) == centre
  {
    hide Sort, Mirror, Symmetric;
    SortedMirrorAt(s, centre, |s| / 2);
  }

  lemma {:induction false} SortedMirrorAt(s: seq<real>, centre: real, i: nat)
    requires i < |s| && Symmetric(s, centre)
    ensures Sort(s)[i] == 2.0 * centre - Sort(s)[|s| - 1 - i]
  {
    SortedMirrors(s, centre);
    assert Mirror(Sort(s), centre)[i] == 2.0 * centre - Sort(s)[|s| - 1 - i];
  }

  // ---------------------------------------------------------------- the estimator

  lemma TwoSymmetric(d: seq<real>, centre: real, drift: real, x: real)
    requires d == [centre - drift, centre + drift] || d == [centre + drift, centre - drift]
    ensures Count(d, x) == Count(d, 2.0 * centre - x)
  {
    assert d == [] + [d[0]] + [d[1]];
    CountLast([], d[0], x);
    CountLast([] + [d[0]], d[1], x);
    CountLast([], d[0], 2.0 * centre - x);
    CountLast([] + [d[0]], d[1], 2.0 * centre - x);
  }

  /** Deltas of shaped, drifting rounds: two per round, symmetric about the effect. */
  lemma {:induction false} DriftingDeltas(samples: seq<Sample>, n: nat, base: nat -> real, drift: nat -> real, effect: real)
    requires Counted(samples)
    requires forall r :: 1 <= r <= n ==> Arms(OfRound(samples, r)) == Want(r) && Drifts(OfRound(samples, r), base(r), drift(r), effect)
    ensures var d := DeltasOf(samples, Range(n)); d.Some? && |d.value| == 2 * n && Symmetric(d.value, effect)
    decreases n
  {
    hide DeltasOf, Range, OfArm, OfRound, Differences, Symmetric, Arms, Want, Drifts, UnitNs;
    if n == 0 {
      NoDeltas(samples, effect);
    } else {
      DriftingDeltas(samples, n - 1, base, drift, effect);
      var run := OfRound(samples, n);
      RoundDeltas(run, n, base(n), drift(n), effect);
      SymmetricMore(DeltasOf(samples, Range(n - 1)).value, Differences(OfArm(run, On), OfArm(run, Off)), effect, drift(n));
      DeltasMore(samples, n);
    }
  }

  lemma DeltasMore(samples: seq<Sample>, n: nat)
    requires n > 0 && Counted(samples) && DeltasOf(samples, Range(n - 1)).Some?
    requires var run := OfRound(samples, n);
             |OfArm(run, On)| == |OfArm(run, Off)| == 2 && Counted(OfArm(run, On)) && Counted(OfArm(run, Off))
    ensures var run := OfRound(samples, n);
            DeltasOf(samples, Range(n)) == Some(DeltasOf(samples, Range(n - 1)).value + Differences(OfArm(run, On), OfArm(run, Off)))
    ensures |DeltasOf(samples, Range(n)).value| == |DeltasOf(samples, Range(n - 1)).value| + 2
  {
    RangeLength(n - 1);
    RangeLength(n);
    assert Range(n)[..n - 1] == Range(n - 1);
  }

  lemma {:induction false} NoDeltas(samples: seq<Sample>, centre: real)
    requires Counted(samples)
    ensures DeltasOf(samples, Range(0)) == Some([]) && Symmetric([], centre)
  {}

  lemma SymmetricMore(s: seq<real>, d: seq<real>, centre: real, drift: real)
    requires Symmetric(s, centre)
    requires d == [centre - drift, centre + drift] || d == [centre + drift, centre - drift]
    ensures Symmetric(s + d, centre)
  {
    forall x: real ensures Count(Mirror(s + d, centre), x) == Count(s + d, x) {
      hide Mirror, Count;
      MirrorCounts(s + d, centre, x);
      MirrorCounts(s, centre, x);
      CountAppend(s, d, x);
      CountAppend(s, d, 2.0 * centre - x);
      TwoSymmetric(d, centre, drift, x);
      assert Count(Mirror(s, centre), x) == Count(s, x);
    }
  }

  lemma {:induction false} RangeLength(n: nat)
    ensures |Range(n)| == n && (n > 0 ==> Range(n)[n - 1] == n)
  {
    if n > 0 { RangeLength(n - 1); }
  }

  /**
    What the paired estimator is for: if every round costs a base of its own, plus a linear
    drift of its own, plus one effect on measured runs, then for every number of rounds the
    shape gate accepts the reported median is exactly the effect.
  */
  method PairedEstimate(samples: seq<Sample>, n: nat, ghost base: nat -> real, ghost drift: nat -> real, ghost effect: real)
    returns (median: real)
    requires Counted(samples) && n > 0 && Shaped(samples, n)
    requires forall r :: 1 <= r <= n ==> Drifts(OfRound(samples, r), base(r), drift(r), effect)
    ensures median == effect
  {
    var deltas := PairedDeltas(samples);
    ShapedRounds(samples, n);
    DriftingDeltas(samples, n, base, drift, effect);
    SymmetricMedian(deltas.value, effect);
    median := Median(deltas.value);
  }
}
