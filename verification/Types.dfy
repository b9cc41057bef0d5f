/** Unit types shared by every component: process ids, sizes in KiB, time, and
    the process record one scan of the process table yields. */
module Types {

  datatype Option<+T> = None | Some(value: T)

  const U64_MAX: nat := 0xFFFF_FFFF_FFFF_FFFF

  type U64 = n: nat | n <= 0xFFFF_FFFF_FFFF_FFFF
  type U32 = n: nat | n <= 0xFFFF_FFFF
  type U8 = n: nat | n <= 0xFF

  type Pid = U32
  type Kb = U64

  /** Sentinel that is never a valid target. */
  const PID_NONE: Pid := 0

  /** Milliseconds of a monotonic clock. */
  type Time = nat

  function AsSecs(elapsed: nat): nat { elapsed / 1000 }

  /** `later - earlier`, zero when the clock reads backwards. */
  function Elapsed(later: Time, earlier: Time): nat { if later >= earlier then later - earlier else 0 }

  datatype Process = Process(
    pid: Pid,
    name: string,
    exe: Option<string>,
    rss: Kb,
    swap: Kb,
    oomScore: int,
    cgroup: Option<string>,
    cpuPct: real,
    majflt: U64,
    cmdline: string)

  /** A scan of the process table lists every process once. */
  ghost predicate DistinctPids(procs: seq<Process>)
  {
    forall i, j :: 0 <= i < j < |procs| ==> procs[i].pid != procs[j].pid
  }

  function SatAdd(a: U64, b: U64): U64 { if a + b > U64_MAX then U64_MAX else a + b }

  function SatSub(a: U64, b: U64): U64 { if a >= b then a - b else 0 }

  /** A float-to-integer cast: truncates and clamps at both ends. */
  function TruncU64(x: real): U64
  {
    if x <= 0.0 then 0
    else if x >= U64_MAX as real then U64_MAX
    else x.Floor
  }

  function Product(x: real, factor: real): real { x * factor }

  lemma ProductShrinks(x: real, factor: real)
    requires 0.0 <= x && factor <= 1.0
    ensures Product(x, factor) <= x
    ensures 0.0 <= factor ==> 0.0 <= Product(x, factor)
  {
    assert x * (1.0 - factor) >= 0.0;
    assert x * factor == x - x * (1.0 - factor);
  }

  lemma TruncBelow(x: real, bound: U64)
    requires x <= bound as real
    ensures TruncU64(x) <= bound
  {
  }

  // ── saturating sums ──────────────────────────────────────────────────────

  /** Left fold of saturating addition. */
  function SumKb(xs: seq<Kb>): Kb
  {
    if |xs| == 0 then 0 else SatAdd(SumKb(xs[..|xs| - 1]), xs[|xs| - 1])
  }

  ghost function Total(xs: seq<nat>): nat
  {
    if |xs| == 0 then 0 else Total(xs[..|xs| - 1]) + xs[|xs| - 1]
  }

  /** Saturating at every step is saturating once at the end. */
  lemma {:induction false} SumSaturatesOnce(xs: seq<Kb>)
    ensures SumKb(xs) == if Total(xs) > U64_MAX then U64_MAX else Total(xs)
  {
    if |xs| == 0 {
    } else {
      SumSaturatesOnce(xs[..|xs| - 1]);
    }
  }

  lemma {:induction false} TotalAppend(xs: seq<nat>, ys: seq<nat>)
    ensures Total(xs + ys) == Total(xs) + Total(ys)
  {
    if |ys| == 0 {
      assert xs + ys == xs;
    } else {
      TotalAppend(xs, ys[..|ys| - 1]);
      assert (xs + ys)[..|xs + ys| - 1] == xs + ys[..|ys| - 1];
    }
  }

  lemma {:induction false} TotalOfPermutation(xs: seq<nat>, ys: seq<nat>)
    requires multiset(xs) == multiset(ys)
    ensures Total(xs) == Total(ys)
  {
    if |xs| == 0 {
      assert |multiset(ys)| == 0;
    } else {
      var n := |xs| - 1;
      var x := xs[n];
      assert xs == xs[..n] + [x];
      assert x in multiset(ys);
      var k :| 0 <= k < |ys| && ys[k] == x;
      var rest := ys[..k] + ys[k + 1..];
      assert ys == ys[..k] + [x] + ys[k + 1..];
      assert multiset(xs[..n]) == multiset(rest) by {
        assert multiset(xs) == multiset(xs[..n]) + multiset{x};
        assert multiset(ys) == multiset(rest) + multiset{x};
        assert multiset(xs[..n]) == multiset(xs) - multiset{x};
      }
      TotalOfPermutation(xs[..n], rest);
      TotalAppend(ys[..k], [x]);
      TotalAppend(ys[..k] + [x], ys[k + 1..]);
      TotalAppend(ys[..k], ys[k + 1..]);
    }
  }

  /** A sum over a hash map's values does not depend on the iteration order. */
  lemma SumIsOrderFree(xs: seq<Kb>, ys: seq<Kb>)
    requires multiset(xs) == multiset(ys)
    ensures SumKb(xs) == SumKb(ys)
  {
    TotalOfPermutation(xs, ys);
    SumSaturatesOnce(xs);
    SumSaturatesOnce(ys);
  }

  /** The sum dominates every term, whatever saturates. */
  lemma {:induction false} SumDominates(xs: seq<Kb>, k: nat)
    requires k < |xs|
    ensures SumKb(xs) >= xs[k]
  {
    if k < |xs| - 1 {
      SumDominates(xs[..|xs| - 1], k);
    }
  }
}
