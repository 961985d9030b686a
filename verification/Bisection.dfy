/** The search for the latest commit that integrates cleanly, over any pass or fail per commit. */
module Bisection {
  import opened Wrappers

  // The outcome of integrating the commit at an index, were it tried.
  type Outcomes = nat -> bool

  // The next index to try: either side of it is at most half the range.
  function Mid(low: nat, high: int): (mid: nat)
    requires low <= high
    ensures low <= mid <= high && 2 * (high - mid) <= high - low + 1 && 2 * (mid - low) <= high - low
  {
    low + (high - low) / 2
  }

  // The loop from the second probe on: the last index of the range not known to fail.
  function Search(passes: Outcomes, low: nat, high: int): int
    requires low <= high + 1
    decreases high - low + 1
  {
    if low > high then low - 1
    else
      var mid := Mid(low, high);
      if passes(mid) then Search(passes, mid + 1, high) else Search(passes, low, mid - 1)
  }

  function Probes(passes: Outcomes, low: nat, high: int): seq<nat>
    requires low <= high + 1
    decreases high - low + 1
  {
    if low > high then []
    else
      var mid := Mid(low, high);
      [mid] + (if passes(mid) then Probes(passes, mid + 1, high) else Probes(passes, low, mid - 1))
  }

  // The whole search tries the latest commit first.
  function Best(passes: Outcomes, n: nat): int
    requires n > 0
  {
    if passes(n - 1) then n - 1 else Search(passes, 0, n - 2)
  }

  function Tested(passes: Outcomes, n: nat): seq<nat>
    requires n > 0
  {
    [n - 1] + (if passes(n - 1) then [] else Probes(passes, 0, n - 2))
  }

  function Bits(n: nat): nat { if n == 0 then 0 else 1 + Bits(n / 2) }

  lemma {:induction false} BitsAreMonotone(m: nat, n: nat)
    requires m <= n
    ensures Bits(m) <= Bits(n)
    decreases n
  {
    if m > 0 { BitsAreMonotone(m / 2, n / 2); }
  }

  // One step of both, so that proofs need not unfold them further.
  lemma Step(passes: Outcomes, low: nat, high: int)
    requires low <= high
    ensures var mid := Mid(low, high);
      && Search(passes, low, high) == (if passes(mid) then Search(passes, mid + 1, high) else Search(passes, low, mid - 1))
      && Probes(passes, low, high) == [mid] + (if passes(mid) then Probes(passes, mid + 1, high) else Probes(passes, low, mid - 1))
  {
  }

  lemma Stop(passes: Outcomes, low: nat)
    ensures Search(passes, low, low - 1) == low - 1 && Probes(passes, low, low - 1) == []
  {
  }

  // ---------- What the search finds ----------

  // The edge: the last commit before a failure that was tried, tried itself unless it lies before the range.
  ghost predicate Edge(passes: Outcomes, low: nat, high: int, b: int, tried: seq<nat>) {
    && low - 1 <= b <= high
    && (b >= low ==> passes(b) && b in tried)
    && (b < high ==> !passes(b + 1) && b + 1 in tried)
  }

  lemma {:induction false} SearchFindsEdge(passes: Outcomes, low: nat, high: int)
    requires low <= high + 1
    ensures Edge(passes, low, high, Search(passes, low, high), Probes(passes, low, high))
    decreases high - low + 1
  {
    hide Search, Probes, Mid;
    if low <= high {
      var mid: int := Mid(low, high);
      Step(passes, low, high);
      if passes(mid) { SearchFindsEdge(passes, mid + 1, high); } else { SearchFindsEdge(passes, low, mid - 1); }
    } else {
      Stop(passes, low);
    }
  }

  ghost predicate Distinct(s: seq<nat>) { forall i, j :: 0 <= i < j < |s| ==> s[i] != s[j] }

  ghost predicate Within(s: seq<nat>, low: nat, high: int) { forall i :: 0 <= i < |s| ==> low <= s[i] <= high }

  lemma HalfHasOneBitLess(n: nat, half: nat)
    requires n > 0 && 2 * half <= n
    ensures Bits(half) + 1 <= Bits(n)
  {
    BitsAreMonotone(half, n / 2);
  }

  /** Probes lie in the range, none twice, and there are at most as many as the length has bits. */
  lemma {:induction false} ProbesAreFew(passes: Outcomes, low: nat, high: int)
    requires low <= high + 1
    ensures var ps := Probes(passes, low, high);
            Within(ps, low, high) && Distinct(ps) && |ps| <= Bits(high - low + 1)
    decreases high - low + 1
  {
    hide Search, Probes, Mid, Bits;
    if low <= high {
      var mid := Mid(low, high);
      Step(passes, low, high);
      if passes(mid) {
        ProbesAreFew(passes, mid + 1, high);
        HalfHasOneBitLess(high - low + 1, high - mid);
      } else {
        ProbesAreFew(passes, low, mid - 1);
        HalfHasOneBitLess(high - low + 1, mid - low);
      }
    } else {
      Stop(passes, low);
    }
  }

  /** For any outcomes, monotone or not: every commit is tried at most once, logarithmically many are,
      the best commit passed and its successor was tried and failed, unless an end is reached. */
  lemma BisectionIsSound(passes: Outcomes, n: nat)
    requires n > 0
    ensures var b, tested := Best(passes, n), Tested(passes, n);
      && Distinct(tested) && |tested| <= 1 + Bits(n - 1)
      && -1 <= b < n
      && (b >= 0 ==> passes(b) && b in tested)
      && (b < n - 1 ==> !passes(b + 1) && b + 1 in tested)
  {
    hide Search, Probes, Bits;
    if !passes(n - 1) {
      SearchFindsEdge(passes, 0, n - 2);
      ProbesAreFew(passes, 0, n - 2);
    }
  }

  // ---------- When it finds the latest ----------

  ghost predicate IsLatest(passes: Outcomes, n: nat, m: nat) {
    m < n && passes(m) && forall i :: m < i < n ==> !passes(i)
  }

  // The indices probed on the way to m, which depend on m and the range only.
  function Path(low: nat, high: int, m: int): seq<nat>
    requires low <= high + 1
    decreases high - low + 1
  {
    if low > high then []
    else
      var mid := Mid(low, high);
      [mid] + (if mid <= m then Path(mid + 1, high, m) else Path(low, mid - 1, m))
  }

  // The commits before m that the search would try on its way there all pass.
  ghost predicate PathIsClear(passes: Outcomes, low: nat, high: int, m: int)
    requires low <= high + 1
  {
    forall p :: p in Path(low, high, m) && p <= m ==> passes(p)
  }

  lemma {:induction false} SearchReachesIff(passes: Outcomes, low: nat, high: int, m: int)
    requires low <= high + 1 && low - 1 <= m <= high
    requires forall i :: m < i <= high ==> !passes(i)
    ensures Search(passes, low, high) == m <==> PathIsClear(passes, low, high, m)
    decreases high - low + 1
  {
    hide Search, Probes, Path, Mid;
    if low <= high {
      var mid := Mid(low, high);
      Step(passes, low, high);
      PathStep(low, high, m);
      if mid > m {
        SearchReachesIff(passes, low, mid - 1, m);
      } else if passes(mid) {
        SearchReachesIff(passes, mid + 1, high, m);
      } else {
        SearchFindsEdge(passes, low, mid - 1);
        assert mid in Path(low, high, m);
      }
    } else {
      Stop(passes, low);
      PathStop(low, m);
    }
  }

  lemma PathStep(low: nat, high: int, m: int)
    requires low <= high
    ensures var mid := Mid(low, high);
            Path(low, high, m) == [mid] + (if mid <= m then Path(mid + 1, high, m) else Path(low, mid - 1, m))
  {
  }

  lemma PathStop(low: nat, m: int)
    ensures Path(low, low - 1, m) == []
  {
  }

  /** The latest passing commit is found exactly when every commit before it on the way to it passes. */
  lemma FindsLatestIff(passes: Outcomes, n: nat, m: nat)
    requires n > 0 && IsLatest(passes, n, m)
    ensures Best(passes, n) == m <==> m == n - 1 || PathIsClear(passes, 0, n - 2, m)
  {
    if m < n - 1 { SearchReachesIff(passes, 0, n - 2, m); }
  }

  /** In particular when outcomes are monotone: once a commit fails all later ones do. */
  lemma MonotoneFindsLatest(passes: Outcomes, n: nat)
    requires n > 0 && forall i, j :: 0 <= i <= j < n && passes(j) ==> passes(i)
    ensures forall i :: 0 <= i < n ==> (passes(i) <==> i <= Best(passes, n))
  {
    BisectionIsSound(passes, n);
  }

  /** Of four commits of which the first and the third pass, the first is reported. */
  lemma LatestCanBeMissed(passes: Outcomes)
    requires passes(0) && !passes(1) && passes(2) && !passes(3)
    ensures IsLatest(passes, 4, 2) && Best(passes, 4) == 0
  {
    assert Search(passes, 1, 0) == 0 && Search(passes, 0, 0) == 0;
  }

  // ---------- The loop ----------

  /** FIND_LATEST_TRIVIAL_MERGE: the best commit, the first that does not integrate cleanly, and the
      indices tried, in order. */
  method FindLatestTrivialMerge(commits: seq<string>, passes: Outcomes)
    returns (best: Option<string>, firstNonTrivial: Option<string>, tested: seq<nat>)
    requires commits != [] && forall i, j :: 0 <= i < j < |commits| ==> commits[i] != commits[j]
    ensures tested == Tested(passes, |commits|)
    ensures var b := Best(passes, |commits|);
      && -1 <= b < |commits|
      && best == (if b < 0 then None else Some(commits[b]))
      && firstNonTrivial == (if b == |commits| - 1 then None else Some(commits[b + 1]))
  {
    hide Search, Probes, Bits;
    var n := |commits|;
    var low, high: int := 0, n - 1;
    var index := high;
    best, firstNonTrivial, tested := None, None, [];
    BisectionIsSound(passes, n);
    while low <= high
      invariant 0 <= low <= high + 1 <= n
      invariant tested == [] ==> low == 0 && high == n - 1 && index == n - 1
      invariant tested != [] ==> InLoop(passes, n, low, high, tested) && (low <= high ==> index == Mid(low, high))
      invariant best == if low == 0 then None else Some(commits[low - 1])
      invariant high < n - 1 ==> firstNonTrivial == Some(commits[high + 1])
      decreases high - low + 1
    {
      if tested == [] {
        Enter(passes, n);
      } else {
        Continue(passes, n, low, high, tested);
      }
      tested := tested + [index];
      if passes(index) {
        best := Some(commits[index]);
        low := index + 1;
      } else {
        firstNonTrivial := Some(commits[index]);
        high := index - 1;
      }
      index := low + (high - low) / 2;
    }
    Leave(passes, n, low, tested);
    if best.None? {
      firstNonTrivial := Some(commits[0]);
    } else if best.value == commits[n - 1] {
      best := Some(commits[n - 1]);
      firstNonTrivial := None;
    }
  }

  // After the first probe: what was tried and what is left make up the whole search.
  ghost predicate InLoop(passes: Outcomes, n: nat, low: nat, high: int, tested: seq<nat>) {
    n > 0 && low <= high + 1 &&
    if passes(n - 1) then low == n && high == n - 1 && tested == [n - 1]
    else Best(passes, n) == Search(passes, low, high) && Tested(passes, n) == tested + Probes(passes, low, high)
  }

  lemma Enter(passes: Outcomes, n: nat)
    requires n > 0
    ensures if passes(n - 1) then InLoop(passes, n, n, n - 1, [n - 1]) else InLoop(passes, n, 0, n - 2, [n - 1])
  {
  }

  lemma Continue(passes: Outcomes, n: nat, low: nat, high: int, tested: seq<nat>)
    requires InLoop(passes, n, low, high, tested) && low <= high
    ensures var mid := Mid(low, high);
            if passes(mid) then InLoop(passes, n, mid + 1, high, tested + [mid]) else InLoop(passes, n, low, mid - 1, tested + [mid])
  {
    hide Search, Probes, Mid;
    Step(passes, low, high);
  }

  lemma Leave(passes: Outcomes, n: nat, low: nat, tested: seq<nat>)
    requires InLoop(passes, n, low, low - 1, tested)
    ensures Best(passes, n) == low - 1 && Tested(passes, n) == tested
  {
    hide Search, Probes;
    Stop(passes, low);
  }
}
