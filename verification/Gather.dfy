/** bounded_gather (letta/utils.py:1493-1543) as a protocol: n coroutines behind a semaphore,
    acquired and released in any interleaving, and the sort that restores input order. */
module Gather {

  datatype Phase = Waiting | Running | Finished

  /** The phase of every task, the free permits, and the order in which results came. */
  datatype State = State(phases: seq<Phase>, permits: int, done: seq<nat>)

  function Init(n: nat, maxConcurrency: nat): State {
    State(seq(n, i => Waiting), maxConcurrency, [])
  }

  /** A task enters the semaphore's block. */
  ghost predicate Acquires(s: State, t: State, i: nat) {
    && i < |s.phases| && s.phases[i] == Waiting && s.permits > 0
    && t == State(s.phases[i := Running], s.permits - 1, s.done)
  }

  /** A running coroutine returns, and its task leaves the block. */
  ghost predicate Releases(s: State, t: State, i: nat) {
    && i < |s.phases| && s.phases[i] == Running
    && t == State(s.phases[i := Finished], s.permits + 1, s.done + [i])
  }

  ghost predicate Next(s: State, t: State) {
    exists i: nat :: Acquires(s, t, i) || Releases(s, t, i)
  }

  /** A run: some interleaving of steps from the start. */
  ghost predicate IsRun(n: nat, maxConcurrency: nat, run: seq<State>) {
    && run != [] && run[0] == Init(n, maxConcurrency)
    && forall k :: 0 <= k < |run| - 1 ==> Next(run[k], run[k + 1])
  }

  function Count(phases: seq<Phase>, p: Phase): (c: nat)
    ensures c <= |phases|
  {
    if phases == [] then 0 else Count(phases[..|phases| - 1], p) + if phases[|phases| - 1] == p then 1 else 0
  }

  lemma {:induction false} CountUpdate(phases: seq<Phase>, i: nat, to: Phase, p: Phase)
    requires i < |phases|
    ensures Count(phases[i := to], p) == Count(phases, p) - (if phases[i] == p then 1 else 0) + (if to == p then 1 else 0)
    decreases phases
  {
    var n := |phases| - 1;
    var updated := phases[i := to];
    if i < n {
      assert updated[..n] == phases[..n][i := to];
      CountUpdate(phases[..n], i, to, p);
    } else {
      assert updated[..n] == phases[..n];
    }
  }

  lemma {:induction false} CountPositive(phases: seq<Phase>, p: Phase)
    ensures Count(phases, p) > 0 <==> p in phases
  {
    if phases != [] {
      var n := |phases| - 1;
      CountPositive(phases[..n], p);
      assert phases == phases[..n] + [phases[n]];
    }
  }

  lemma {:induction false} CountInit(n: nat, p: Phase)
    ensures Count(seq(n, i => Waiting), p) == if p == Waiting then n else 0
  {
    if n > 0 {
      assert seq(n, i => Waiting)[..n - 1] == seq(n - 1, i => Waiting);
      CountInit(n - 1, p);
    }
  }

  /** How many steps are left. */
  function Remaining(s: State): nat { 2 * Count(s.phases, Waiting) + Count(s.phases, Running) }

  ghost predicate Inv(n: nat, maxConcurrency: nat, s: State) {
    && |s.phases| == n
    && s.permits >= 0 && Count(s.phases, Running) + s.permits == maxConcurrency
    && (forall a, b :: 0 <= a < b < |s.done| ==> s.done[a] != s.done[b])
    && (forall i: nat :: i in s.done <==> i < n && s.phases[i] == Finished)
  }

  lemma StepKeepsInv(n: nat, maxConcurrency: nat, s: State, t: State)
    requires Inv(n, maxConcurrency, s) && Next(s, t)
    ensures Inv(n, maxConcurrency, t) && Remaining(t) == Remaining(s) - 1
  {
    var i: nat :| Acquires(s, t, i) || Releases(s, t, i);
    CountUpdate(s.phases, i, t.phases[i], Running);
    CountUpdate(s.phases, i, t.phases[i], Waiting);
    if Releases(s, t, i) {
      assert t.done[|s.done|] == i;
      assert forall j: nat :: j in t.done <==> j in s.done || j == i;
    }
  }

  /** In every reachable state running tasks and free permits add up to the limit, so no more
      than the limit ever run; and every step brings the end one nearer. */
  lemma {:induction false} NeverMoreThanLimit(n: nat, maxConcurrency: nat, run: seq<State>, k: nat)
    requires IsRun(n, maxConcurrency, run) && k < |run|
    ensures Inv(n, maxConcurrency, run[k])
    ensures Count(run[k].phases, Running) + run[k].permits == maxConcurrency
    ensures Count(run[k].phases, Running) <= maxConcurrency
    ensures Remaining(run[k]) + k == 2 * n
    decreases k
  {
    if k == 0 {
      CountInit(n, Running);
      CountInit(n, Waiting);
    } else {
      NeverMoreThanLimit(n, maxConcurrency, run, k - 1);
      StepKeepsInv(n, maxConcurrency, run[k - 1], run[k]);
    }
  }

  ghost predicate Stuck(s: State) { forall t: State :: !Next(s, t) }

  predicate AllFinished(s: State) { forall p <- s.phases :: p == Finished }

  /** A reachable state that no step leaves is the end, unless there is no permit at all. */
  lemma StuckExactly(n: nat, maxConcurrency: nat, run: seq<State>)
    requires IsRun(n, maxConcurrency, run)
    ensures var last := run[|run| - 1];
            Stuck(last) <==> AllFinished(last) || maxConcurrency == 0
  {
    var last := run[|run| - 1];
    NeverMoreThanLimit(n, maxConcurrency, run, |run| - 1);
    CountPositive(last.phases, Running);
    if !AllFinished(last) && maxConcurrency > 0 {
      if Running in last.phases {
        var i :| 0 <= i < n && last.phases[i] == Running;
        var t := State(last.phases[i := Finished], last.permits + 1, last.done + [i]);
        assert Releases(last, t, i) && Next(last, t);
      } else {
        var i :| 0 <= i < n && last.phases[i] != Finished;
        assert last.phases[i] in last.phases;
        var t := State(last.phases[i := Running], last.permits - 1, last.done);
        assert Acquires(last, t, i) && Next(last, t);
      }
    } else {
      assert forall i :: 0 <= i < n ==> last.phases[i] in last.phases;
      assert forall t: State, i: nat :: !Acquires(last, t, i) && !Releases(last, t, i);
    }
  }

  /** Every task has come back, once. */
  predicate AllBack(n: nat, done: seq<nat>) {
    && (forall a, b :: 0 <= a < b < |done| ==> done[a] != done[b])
    && (forall i <- done :: i < n)
    && (forall i :: 0 <= i < n ==> i in done)
  }

  /** Every schedule ends after exactly 2 * n steps, with every result there once. */
  lemma RunsEnd(n: nat, maxConcurrency: nat, run: seq<State>)
    requires IsRun(n, maxConcurrency, run) && maxConcurrency > 0
    ensures |run| - 1 <= 2 * n
    ensures Stuck(run[|run| - 1]) <==> |run| - 1 == 2 * n
    ensures Stuck(run[|run| - 1]) ==> AllBack(n, run[|run| - 1].done)
  {
    var last := run[|run| - 1];
    NeverMoreThanLimit(n, maxConcurrency, run, |run| - 1);
    StuckExactly(n, maxConcurrency, run);
    CountPositive(last.phases, Running);
    CountPositive(last.phases, Waiting);
    if AllFinished(last) {
      forall i: nat | i < n ensures i in last.done { assert last.phases[i] in last.phases; }
    } else {
      var p :| p in last.phases && p != Finished;
    }
  }

  // ---------------------------------------------------------------------- the sort

  /** What list.sort(key=index) may return for the gathered (index, result) pairs. */
  ghost predicate IsSortOf<T>(pairs: seq<(nat, T)>, sorted: seq<(nat, T)>) {
    && multiset(sorted) == multiset(pairs)
    && forall a, b :: 0 <= a < b < |sorted| ==> sorted[a].0 <= sorted[b].0
  }

  function Results<T>(pairs: seq<(nat, T)>): (r: seq<T>)
    ensures |r| == |pairs|
  {
    seq(|pairs|, k requires 0 <= k < |pairs| => pairs[k].1)
  }

  /** The pairs of index and result, as they were collected. */
  ghost predicate ArePairs<T>(done: seq<nat>, results: seq<T>, pairs: seq<(nat, T)>) {
    && |pairs| == |done|
    && forall k :: 0 <= k < |done| ==> done[k] < |results| && pairs[k] == (done[k], results[done[k]])
  }

  ghost predicate IsCollected<T>(done: seq<nat>, results: seq<T>, pairs: seq<(nat, T)>) {
    AllBack(|results|, done) && ArePairs(done, results, pairs)
  }

  lemma {:induction false} DistinctOnce<T>(s: seq<T>, x: T)
    requires forall a, b :: 0 <= a < b < |s| ==> s[a] != s[b]
    ensures multiset(s)[x] <= 1
    decreases s
  {
    if s != [] {
      var n := |s| - 1;
      DistinctOnce(s[..n], x);
      assert s == s[..n] + [s[n]];
      if s[n] == x { assert x !in s[..n]; }
    }
  }

  lemma TwiceTwice<T>(s: seq<T>, a: nat, b: nat)
    requires a < b < |s| && s[a] == s[b]
    ensures multiset(s)[s[a]] >= 2
  {
    assert s == s[..b] + s[b..];
    assert s[a] == s[..b][a] && s[b] == s[b..][0];
    assert s[a] in s[..b] && s[b] in s[b..];
  }

  lemma {:induction false} RisingFrom(s: seq<nat>, k: nat)
    requires (forall a, b :: 0 <= a < b < |s| ==> s[a] < s[b]) && k < |s|
    ensures k <= s[k]
  {
    if k > 0 { RisingFrom(s, k - 1); }
  }

  lemma {:induction false} RisingTo(s: seq<nat>, n: nat, k: nat)
    requires (forall a, b :: 0 <= a < b < |s| ==> s[a] < s[b]) && (forall i <- s :: i < n) && k < |s|
    ensures s[k] + (|s| - k) <= n
    decreases |s| - k
  {
    assert s[k] in s;
    if k < |s| - 1 { RisingTo(s, n, k + 1); }
  }

  function Below(n: nat): (r: set<nat>)
    ensures forall i: nat :: i in r <==> i < n
    ensures |r| == n
  {
    if n == 0 then {} else Below(n - 1) + {n - 1}
  }

  lemma AllBackCount(n: nat, done: seq<nat>)
    requires AllBack(n, done)
    ensures |done| == n
  {
    DistinctCard(done);
    assert SetOf(done) == Below(n);
  }

  function SetOf<T>(s: seq<T>): set<T> { set x <- s }

  lemma {:induction false} DistinctCard<T>(s: seq<T>)
    requires forall a, b :: 0 <= a < b < |s| ==> s[a] != s[b]
    ensures |SetOf(s)| == |s|
  {
    if s != [] {
      var n := |s| - 1;
      DistinctCard(s[..n]);
      assert s == s[..n] + [s[n]];
      assert SetOf(s) == SetOf(s[..n]) + {s[n]};
    }
  }

  lemma SortRises<T>(done: seq<nat>, results: seq<T>, pairs: seq<(nat, T)>, sorted: seq<(nat, T)>, a: nat, b: nat)
    requires IsCollected(done, results, pairs) && IsSortOf(pairs, sorted) && a < b < |sorted|
    ensures sorted[a].0 < sorted[b].0
  {
    assert sorted[a] in multiset(sorted) && sorted[b] in multiset(sorted);
    assert sorted[a] in pairs && sorted[b] in pairs;
    if sorted[a].0 == sorted[b].0 {
      assert sorted[a] == sorted[b];
      TwiceTwice(sorted, a, b);
      DistinctOnce(pairs, sorted[a]);
    }
  }

  /** In whatever order the results came, the sorted list holds them in input order. */
  lemma ResultsInInputOrder<T>(done: seq<nat>, results: seq<T>, pairs: seq<(nat, T)>, sorted: seq<(nat, T)>)
    requires IsCollected(done, results, pairs) && IsSortOf(pairs, sorted)
    ensures Results(sorted) == results
  {
    var n := |results|;
    AllBackCount(n, done);
    assert |multiset(sorted)| == |multiset(pairs)|;
    var keys := seq(n, k requires 0 <= k < |sorted| => sorted[k].0);
    forall a, b | 0 <= a < b < n ensures keys[a] < keys[b] { SortRises(done, results, pairs, sorted, a, b); }
    forall k | 0 <= k < n ensures keys[k] < n && sorted[k].1 == results[keys[k]] {
      assert sorted[k] in multiset(sorted);
      assert sorted[k] in pairs;
    }
    forall k | 0 <= k < n ensures sorted[k].1 == results[k] {
      RisingFrom(keys, k);
      RisingTo(keys, n, k);
    }
  }

  /** With a permit, the results of any run that is over, sorted by index, are in input order. */
  lemma GatherInInputOrder<T>(maxConcurrency: nat, run: seq<State>, results: seq<T>, pairs: seq<(nat, T)>, sorted: seq<(nat, T)>)
    requires IsRun(|results|, maxConcurrency, run) && maxConcurrency > 0 && Stuck(run[|run| - 1])
    requires ArePairs(run[|run| - 1].done, results, pairs) && IsSortOf(pairs, sorted)
    ensures Results(sorted) == results
  {
    RunsEnd(|results|, maxConcurrency, run);
    ResultsInInputOrder(run[|run| - 1].done, results, pairs, sorted);
  }
}
