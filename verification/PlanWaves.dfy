/**
 Scheduling of build steps: the dependency relation between steps and the waves it falls into.
 */
module PlanWaves {
  import opened Common

  datatype Step = Step(id: string, phase: string, command: seq<string>, dependsOn: seq<string>)

  datatype PlanResult = Waves(waves: seq<seq<nat>>) | UnknownDependency | Cycle

  /** Steps are found by id; of several steps with one id the last is meant. */
  function IndexOf(steps: seq<Step>, id: string): (i: Option<nat>)
    ensures i.Some? ==> i.value < |steps| && steps[i.value].id == id
  {
    if steps == [] then None
    else if steps[|steps| - 1].id == id then Some(|steps| - 1)
    else IndexOf(steps[..|steps| - 1], id)
  }

  predicate Unknown(steps: seq<Step>) {
    exists i :: 0 <= i < |steps| && !Known(steps, i)
  }

  predicate Known(steps: seq<Step>, i: nat)
    requires i < |steps|
  {
    forall dep :: dep in steps[i].dependsOn ==> IndexOf(steps, dep).Some?
  }

  /** The indices a step depends on. */
  function Deps(steps: seq<Step>, i: nat): (deps: set<nat>)
    requires i < |steps|
    ensures forall d :: d in deps ==> d < |steps|
  {
    set dep | dep in steps[i].dependsOn && IndexOf(steps, dep).Some? :: IndexOf(steps, dep).value
  }

  /** Step `i` waits for step `d`. */
  predicate Edge(steps: seq<Step>, i: nat, d: nat) {
    i < |steps| && d in Deps(steps, i)
  }

  lemma {:induction false} IndexIsLast(steps: seq<Step>, id: string, k: nat)
    requires k < |steps| && steps[k].id == id
    ensures IndexOf(steps, id).Some? && k <= IndexOf(steps, id).value
    decreases |steps|
  {
    if steps[|steps| - 1].id != id {
      IndexIsLast(steps[..|steps| - 1], id, k);
    }
  }

  /** A step waits for the last step of each id that it names. */
  lemma EdgeExactly(steps: seq<Step>, i: nat, d: nat)
    ensures Edge(steps, i, d) <==>
      && i < |steps| && d < |steps| && steps[d].id in steps[i].dependsOn
      && forall k :: d < k < |steps| ==> steps[k].id != steps[d].id
  {
    forall dep, k | 0 <= k < |steps| && steps[k].id == dep
      ensures IndexOf(steps, dep).Some? && k <= IndexOf(steps, dep).value
    {
      IndexIsLast(steps, dep, k);
    }
  }

  /** The plan is refused for an unknown dependency exactly when a step names an id that no step has. */
  lemma UnknownExactly(steps: seq<Step>)
    ensures Plan(steps) == UnknownDependency <==>
      exists i, dep :: 0 <= i < |steps| && dep in steps[i].dependsOn
                       && forall k :: 0 <= k < |steps| ==> steps[k].id != dep
  {
    if i, dep :| 0 <= i < |steps| && dep in steps[i].dependsOn && forall k :: 0 <= k < |steps| ==> steps[k].id != dep {
      assert !Known(steps, i);
    }
    if Unknown(steps) {
      var i :| 0 <= i < |steps| && !Known(steps, i);
      var dep :| dep in steps[i].dependsOn && IndexOf(steps, dep).None?;
      forall k | 0 <= k < |steps| ensures steps[k].id != dep {
        if steps[k].id == dep {
          IndexIsLast(steps, dep, k);
        }
      }
    }
  }

  /** A dependency chain: each index depends on the one after it. */
  ghost predicate IsChain(steps: seq<Step>, chain: seq<nat>) {
    && |chain| > 0 && chain[0] < |steps|
    && (|chain| > 1 ==> Edge(steps, chain[0], chain[1]) && IsChain(steps, chain[1..]))
  }

  ghost predicate HasCycle(steps: seq<Step>) {
    exists chain :: IsChain(steps, chain) && |chain| > 1 && chain[0] == chain[|chain| - 1]
  }

  /** `depth` is the number of dependencies on the longest chain from step `i`. */
  ghost predicate LongestChain(steps: seq<Step>, i: nat, depth: nat) {
    && (exists chain :: IsChain(steps, chain) && chain[0] == i && |chain| == depth + 1)
    && (forall chain :: IsChain(steps, chain) && chain[0] == i ==> |chain| <= depth + 1)
  }

  // ---------------------------------------------------------------------------
  // Waves as a function
  // ---------------------------------------------------------------------------

  predicate IsReady(steps: seq<Step>, done: set<nat>, i: nat)
    requires i < |steps|
  {
    i !in done && Deps(steps, i) <= done
  }

  /** The ready indices below `n`, in order. */
  function Ready(steps: seq<Step>, done: set<nat>, n: nat): (ready: seq<nat>)
    requires n <= |steps|
    ensures forall i: nat :: i in ready <==> i < n && IsReady(steps, done, i)
    ensures Ascending(ready)
  {
    if n == 0 then []
    else
      var below := Ready(steps, done, n - 1);
      assert forall k :: 0 <= k < |below| ==> below[k] in below;
      if IsReady(steps, done, n - 1) then below + [n - 1] else below
  }

  predicate Ascending(s: seq<nat>) { forall j, k :: 0 <= j < k < |s| ==> s[j] < s[k] }

  function SetOf(s: seq<nat>): set<nat> { set i | i in s }

  function Remaining(steps: seq<Step>, done: set<nat>): set<nat> {
    set i: nat | i < |steps| && i !in done
  }

  function WavesFrom(steps: seq<Step>, done: set<nat>): Option<seq<seq<nat>>>
    decreases Remaining(steps, done)
  {
    if Remaining(steps, done) == {} then Some([])
    else
      var ready := Ready(steps, done, |steps|);
      if ready == [] then None
      else
        var next := done + SetOf(ready);
        assert ready[0] in ready && ready[0] in Remaining(steps, done) && ready[0] !in Remaining(steps, next);
        match WavesFrom(steps, next)
        case None => None
        case Some(rest) => Some([ready] + rest)
  }

  function Plan(steps: seq<Step>): PlanResult {
    if Unknown(steps) then UnknownDependency
    else match WavesFrom(steps, {})
      case None => Cycle
      case Some(waves) => Waves(waves)
  }

  // ---------------------------------------------------------------------------
  // What the waves are
  // ---------------------------------------------------------------------------

  predicate InWave(waves: seq<seq<nat>>, w: nat, i: nat) {
    w < |waves| && i in waves[w]
  }

  ghost predicate Placed(waves: seq<seq<nat>>, i: nat) {
    exists w: nat :: InWave(waves, w, i)
  }

  ghost predicate Before(waves: seq<seq<nat>>, w: nat, i: nat) {
    exists v: nat :: v < w && InWave(waves, v, i)
  }

  /** A step waits only for what is done or in an earlier wave, and for something in the wave just before. */
  ghost predicate Fits(steps: seq<Step>, done: set<nat>, waves: seq<seq<nat>>, w: nat, i: nat) {
    && i < |steps| && i !in done
    && (forall d :: Edge(steps, i, d) ==> d in done || Before(waves, w, d))
    && (w > 0 ==> exists d :: Edge(steps, i, d) && InWave(waves, w - 1, d))
  }

  ghost predicate Layers(steps: seq<Step>, done: set<nat>, waves: seq<seq<nat>>) {
    && (forall w: nat, i: nat {:trigger Fits(steps, done, waves, w, i)} :: InWave(waves, w, i) ==>
      Fits(steps, done, waves, w, i))
    && (forall w :: 0 <= w < |waves| ==> waves[w] != [] && Ascending(waves[w]))
    && (forall v: nat, w: nat, i: nat :: v < w && InWave(waves, v, i) ==> !InWave(waves, w, i))
    && (forall i: nat :: i < |steps| && i !in done ==> Placed(waves, i))
  }

  lemma FitsCons(steps: seq<Step>, done: set<nat>, ready: seq<nat>, rest: seq<seq<nat>>, w: nat, i: nat)
    requires ready == Ready(steps, done, |steps|) && i !in ready
    requires Fits(steps, done + SetOf(ready), rest, w, i)
    ensures Fits(steps, done, [ready] + rest, w + 1, i)
  {
    var waves := [ready] + rest;
    assert forall v: nat, d: nat :: InWave(rest, v, d) ==> InWave(waves, v + 1, d);
    forall d | Edge(steps, i, d)
      ensures d in done || Before(waves, w + 1, d)
    {
      if d in ready {
        assert InWave(waves, 0, d);
      } else if d !in done {
        assert Before(rest, w, d);
        var v: nat :| v < w && InWave(rest, v, d);
        assert InWave(waves, v + 1, d);
      }
    }
    if w == 0 {
      assert !IsReady(steps, done, i);
      var d :| d in Deps(steps, i) && d !in done;
      assert Edge(steps, i, d) && InWave(waves, 0, d);
    } else {
      var d :| Edge(steps, i, d) && InWave(rest, w - 1, d);
      assert InWave(waves, w, d);
    }
  }

  lemma FitsHead(steps: seq<Step>, done: set<nat>, ready: seq<nat>, rest: seq<seq<nat>>, w: nat, i: nat)
    requires ready == Ready(steps, done, |steps|)
    requires Layers(steps, done + SetOf(ready), rest) && InWave([ready] + rest, w, i)
    ensures Fits(steps, done, [ready] + rest, w, i)
    ensures w > 0 ==> InWave(rest, w - 1, i) && i !in ready
  {
    if w > 0 {
      assert InWave(rest, w - 1, i) && Fits(steps, done + SetOf(ready), rest, w - 1, i);
      FitsCons(steps, done, ready, rest, w - 1, i);
    } else {
      assert IsReady(steps, done, i);
    }
  }

  lemma PlacedCons(steps: seq<Step>, done: set<nat>, ready: seq<nat>, rest: seq<seq<nat>>, i: nat)
    requires i in ready || Placed(rest, i)
    ensures Placed([ready] + rest, i)
  {
    var waves := [ready] + rest;
    if i in ready {
      assert InWave(waves, 0, i);
    } else {
      var w: nat :| InWave(rest, w, i);
      assert InWave(waves, w + 1, i);
    }
  }

  lemma LayersCons(steps: seq<Step>, done: set<nat>, ready: seq<nat>, rest: seq<seq<nat>>)
    requires ready == Ready(steps, done, |steps|) && ready != []
    requires Layers(steps, done + SetOf(ready), rest)
    ensures Layers(steps, done, [ready] + rest)
  {
    var waves := [ready] + rest;
    forall w: nat, i: nat | InWave(waves, w, i)
      ensures Fits(steps, done, waves, w, i)
    {
      FitsHead(steps, done, ready, rest, w, i);
    }
    forall v: nat, w: nat, i: nat | v < w && InWave(waves, v, i)
      ensures !InWave(waves, w, i)
    {
      if InWave(waves, w, i) {
        FitsHead(steps, done, ready, rest, w, i);
        FitsHead(steps, done, ready, rest, v, i);
      }
    }
    forall i: nat | i < |steps| && i !in done
      ensures Placed(waves, i)
    {
      PlacedCons(steps, done, ready, rest, i);
    }
  }

  lemma {:induction false} WavesAreLayers(steps: seq<Step>, done: set<nat>)
    requires WavesFrom(steps, done).Some?
    ensures Layers(steps, done, WavesFrom(steps, done).value)
    decreases Remaining(steps, done)
  {
    if Remaining(steps, done) == {} {
      assert forall i: nat :: i < |steps| && i !in done ==> i in Remaining(steps, done);
    } else {
      var ready := Ready(steps, done, |steps|);
      var next := done + SetOf(ready);
      assert ready[0] in ready && ready[0] in Remaining(steps, done) && ready[0] !in Remaining(steps, next);
      WavesAreLayers(steps, next);
      LayersCons(steps, done, ready, WavesFrom(steps, next).value);
    }
  }

  // ---------------------------------------------------------------------------
  // Wave numbers are chain lengths
  // ---------------------------------------------------------------------------

  /** Along a chain the wave number falls by at least one per dependency. */
  lemma {:induction false} ChainDescends(steps: seq<Step>, waves: seq<seq<nat>>, chain: seq<nat>, w: nat)
      returns (v: nat)
    requires Layers(steps, {}, waves) && IsChain(steps, chain) && InWave(waves, w, chain[0])
    ensures InWave(waves, v, chain[|chain| - 1]) && v + |chain| - 1 <= w
    decreases |chain|
  {
    if |chain| == 1 {
      v := w;
    } else {
      assert Fits(steps, {}, waves, w, chain[0]) && Before(waves, w, chain[1]);
      var u: nat :| u < w && InWave(waves, u, chain[1]);
      v := ChainDescends(steps, waves, chain[1..], u);
    }
  }

  lemma {:induction false} DeepChain(steps: seq<Step>, waves: seq<seq<nat>>, w: nat, i: nat) returns (chain: seq<nat>)
    requires Layers(steps, {}, waves) && InWave(waves, w, i)
    ensures IsChain(steps, chain) && chain[0] == i && |chain| == w + 1
    decreases w
  {
    chain := [i];
    assert Fits(steps, {}, waves, w, i);
    if w > 0 {
      var d :| Edge(steps, i, d) && InWave(waves, w - 1, d);
      var rest := DeepChain(steps, waves, w - 1, d);
      chain := [i] + rest;
      ChainCons(steps, i, rest);
    }
  }

  /** A step runs in the wave whose number is the length of its longest dependency chain. */
  lemma WaveIsLongestChain(steps: seq<Step>, w: nat, i: nat)
    requires Plan(steps).Waves? && InWave(Plan(steps).waves, w, i)
    ensures LongestChain(steps, i, w)
  {
    var waves := Plan(steps).waves;
    WavesAreLayers(steps, {});
    var deep := DeepChain(steps, waves, w, i);
    forall chain | IsChain(steps, chain) && chain[0] == i
      ensures |chain| <= w + 1
    {
      var v := ChainDescends(steps, waves, chain, w);
    }
  }

  // ---------------------------------------------------------------------------
  // Cycles
  // ---------------------------------------------------------------------------

  predicate Repeats(chain: seq<nat>, j: nat, k: nat) {
    j < k < |chain| && chain[j] == chain[k]
  }

  /** More entries than possible values: some value repeats. */
  lemma {:induction false} Pigeonhole(chain: seq<nat>, bound: set<nat>) returns (j: nat, k: nat)
    requires forall x :: x in chain ==> x in bound
    requires |chain| > |bound|
    ensures Repeats(chain, j, k)
    decreases |chain|
  {
    var n := |chain| - 1;
    var init := chain[..n];
    if chain[n] in init {
      j :| 0 <= j < n && init[j] == chain[n];
      k := n;
    } else {
      assert chain[n] in chain;
      assert forall x :: x in init ==> x in chain;
      j, k := Pigeonhole(init, bound - {chain[n]});
    }
  }

  /** Every index in the set waits for another one in the set. */
  ghost predicate Stuck(steps: seq<Step>, stuck: set<nat>) {
    forall i {:trigger Waits(steps, stuck, i)} :: i in stuck ==> Waits(steps, stuck, i)
  }

  ghost predicate Waits(steps: seq<Step>, stuck: set<nat>, i: nat) {
    i < |steps| && exists d :: Edge(steps, i, d) && d in stuck
  }

  lemma ChainCons(steps: seq<Step>, i: nat, rest: seq<nat>)
    requires IsChain(steps, rest) && Edge(steps, i, rest[0])
    ensures IsChain(steps, [i] + rest)
  {
  }

  lemma {:induction false} StuckChain(steps: seq<Step>, stuck: set<nat>, start: nat, n: nat) returns (chain: seq<nat>)
    requires start in stuck && Stuck(steps, stuck)
    ensures IsChain(steps, chain) && chain[0] == start && |chain| == n + 1
    ensures forall x :: x in chain ==> x in stuck
    decreases n
  {
    chain := [start];
    assert Waits(steps, stuck, start);
    if n > 0 {
      var d :| Edge(steps, start, d) && d in stuck;
      var rest := StuckChain(steps, stuck, d, n - 1);
      chain := [start] + rest;
      ChainCons(steps, start, rest);
    }
  }

  lemma {:induction false} ChainSlice(steps: seq<Step>, chain: seq<nat>, j: nat, k: nat)
    requires IsChain(steps, chain) && j < k <= |chain|
    ensures IsChain(steps, chain[j..k])
    decreases |chain|
  {
    if j > 0 {
      assert chain[j..k] == chain[1..][j - 1..k - 1];
      ChainSlice(steps, chain[1..], j - 1, k - 1);
    } else if k > 1 {
      assert chain[j..k][1..] == chain[1..][0..k - 1];
      ChainSlice(steps, chain[1..], 0, k - 1);
    }
  }

  lemma StuckCycle(steps: seq<Step>, stuck: set<nat>)
    requires stuck != {} && Stuck(steps, stuck)
    ensures HasCycle(steps)
  {
    var start :| start in stuck;
    var chain := StuckChain(steps, stuck, start, |stuck|);
    var j, k := Pigeonhole(chain, stuck);
    ChainSlice(steps, chain, j, k + 1);
    var loop := chain[j..k + 1];
    assert IsChain(steps, loop) && |loop| > 1 && loop[0] == loop[|loop| - 1];
  }

  lemma {:induction false} NoWavesMeansCycle(steps: seq<Step>, done: set<nat>)
    requires WavesFrom(steps, done).None?
    ensures HasCycle(steps)
    decreases Remaining(steps, done)
  {
    var ready := Ready(steps, done, |steps|);
    if ready == [] {
      var stuck := Remaining(steps, done);
      forall i | i in stuck
        ensures Waits(steps, stuck, i)
      {
        assert !IsReady(steps, done, i);
        var d :| d in Deps(steps, i) && d !in done;
        assert Edge(steps, i, d) && d in stuck;
      }
      StuckCycle(steps, stuck);
    } else {
      var next := done + SetOf(ready);
      assert ready[0] in ready && ready[0] in Remaining(steps, done) && ready[0] !in Remaining(steps, next);
      NoWavesMeansCycle(steps, next);
    }
  }

  lemma LayersHaveNoCycle(steps: seq<Step>, waves: seq<seq<nat>>)
    requires Layers(steps, {}, waves)
    ensures !HasCycle(steps)
  {
    forall chain | IsChain(steps, chain) && |chain| > 1
      ensures chain[0] != chain[|chain| - 1]
    {
      assert Placed(waves, chain[0]);
      var w: nat :| InWave(waves, w, chain[0]);
      var v := ChainDescends(steps, waves, chain, w);
    }
  }

  /** A plan is refused as cyclic exactly when its dependency relation has a cycle. */
  lemma CycleReportedExactly(steps: seq<Step>)
    requires !Unknown(steps)
    ensures Plan(steps) == Cycle <==> HasCycle(steps)
  {
    if WavesFrom(steps, {}).None? {
      NoWavesMeansCycle(steps, {});
    } else {
      WavesAreLayers(steps, {});
      LayersHaveNoCycle(steps, WavesFrom(steps, {}).value);
    }
  }

  /** The waves hold every step exactly once. */
  lemma WavesPartition(steps: seq<Step>)
    requires Plan(steps).Waves?
    ensures var waves := Plan(steps).waves;
            && (forall i: nat :: i < |steps| ==> Placed(waves, i))
            && (forall w: nat, i: nat :: InWave(waves, w, i) ==> i < |steps|)
            && (forall v: nat, w: nat, i: nat :: v < w && InWave(waves, v, i) ==> !InWave(waves, w, i))
            && (forall w :: 0 <= w < |waves| ==> waves[w] != [] && Ascending(waves[w]))
  {
    WavesAreLayers(steps, {});
    forall w: nat, i: nat | InWave(Plan(steps).waves, w, i)
      ensures i < |steps|
    {
      assert Fits(steps, {}, Plan(steps).waves, w, i);
    }
  }

  // ---------------------------------------------------------------------------
  // The scheduler's loop
  // ---------------------------------------------------------------------------

  method ComputeWaves(steps: seq<Step>) returns (result: PlanResult)
    ensures result == Plan(steps)
  {
    var deps: seq<set<nat>> := [];
    for i := 0 to |steps|
      invariant |deps| == i && forall j :: 0 <= j < i ==> deps[j] == Deps(steps, j)
      invariant forall j :: 0 <= j < i ==> Known(steps, j)
    {
      if exists dep :: dep in steps[i].dependsOn && IndexOf(steps, dep).None? {
        assert !Known(steps, i);
        return UnknownDependency;
      }
      deps := deps + [Deps(steps, i)];
    }
    var waves: seq<seq<nat>> := [];
    var done: set<nat> := {};
    var remaining := Remaining(steps, done);
    assert WavesFrom(steps, done).Some? ==> [] + WavesFrom(steps, done).value == WavesFrom(steps, done).value;
    while remaining != {}
      invariant remaining == Remaining(steps, done)
      invariant WavesFrom(steps, {}) == Prepend(waves, WavesFrom(steps, done))
      decreases remaining
    {
      var ready := CollectReady(steps, deps, done, remaining);
      if ready == [] {
        return Cycle;
      }
      assert ready[0] in ready && ready[0] in remaining;
      PrependMore(waves, ready, WavesFrom(steps, done + SetOf(ready)));
      waves := waves + [ready];
      done := done + SetOf(ready);
      remaining := remaining - SetOf(ready);
    }
    assert waves + [] == waves;
    return Waves(waves);
  }

  function Prepend(waves: seq<seq<nat>>, rest: Option<seq<seq<nat>>>): Option<seq<seq<nat>>> {
    match rest case None => None case Some(more) => Some(waves + more)
  }

  lemma PrependMore(waves: seq<seq<nat>>, ready: seq<nat>, rest: Option<seq<seq<nat>>>)
    ensures Prepend(waves, Prepend([ready], rest)) == Prepend(waves + [ready], rest)
  {
    if rest.Some? {
      ConcatAssociative(waves, [ready], rest.value);
    }
  }

  method CollectReady(steps: seq<Step>, deps: seq<set<nat>>, done: set<nat>, remaining: set<nat>)
      returns (ready: seq<nat>)
    requires |deps| == |steps| && forall j :: 0 <= j < |steps| ==> deps[j] == Deps(steps, j)
    requires remaining == Remaining(steps, done)
    ensures ready == Ready(steps, done, |steps|)
  {
    ready := [];
    for i := 0 to |steps|
      invariant ready == Ready(steps, done, i)
    {
      if i in remaining && deps[i] <= done {
        ready := ready + [i];
      }
    }
  }
}
