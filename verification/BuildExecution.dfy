/**
 The build executor: waves run one after another, the steps of one wave in any interleaving,
 and nothing later starts once a step has failed or the build is cancelled.
 */
module BuildExecution {
  import opened PlanWaves

  /** A step returns an exit code, perhaps after being cancelled, or its runner raises. */
  datatype StepOutcome = Returned(code: int, cancelled: bool) | Raised

  datatype StepStatus = Pending | Running | Success | Failed | Cancelled

  datatype TraceEvent = Started(step: nat) | Finished(step: nat, outcome: StepOutcome)

  datatype RunResult = Completed | BuildCancelled | BuildFailed | StepRaised | PlanInvalid

  predicate Succeeded(o: StepOutcome) { o == Returned(0, false) }

  function StatusOf(o: StepOutcome): StepStatus {
    match o
    case Returned(code, cancelled) => if cancelled then Cancelled else if code == 0 then Success else Failed
    case Raised => Running
  }

  // ---------------------------------------------------------------------------
  // The order of a trace
  // ---------------------------------------------------------------------------

  /** An event comes before position `p` of the trace. */
  ghost predicate Earlier(trace: seq<TraceEvent>, p: nat, e: TraceEvent) {
    exists q :: 0 <= q < p && q < |trace| && trace[q] == e
  }

  /** Step `d` had returned 0 before position `p` of the trace. */
  ghost predicate ReturnedZero(trace: seq<TraceEvent>, p: nat, d: nat) {
    Earlier(trace, p, Finished(d, Returned(0, false)))
  }

  ghost predicate DepsDone(steps: seq<Step>, trace: seq<TraceEvent>, p: nat, i: nat) {
    forall d :: Edge(steps, i, d) ==> ReturnedZero(trace, p, d)
  }

  /** No step starts before all its dependencies have returned 0. */
  ghost predicate Orderly(steps: seq<Step>, trace: seq<TraceEvent>) {
    forall p :: 0 <= p < |trace| && trace[p].Started? ==> DepsDone(steps, trace, p, trace[p].step)
  }

  lemma EarlierExtends(trace: seq<TraceEvent>, longer: seq<TraceEvent>, p: nat, q: nat, e: TraceEvent)
    requires trace <= longer && p <= |trace| && p <= q && Earlier(trace, p, e)
    ensures Earlier(longer, q, e)
  {
  }

  lemma OrderlyExtends(steps: seq<Step>, trace: seq<TraceEvent>, e: TraceEvent)
    requires Orderly(steps, trace)
    requires e.Started? ==> DepsDone(steps, trace, |trace|, e.step)
    ensures Orderly(steps, trace + [e])
  {
    var longer := trace + [e];
    forall p | 0 <= p < |longer| && longer[p].Started?
      ensures DepsDone(steps, longer, p, longer[p].step)
    {
      forall d | Edge(steps, longer[p].step, d)
        ensures ReturnedZero(longer, p, d)
      {
        assert DepsDone(steps, trace, p, longer[p].step);
        EarlierExtends(trace, longer, p, p, Finished(d, Returned(0, false)));
      }
    }
  }

  /** Every dependency of the wave is settled before the wave begins, and stays so. */
  lemma DepsDoneExtends(steps: seq<Step>, trace: seq<TraceEvent>, longer: seq<TraceEvent>, i: nat)
    requires trace <= longer && DepsDone(steps, trace, |trace|, i)
    ensures DepsDone(steps, longer, |longer|, i)
  {
  }

  // ---------------------------------------------------------------------------
  // What a trace accounts for
  // ---------------------------------------------------------------------------

  /** An event of a step that began, or that ended after it had begun, with its own outcome. */
  ghost predicate Accounted(trace: seq<TraceEvent>, p: nat, outcomes: seq<StepOutcome>, begun: set<nat>,
                            ended: set<nat>)
    requires p < |trace|
  {
    var i := trace[p].step;
    if trace[p].Started? then i in begun
    else i in ended && i < |outcomes| && trace[p].outcome == outcomes[i] && Earlier(trace, p, Started(i))
  }

  ghost predicate Distinct(trace: seq<TraceEvent>) {
    forall p, q :: 0 <= p < q < |trace| ==> trace[p] != trace[q]
  }

  /** Exactly these steps began and ended, each of them once, and none ended before it began. */
  ghost predicate Account(trace: seq<TraceEvent>, outcomes: seq<StepOutcome>, begun: set<nat>, ended: set<nat>) {
    && (forall p :: 0 <= p < |trace| ==> Accounted(trace, p, outcomes, begun, ended))
    && Distinct(trace)
    && (forall i :: i in begun ==> Started(i) in trace)
    && (forall i :: i in ended ==> i < |outcomes| && Finished(i, outcomes[i]) in trace)
  }

  lemma DistinctPush(trace: seq<TraceEvent>, e: TraceEvent)
    requires Distinct(trace) && e !in trace
    ensures Distinct(trace + [e])
  {
  }

  lemma AccountStart(trace: seq<TraceEvent>, outcomes: seq<StepOutcome>, begun: set<nat>, ended: set<nat>, i: nat)
    requires Account(trace, outcomes, begun, ended) && i !in begun
    ensures Account(trace + [Started(i)], outcomes, begun + {i}, ended)
  {
    var longer := trace + [Started(i)];
    forall p | 0 <= p < |trace| ensures Accounted(longer, p, outcomes, begun + {i}, ended) && trace[p] != Started(i) {
      assert Accounted(trace, p, outcomes, begun, ended);
      if trace[p].Finished? {
        EarlierExtends(trace, longer, p, p, Started(trace[p].step));
      }
    }
    DistinctPush(trace, Started(i));
    assert longer[|trace|] == Started(i);
  }

  lemma AccountFinish(trace: seq<TraceEvent>, outcomes: seq<StepOutcome>, begun: set<nat>, ended: set<nat>, i: nat)
    requires Account(trace, outcomes, begun, ended) && i in begun && i !in ended && i < |outcomes|
    ensures Account(trace + [Finished(i, outcomes[i])], outcomes, begun, ended + {i})
  {
    var last := Finished(i, outcomes[i]);
    var longer := trace + [last];
    forall p | 0 <= p < |trace| ensures Accounted(longer, p, outcomes, begun, ended + {i}) && trace[p] != last {
      assert Accounted(trace, p, outcomes, begun, ended);
      if trace[p].Finished? {
        EarlierExtends(trace, longer, p, p, Started(trace[p].step));
      }
    }
    DistinctPush(trace, last);
    assert longer[|trace|] == last;
    assert Started(i) in trace;
    var q :| 0 <= q < |trace| && trace[q] == Started(i);
    assert longer[q] == Started(i);
  }

  /** A step that ended with 0 is one that its dependants may rely on. */
  lemma AccountZero(trace: seq<TraceEvent>, outcomes: seq<StepOutcome>, begun: set<nat>, ended: set<nat>, i: nat)
    requires Account(trace, outcomes, begun, ended) && i in ended && i < |outcomes| && Succeeded(outcomes[i])
    ensures ReturnedZero(trace, |trace|, i)
  {
    assert Finished(i, outcomes[i]) in trace;
  }

  /** A step that raised is left as running; the others are cancelled, successful or failed. */
  predicate Shows(status: StepStatus, o: StepOutcome) {
    && (status == Running <==> o == Raised)
    && (status == Cancelled <==> o.Returned? && o.cancelled)
    && (status == Success <==> o == Returned(0, false))
    && status != Pending
  }

  /** Each step that ran shows its outcome, every other one is pending. */
  predicate StatesOf(states: seq<StepStatus>, outcomes: seq<StepOutcome>, ran: set<nat>) {
    && |states| == |outcomes|
    && forall i: nat :: i < |states| ==> if i in ran then Shows(states[i], outcomes[i]) else states[i] == Pending
  }

  // ---------------------------------------------------------------------------
  // One wave
  // ---------------------------------------------------------------------------

  ghost predicate WaveReady(steps: seq<Step>, trace: seq<TraceEvent>, wave: seq<nat>) {
    forall i :: i in wave ==> DepsDone(steps, trace, |trace|, i)
  }

  /** In the middle of a wave: which steps wait, run and have finished. */
  datatype Progress = Progress(waiting: set<nat>, running: set<nat>, finished: set<nat>)

  predicate StatesAt(states: seq<StepStatus>, outcomes: seq<StepOutcome>, ran: set<nat>, at: Progress) {
    && |states| == |outcomes|
    && forall i: nat :: i < |states| && i !in at.running ==>
         if i in ran + at.finished then Shows(states[i], outcomes[i]) else states[i] == Pending
  }

  /** The trace and the states in the middle of a wave. */
  ghost predicate WaveAt(steps: seq<Step>, outcomes: seq<StepOutcome>, trace: seq<TraceEvent>,
                         states: seq<StepStatus>, ran: set<nat>, at: Progress)
  {
    && Orderly(steps, trace)
    && StatesAt(states, outcomes, ran, at)
    && Account(trace, outcomes, ran + at.running + at.finished, ran + at.finished)
  }

  lemma WaveStarts(steps: seq<Step>, outcomes: seq<StepOutcome>, trace: seq<TraceEvent>,
                   states: seq<StepStatus>, ran: set<nat>, at: Progress, i: nat)
    requires WaveAt(steps, outcomes, trace, states, ran, at) && i < |outcomes|
    requires i !in ran + at.running + at.finished && DepsDone(steps, trace, |trace|, i)
    ensures WaveAt(steps, outcomes, trace + [Started(i)], states[i := Running], ran,
                   Progress(at.waiting - {i}, at.running + {i}, at.finished))
  {
    OrderlyExtends(steps, trace, Started(i));
    AccountStart(trace, outcomes, ran + at.running + at.finished, ran + at.finished, i);
    assert ran + (at.running + {i}) + at.finished == ran + at.running + at.finished + {i};
  }

  lemma StatesFinish(states: seq<StepStatus>, outcomes: seq<StepOutcome>, ran: set<nat>, at: Progress, i: nat)
    requires StatesAt(states, outcomes, ran, at) && i < |outcomes|
    ensures StatesAt(states[i := StatusOf(outcomes[i])], outcomes, ran,
                     Progress(at.waiting, at.running - {i}, at.finished + {i}))
  {
  }

  lemma WaveFinishes(steps: seq<Step>, outcomes: seq<StepOutcome>, trace: seq<TraceEvent>,
                     states: seq<StepStatus>, ran: set<nat>, at: Progress, i: nat)
    requires WaveAt(steps, outcomes, trace, states, ran, at) && i < |outcomes|
    requires i in at.running && i !in ran + at.finished
    ensures WaveAt(steps, outcomes, trace + [Finished(i, outcomes[i])], states[i := StatusOf(outcomes[i])], ran,
                   Progress(at.waiting, at.running - {i}, at.finished + {i}))
  {
    OrderlyExtends(steps, trace, Finished(i, outcomes[i]));
    StatesFinish(states, outcomes, ran, at, i);
    AccountFinish(trace, outcomes, ran + at.running + at.finished, ran + at.finished, i);
    assert ran + (at.running - {i}) + (at.finished + {i}) == ran + at.running + at.finished;
    assert ran + (at.finished + {i}) == ran + at.finished + {i};
  }

  lemma WaveBegins(steps: seq<Step>, outcomes: seq<StepOutcome>, trace: seq<TraceEvent>,
                   states: seq<StepStatus>, ran: set<nat>, waiting: set<nat>)
    requires Orderly(steps, trace) && StatesOf(states, outcomes, ran) && Account(trace, outcomes, ran, ran)
    ensures WaveAt(steps, outcomes, trace, states, ran, Progress(waiting, {}, {}))
  {
    assert ran + {} + {} == ran && ran + {} == ran;
  }

  lemma WaveEnds(steps: seq<Step>, outcomes: seq<StepOutcome>, trace: seq<TraceEvent>,
                 states: seq<StepStatus>, ran: set<nat>, finished: set<nat>)
    requires WaveAt(steps, outcomes, trace, states, ran, Progress({}, {}, finished))
    ensures StatesOf(states, outcomes, ran + finished) && Account(trace, outcomes, ran + finished, ran + finished)
  {
    assert ran + {} + finished == ran + finished;
  }

  /** The steps of one wave start and finish in any order; all of them run, whatever the others return. */
  method RunWave(steps: seq<Step>, wave: seq<nat>, outcomes: seq<StepOutcome>,
                 before: seq<TraceEvent>, states0: seq<StepStatus>, ghost ran: set<nat>)
    returns (trace: seq<TraceEvent>, states: seq<StepStatus>)
    requires |outcomes| == |steps| && (forall i :: i in wave ==> i < |steps|) && SetOf(wave) !! ran
    requires Orderly(steps, before) && WaveReady(steps, before, wave)
    requires Account(before, outcomes, ran, ran) && StatesOf(states0, outcomes, ran)
    ensures before <= trace && Orderly(steps, trace)
    ensures Account(trace, outcomes, ran + SetOf(wave), ran + SetOf(wave))
    ensures StatesOf(states, outcomes, ran + SetOf(wave))
  {
    trace, states := before, states0;
    var at := Progress(SetOf(wave), {}, {});
    WaveBegins(steps, outcomes, trace, states, ran, at.waiting);
    while at.waiting != {} || at.running != {}
      invariant before <= trace
      invariant at.waiting + at.running + at.finished == SetOf(wave)
      invariant at.waiting !! at.running !! at.finished
      invariant WaveAt(steps, outcomes, trace, states, ran, at)
      decreases at.waiting, at.running
    {
      var startNext: bool := *;
      if at.running == {} || (at.waiting != {} && startNext) {
        var i :| i in at.waiting;
        assert i in SetOf(wave);
        DepsDoneExtends(steps, before, trace, i);
        WaveStarts(steps, outcomes, trace, states, ran, at, i);
        at := Progress(at.waiting - {i}, at.running + {i}, at.finished);
        states := states[i := Running];
        trace := trace + [Started(i)];
      } else {
        var i :| i in at.running;
        assert i in SetOf(wave);
        WaveFinishes(steps, outcomes, trace, states, ran, at, i);
        at := Progress(at.waiting, at.running - {i}, at.finished + {i});
        states := states[i := StatusOf(outcomes[i])];
        trace := trace + [Finished(i, outcomes[i])];
      }
    }
    assert at.finished == SetOf(wave);
    WaveEnds(steps, outcomes, trace, states, ran, at.finished);
  }

  // ---------------------------------------------------------------------------
  // What a wave's outcomes mean for the build
  // ---------------------------------------------------------------------------

  predicate SomeRaised(outcomes: seq<StepOutcome>, wave: seq<nat>) {
    exists i :: i in wave && i < |outcomes| && outcomes[i].Raised?
  }

  predicate SomeCancelled(outcomes: seq<StepOutcome>, wave: seq<nat>) {
    exists i :: i in wave && i < |outcomes| && outcomes[i].Returned? && outcomes[i].cancelled
  }

  predicate SomeNonZero(outcomes: seq<StepOutcome>, wave: seq<nat>) {
    exists i :: i in wave && i < |outcomes| && outcomes[i].Returned? && outcomes[i].code != 0
  }

  /** An exception wins over a cancellation, a cancellation over a failure. */
  function WaveVerdict(outcomes: seq<StepOutcome>, wave: seq<nat>): RunResult {
    if SomeRaised(outcomes, wave) then StepRaised
    else if SomeCancelled(outcomes, wave) then BuildCancelled
    else if SomeNonZero(outcomes, wave) then BuildFailed
    else Completed
  }

  /** The verdict of a wave, told by its outcomes. */
  lemma VerdictExactly(outcomes: seq<StepOutcome>, wave: seq<nat>)
    requires forall i :: i in wave ==> i < |outcomes|
    ensures match WaveVerdict(outcomes, wave)
      case StepRaised => exists i :: i in wave && outcomes[i] == Raised
      case BuildCancelled =>
        && (forall i :: i in wave ==> outcomes[i] != Raised)
        && exists i :: i in wave && outcomes[i].Returned? && outcomes[i].cancelled
      case BuildFailed =>
        && (forall i :: i in wave ==> outcomes[i].Returned? && !outcomes[i].cancelled)
        && exists i :: i in wave && outcomes[i] != Returned(0, false)
      case Completed => forall i :: i in wave ==> outcomes[i] == Returned(0, false)
      case PlanInvalid => false
  {
  }

  lemma SomeGrow(outcomes: seq<StepOutcome>, wave: seq<nat>, k: nat)
    requires k < |wave| && wave[k] < |outcomes|
    ensures var o := outcomes[wave[k]];
      && (SomeRaised(outcomes, wave[..k + 1]) <==> SomeRaised(outcomes, wave[..k]) || o.Raised?)
      && (SomeCancelled(outcomes, wave[..k + 1]) <==>
        SomeCancelled(outcomes, wave[..k]) || (o.Returned? && o.cancelled))
      && (SomeNonZero(outcomes, wave[..k + 1]) <==> SomeNonZero(outcomes, wave[..k]) || (o.Returned? && o.code != 0))
  {
    assert wave[..k + 1] == wave[..k] + [wave[k]];
  }

  /** One look at each result, in the order in which they complete. */
  method JudgeWave(outcomes: seq<StepOutcome>, wave: seq<nat>) returns (verdict: RunResult)
    requires forall i :: i in wave ==> i < |outcomes|
    ensures verdict == WaveVerdict(outcomes, wave)
    ensures verdict == Completed <==> forall i :: i in wave ==> Succeeded(outcomes[i])
  {
    var cancelled, failed := false, false;
    for k := 0 to |wave|
      invariant !SomeRaised(outcomes, wave[..k])
      invariant cancelled <==> SomeCancelled(outcomes, wave[..k])
      invariant failed <==> SomeNonZero(outcomes, wave[..k])
    {
      var i := wave[k];
      assert i in wave;
      SomeGrow(outcomes, wave, k);
      if outcomes[i].Raised? {
        return StepRaised;
      }
      cancelled := cancelled || outcomes[i].cancelled;
      failed := failed || outcomes[i].code != 0;
    }
    assert wave[..|wave|] == wave;
    verdict := if cancelled then BuildCancelled else if failed then BuildFailed else Completed;
  }

  // ---------------------------------------------------------------------------
  // The whole build
  // ---------------------------------------------------------------------------

  /** The steps of the first `k` waves. */
  function StepsIn(waves: seq<seq<nat>>, k: nat): (s: set<nat>)
    requires k <= |waves|
  {
    if k == 0 then {} else StepsIn(waves, k - 1) + SetOf(waves[k - 1])
  }

  lemma {:induction false} StepsInWaves(waves: seq<seq<nat>>, k: nat, i: nat)
    requires k <= |waves|
    ensures i in StepsIn(waves, k) <==> Before(waves, k, i)
  {
    if k > 0 {
      StepsInWaves(waves, k - 1, i);
      assert i in waves[k - 1] ==> InWave(waves, k - 1, i);
    }
  }

  ghost predicate AllZero(outcomes: seq<StepOutcome>, ran: set<nat>) {
    forall i :: i in ran ==> i < |outcomes| && Succeeded(outcomes[i])
  }

  /** No cancellation was requested before the first `k` waves. */
  predicate NoRequest(cancels: seq<bool>, k: nat) {
    forall v :: 0 <= v < k && v < |cancels| ==> !cancels[v]
  }

  /** Exactly the first `k` waves have run. */
  ghost predicate RanWaves(waves: seq<seq<nat>>, k: nat, outcomes: seq<StepOutcome>,
                           trace: seq<TraceEvent>, states: seq<StepStatus>)
    requires k <= |waves|
  {
    Account(trace, outcomes, StepsIn(waves, k), StepsIn(waves, k)) && StatesOf(states, outcomes, StepsIn(waves, k))
  }

  /**
   The build stopped at wave `w`: everything before it returned 0, and it was stopped by a request
   before the wave ran, or by what the steps of the wave did. Nothing later began.
   */
  ghost predicate StoppedAt(waves: seq<seq<nat>>, outcomes: seq<StepOutcome>, cancels: seq<bool>,
                            trace: seq<TraceEvent>, states: seq<StepStatus>, result: RunResult, w: nat)
  {
    && w < |waves|
    && AllZero(outcomes, StepsIn(waves, w)) && NoRequest(cancels, w)
    && (if w < |cancels| && cancels[w]
        then result == BuildCancelled && RanWaves(waves, w, outcomes, trace, states)
        else result == WaveVerdict(outcomes, waves[w]) && RanWaves(waves, w + 1, outcomes, trace, states))
  }

  /** What the waves before have returned is what this wave waits for. */
  lemma WaveAllowed(steps: seq<Step>, waves: seq<seq<nat>>, k: nat, outcomes: seq<StepOutcome>, trace: seq<TraceEvent>)
    requires Layers(steps, {}, waves) && k < |waves|
    requires Account(trace, outcomes, StepsIn(waves, k), StepsIn(waves, k)) && AllZero(outcomes, StepsIn(waves, k))
    ensures WaveReady(steps, trace, waves[k])
    ensures forall i :: i in waves[k] ==> i < |steps|
    ensures SetOf(waves[k]) !! StepsIn(waves, k)
  {
    forall i | i in waves[k]
      ensures i < |steps| && DepsDone(steps, trace, |trace|, i) && i !in StepsIn(waves, k)
    {
      assert InWave(waves, k, i) && Fits(steps, {}, waves, k, i);
      StepsInWaves(waves, k, i);
      forall d | Edge(steps, i, d)
        ensures ReturnedZero(trace, |trace|, d)
      {
        assert Before(waves, k, d);
        StepsInWaves(waves, k, d);
        AccountZero(trace, outcomes, StepsIn(waves, k), StepsIn(waves, k), d);
      }
    }
  }

  /** One wave and its verdict. */
  method RunNextWave(steps: seq<Step>, waves: seq<seq<nat>>, k: nat, outcomes: seq<StepOutcome>,
                     before: seq<TraceEvent>, states0: seq<StepStatus>)
    returns (verdict: RunResult, trace: seq<TraceEvent>, states: seq<StepStatus>)
    requires Layers(steps, {}, waves) && k < |waves| && |outcomes| == |steps|
    requires RanWaves(waves, k, outcomes, before, states0) && AllZero(outcomes, StepsIn(waves, k))
    requires Orderly(steps, before)
    ensures Orderly(steps, trace) && RanWaves(waves, k + 1, outcomes, trace, states)
    ensures verdict == WaveVerdict(outcomes, waves[k])
    ensures verdict == Completed <==> AllZero(outcomes, StepsIn(waves, k + 1))
  {
    WaveAllowed(steps, waves, k, outcomes, before);
    trace, states := RunWave(steps, waves[k], outcomes, before, states0, StepsIn(waves, k));
    verdict := JudgeWave(outcomes, waves[k]);
    assert forall i :: i in waves[k] <==> i in SetOf(waves[k]);
  }

  /** The loop over the waves; `stop` is the wave that stopped the build. */
  method RunWaves(steps: seq<Step>, waves: seq<seq<nat>>, outcomes: seq<StepOutcome>, cancels: seq<bool>)
    returns (result: RunResult, trace: seq<TraceEvent>, states: seq<StepStatus>, stop: nat)
    requires Layers(steps, {}, waves) && |outcomes| == |steps|
    ensures Orderly(steps, trace) && result != PlanInvalid
    ensures result == Completed ==> RanWaves(waves, |waves|, outcomes, trace, states)
    ensures result == Completed ==> AllZero(outcomes, StepsIn(waves, |waves|)) && NoRequest(cancels, |waves|)
    ensures result != Completed ==> StoppedAt(waves, outcomes, cancels, trace, states, result, stop)
  {
    trace, states, stop := [], seq(|steps|, i => Pending), 0;
    while stop < |waves|
      invariant stop <= |waves|
      invariant RanWaves(waves, stop, outcomes, trace, states) && AllZero(outcomes, StepsIn(waves, stop))
      invariant Orderly(steps, trace) && NoRequest(cancels, stop)
    {
      if stop < |cancels| && cancels[stop] {
        return BuildCancelled, trace, states, stop;
      }
      result, trace, states := RunNextWave(steps, waves, stop, outcomes, trace, states);
      if result != Completed {
        return;
      }
      stop := stop + 1;
    }
    result := Completed;
  }

  /**
   Run a plan for any step outcomes and any cancellation requests seen before the waves. No step
   starts before its dependencies have returned 0; a completed build has run every step once; any
   other has run exactly the waves up to the first that a request, an exception, a cancellation
   or a failure stopped.
   */
  method Execute(steps: seq<Step>, outcomes: seq<StepOutcome>, cancels: seq<bool>)
    returns (result: RunResult, trace: seq<TraceEvent>, states: seq<StepStatus>, stop: nat)
    requires |outcomes| == |steps|
    ensures Orderly(steps, trace)
    ensures result == PlanInvalid <==> !Plan(steps).Waves?
    ensures result == PlanInvalid ==> trace == [] && StatesOf(states, outcomes, {})
    ensures result == Completed ==>
      && RanWaves(Plan(steps).waves, |Plan(steps).waves|, outcomes, trace, states)
      && NoRequest(cancels, |Plan(steps).waves|)
      && forall i: nat :: i < |steps| ==> ReturnedZero(trace, |trace|, i) && states[i] == Success
    ensures result != Completed && result != PlanInvalid ==>
      StoppedAt(Plan(steps).waves, outcomes, cancels, trace, states, result, stop)
  {
    var plan := ComputeWaves(steps);
    if !plan.Waves? {
      return PlanInvalid, [], seq(|steps|, i => Pending), 0;
    }
    WavesAreLayers(steps, {});
    result, trace, states, stop := RunWaves(steps, plan.waves, outcomes, cancels);
    if result == Completed {
      AllRan(steps, plan.waves, outcomes, trace, states);
    }
  }

  lemma AllRan(steps: seq<Step>, waves: seq<seq<nat>>, outcomes: seq<StepOutcome>,
               trace: seq<TraceEvent>, states: seq<StepStatus>)
    requires Layers(steps, {}, waves) && |outcomes| == |steps|
    requires RanWaves(waves, |waves|, outcomes, trace, states) && AllZero(outcomes, StepsIn(waves, |waves|))
    ensures forall i: nat :: i < |steps| ==> ReturnedZero(trace, |trace|, i) && states[i] == Success
  {
    forall i: nat | i < |steps| ensures ReturnedZero(trace, |trace|, i) && states[i] == Success {
      assert Placed(waves, i);
      var w: nat :| InWave(waves, w, i);
      assert Before(waves, |waves|, i);
      StepsInWaves(waves, |waves|, i);
      AccountZero(trace, outcomes, StepsIn(waves, |waves|), StepsIn(waves, |waves|), i);
    }
  }
}
