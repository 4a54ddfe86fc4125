/**
 The plan compiler and its validator: every plan the compiler makes is one the validator
 accepts, and what the validator accepts runs strictly one step after another.
 */
module BuildPlans {
  import opened Common
  import opened PlanWaves

  /** Package manager metadata of a Node project, as the toolchain inspection reports it. */
  datatype Manager = Manager(
    name: string,
    version: string,
    errors: seq<string>,
    lockfile: string,
    supported: bool,
    requiresPrepare: bool,
    integrity: Option<string>,
    preparation: Option<string>)

  /** The parts of the toolchain rules that a plan is checked against. */
  datatype Toolchain = Toolchain(
    supportedVersion: (string, string) -> bool,
    preparation: (string, string, Option<string>) -> Option<string>)

  datatype Preflight = Preflight(
    runtime: string,
    scripts: set<string>,
    installRequired: bool,
    hasRequirements: bool,
    manager: Option<Manager>)

  datatype Manifest = Manifest(startScript: bool, packageManager: string)

  datatype Plan = Plan(
    irVersion: int,
    runtime: string,
    buildable: bool,
    steps: seq<Step>,
    artifactStrategy: string,
    manifest: Option<Manifest>,
    manager: Option<Manager>)

  const IR_VERSION := 1

  const NPM_CI: seq<string> := ["npm", "ci"]
  const PNPM_INSTALL: seq<string> := ["pnpm", "install", "--frozen-lockfile"]
  const YARN_INSTALL: seq<string> := ["yarn", "install", "--frozen-lockfile"]
  const PIP_INSTALL: seq<string> := ["python", "-m", "pip", "install", "-r", "requirements.txt"]

  /** The deterministic install command of a manager; unknown managers have none. */
  function InstallCommand(name: string): Option<seq<string>> {
    if name == "npm" then Some(NPM_CI)
    else if name == "pnpm" then Some(PNPM_INSTALL)
    else if name == "yarn" then Some(YARN_INSTALL)
    else None
  }

  // ---------------------------------------------------------------------------
  // The compiler
  // ---------------------------------------------------------------------------

  function Blocked(runtime: string): Plan {
    Plan(IR_VERSION, runtime, false, [], "", None, None)
  }

  function ManagerName(manager: Option<Manager>): string {
    if manager.Some? && manager.value.name != "" then manager.value.name else "npm"
  }

  predicate CommandsRequired(p: Preflight, runInstall: bool, runBuild: bool) {
    (runInstall && p.installRequired) || (runBuild && "build" in p.scripts) || "start" in p.scripts
  }

  function Toolchained(p: Preflight, required: bool): seq<Step> {
    if required && p.manager.Some? && p.manager.value.requiresPrepare
    then [Step(TOOLCHAIN, "prepare",
               ["gate-package-manager", "prepare", ManagerName(p.manager), p.manager.value.version], [])]
    else []
  }

  function LastId(steps: seq<Step>): seq<string> {
    if steps == [] then [] else [steps[|steps| - 1].id]
  }

  /** Each step depends on the one appended before it. */
  function Pipeline(p: Preflight, required: bool, install: bool, build: bool): seq<Step>
    requires install ==> InstallCommand(ManagerName(p.manager)).Some?
  {
    var prepared := Toolchained(p, required);
    var installed := prepared + if install
      then [Step(INSTALL, "install", InstallCommand(ManagerName(p.manager)).value, LastId(prepared))] else [];
    installed + if build
      then [Step(BUILD, "build", [ManagerName(p.manager), "run", "build"], LastId(installed))] else []
  }

  /** `None` is the lookup error for a manager without an install command. */
  function NodePlan(p: Preflight, runInstall: bool, runBuild: bool): Option<Plan> {
    var required := CommandsRequired(p, runInstall, runBuild);
    var install := runInstall && p.installRequired;
    if required && p.manager.Some? && p.manager.value.errors != [] then Some(Blocked(p.runtime))
    else if install && (p.manager.None? || p.manager.value.lockfile == "") then Some(Blocked(p.runtime))
    else if install && InstallCommand(ManagerName(p.manager)).None? then None
    else Some(Plan(IR_VERSION, p.runtime, true, Pipeline(p, required, install, runBuild && "build" in p.scripts),
      "copy_tree", Some(Manifest("start" in p.scripts, ManagerName(p.manager))), p.manager))
  }

  function PythonPlan(p: Preflight, runInstall: bool): Plan {
    Plan(IR_VERSION, p.runtime, true,
      if runInstall && p.hasRequirements then [Step("python-install", "install", PIP_INSTALL, [])] else [],
      "copy_tree", Some(Manifest(false, "")), None)
  }

  function BuildPlan(p: Preflight, runInstall: bool, runBuild: bool): Option<Plan> {
    if p.runtime == "node" then NodePlan(p, runInstall, runBuild)
    else if p.runtime == "python" then Some(PythonPlan(p, runInstall))
    else Some(Blocked(p.runtime))
  }

  // ---------------------------------------------------------------------------
  // The validator
  // ---------------------------------------------------------------------------

  function PhaseOf(runtime: string, id: string): Option<string> {
    if runtime == "node" && id == TOOLCHAIN then Some("prepare")
    else if runtime == "node" && id == INSTALL then Some("install")
    else if runtime == "node" && id == BUILD then Some("build")
    else if runtime == "python" && id == "python-install" then Some("install")
    else None
  }

  predicate CommandAllowed(id: string, command: seq<string>) {
    if id == TOOLCHAIN then true
    else if id == INSTALL then command in {NPM_CI, PNPM_INSTALL, YARN_INSTALL}
    else if id == BUILD then command in {["npm", "run", "build"], ["pnpm", "run", "build"], ["yarn", "run", "build"]}
    else command == PIP_INSTALL
  }

  predicate ExactManager(t: Toolchain, manager: Option<Manager>) {
    manager.Some? && t.supportedVersion(manager.value.name, manager.value.version)
  }

  predicate NodeStepOk(t: Toolchain, plan: Plan, step: Step) {
    && (if step.id == TOOLCHAIN then
          && plan.manager.Some?
          && step.command == ["gate-package-manager", "prepare", plan.manager.value.name, plan.manager.value.version]
          && plan.manager.value.requiresPrepare
          && plan.manager.value.preparation
             == t.preparation(plan.manager.value.name, plan.manager.value.version, plan.manager.value.integrity)
        else
          step.command == [] || (plan.manager.Some? && step.command[0] == plan.manager.value.name))
    && ExactManager(t, plan.manager) && plan.manager.value.supported
  }

  predicate StepOk(t: Toolchain, plan: Plan, step: Step) {
    && step.command != []
    && PhaseOf(plan.runtime, step.id) == Some(step.phase)
    && CommandAllowed(step.id, step.command)
    && (plan.runtime == "node" ==> NodeStepOk(t, plan, step))
  }

  function StepIds(steps: seq<Step>): seq<string> {
    seq(|steps|, i requires 0 <= i < |steps| => steps[i].id)
  }

  const TOOLCHAIN := "node-toolchain"
  const INSTALL := "node-install"
  const BUILD := "node-build"

  /** Preparation, installation and build, each of them optional, in this order. */
  function NodeSequence(prepare: bool, install: bool, build: bool): seq<string> {
    (if prepare then [TOOLCHAIN] else []) + (if install then [INSTALL] else []) + (if build then [BUILD] else [])
  }

  predicate SequenceAllowed(runtime: string, ids: seq<string>) {
    || (runtime == "node" && exists prepare, install, build :: ids == NodeSequence(prepare, install, build))
    || (runtime == "python" && (ids == [] || ids == ["python-install"]))
  }

  function ExpectedDeps(ids: seq<string>, id: string): seq<string> {
    if id == BUILD && INSTALL in ids then [INSTALL]
    else if (id == INSTALL || id == BUILD) && TOOLCHAIN in ids then [TOOLCHAIN]
    else []
  }

  predicate Accepted(t: Toolchain, plan: Plan) {
    && plan.irVersion == IR_VERSION
    && (plan.buildable ==>
          && plan.runtime in {"node", "python"}
          && plan.manifest.Some?
          && plan.artifactStrategy != ""
          && (plan.runtime == "node" && plan.manifest.value.startScript ==>
                ExactManager(t, plan.manager) && plan.manifest.value.packageManager == plan.manager.value.name)
          && SequenceAllowed(plan.runtime, StepIds(plan.steps)))
    && (forall step :: step in plan.steps ==>
      StepOk(t, plan, step) && step.dependsOn == ExpectedDeps(StepIds(plan.steps), step.id))
    && (plan.runtime == "node" && plan.steps != [] && plan.manager.Some? && plan.manager.value.requiresPrepare ==>
          TOOLCHAIN in StepIds(plan.steps))
    && PlanWaves.Plan(plan.steps).Waves?
  }

  // ---------------------------------------------------------------------------
  // Accepted plans run one step at a time
  // ---------------------------------------------------------------------------

  ghost predicate DistinctIds(steps: seq<Step>) {
    forall i, j :: 0 <= i < j < |steps| ==> steps[i].id != steps[j].id
  }

  /** Every step depends on exactly the step before it. */
  ghost predicate Linear(steps: seq<Step>) {
    DistinctIds(steps) && forall i: nat :: i < |steps| ==> FollowsPrevious(steps, i)
  }

  predicate FollowsPrevious(steps: seq<Step>, i: nat)
    requires i < |steps|
  {
    steps[i].dependsOn == if i == 0 then [] else [steps[i - 1].id]
  }

  lemma {:induction false} IndexOfDistinct(steps: seq<Step>, i: nat)
    requires DistinctIds(steps) && i < |steps|
    ensures IndexOf(steps, steps[i].id) == Some(i)
    decreases |steps|
  {
    if i < |steps| - 1 {
      IndexOfDistinct(steps[..|steps| - 1], i);
    }
  }

  lemma LinearDeps(steps: seq<Step>, i: nat)
    requires Linear(steps) && i < |steps|
    ensures Known(steps, i)
    ensures Deps(steps, i) == if i == 0 then {} else {i - 1}
  {
    assert FollowsPrevious(steps, i);
    if i > 0 {
      var previous := steps[i - 1].id;
      IndexOfDistinct(steps, i - 1);
      assert forall dep :: dep in steps[i].dependsOn <==> dep == previous;
      assert previous in steps[i].dependsOn;
    }
  }

  /** The indices below `k`. */
  function Firsts(k: nat): (s: set<nat>)
    ensures forall i: nat :: i in s <==> i < k
  {
    if k == 0 then {} else Firsts(k - 1) + {k - 1}
  }

  lemma LinearReadyAt(steps: seq<Step>, k: nat, i: nat)
    requires Linear(steps) && k < |steps| && i < |steps|
    ensures IsReady(steps, Firsts(k), i) <==> i == k
  {
    LinearDeps(steps, i);
    if i > k {
      assert i - 1 !in Firsts(k) && i - 1 in Deps(steps, i);
    }
  }

  lemma OnlyMember(s: seq<nat>, k: nat)
    requires Ascending(s) && k in s && forall x :: x in s ==> x == k
    ensures s == [k]
  {
    assert s[0] in s && s[|s| - 1] in s;
  }

  lemma LinearReady(steps: seq<Step>, k: nat)
    requires Linear(steps) && k < |steps|
    ensures Ready(steps, Firsts(k), |steps|) == [k]
  {
    var ready := Ready(steps, Firsts(k), |steps|);
    LinearReadyAt(steps, k, k);
    forall x | x in ready
      ensures x == k
    {
      LinearReadyAt(steps, k, x);
    }
    OnlyMember(ready, k);
  }

  function Singles(from: nat, n: nat): seq<seq<nat>>
    requires from <= n
  {
    seq(n - from, j requires 0 <= j => [from + j])
  }

  lemma WavesStep(steps: seq<Step>, done: set<nat>, k: nat)
    requires k in Remaining(steps, done) && Ready(steps, done, |steps|) == [k]
    ensures WavesFrom(steps, done) == Prepend([[k]], WavesFrom(steps, done + {k}))
  {
    assert SetOf([k]) == {k};
  }

  /** From step `k` on, each step is a wave of its own. */
  predicate SinglesFrom(steps: seq<Step>, k: nat)
    requires k <= |steps|
  {
    WavesFrom(steps, Firsts(k)) == Some(Singles(k, |steps|))
  }

  lemma LinearWavesEnd(steps: seq<Step>)
    ensures SinglesFrom(steps, |steps|)
  {
    assert Remaining(steps, Firsts(|steps|)) == {} && Singles(|steps|, |steps|) == [];
  }

  lemma LinearWavesStep(steps: seq<Step>, k: nat)
    requires Linear(steps) && k < |steps| && SinglesFrom(steps, k + 1)
    ensures SinglesFrom(steps, k)
  {
    LinearReady(steps, k);
    assert k in Remaining(steps, Firsts(k));
    WavesStep(steps, Firsts(k), k);
    SinglesStep(k, |steps|);
  }

  lemma {:induction false} LinearWaves(steps: seq<Step>, k: nat)
    requires Linear(steps) && k <= |steps|
    ensures SinglesFrom(steps, k)
    decreases |steps| - k
  {
    if k == |steps| {
      LinearWavesEnd(steps);
    } else {
      LinearWaves(steps, k + 1);
      LinearWavesStep(steps, k);
    }
  }

  lemma SinglesStep(k: nat, n: nat)
    requires k < n
    ensures [[k]] + Singles(k + 1, n) == Singles(k, n)
  {
  }

  lemma LinearPlan(steps: seq<Step>)
    requires Linear(steps)
    ensures PlanWaves.Plan(steps) == Waves(Singles(0, |steps|))
  {
    forall i: nat | i < |steps|
      ensures Known(steps, i)
    {
      LinearDeps(steps, i);
    }
    LinearWaves(steps, 0);
  }

  lemma SequenceMembers(prepare: bool, install: bool, build: bool)
    ensures var ids := NodeSequence(prepare, install, build);
            (TOOLCHAIN in ids <==> prepare) && (INSTALL in ids <==> install) && (BUILD in ids <==> build)
  {
  }

  lemma SequenceDistinct(prepare: bool, install: bool, build: bool)
    ensures var ids := NodeSequence(prepare, install, build);
            forall i, j :: 0 <= i < j < |ids| ==> ids[i] != ids[j]
  {
  }

  lemma SequenceDeps(prepare: bool, install: bool, build: bool, i: nat)
    requires i < |NodeSequence(prepare, install, build)|
    ensures var ids := NodeSequence(prepare, install, build);
            ExpectedDeps(ids, ids[i]) == if i == 0 then [] else [ids[i - 1]]
  {
  }

  lemma SequenceIsLinear(steps: seq<Step>, prepare: bool, install: bool, build: bool)
    requires StepIds(steps) == NodeSequence(prepare, install, build)
    requires forall i :: 0 <= i < |steps| ==> steps[i].dependsOn == ExpectedDeps(StepIds(steps), steps[i].id)
    ensures Linear(steps)
  {
    var ids := StepIds(steps);
    SequenceDistinct(prepare, install, build);
    assert |ids| == |steps| && forall i :: 0 <= i < |steps| ==> steps[i].id == ids[i];
    forall i: nat | i < |steps|
      ensures FollowsPrevious(steps, i)
    {
      SequenceDeps(prepare, install, build, i);
    }
  }

  lemma AllowedIsLinear(runtime: string, steps: seq<Step>)
    requires SequenceAllowed(runtime, StepIds(steps))
    requires forall step :: step in steps ==> step.dependsOn == ExpectedDeps(StepIds(steps), step.id)
    ensures Linear(steps)
  {
    var ids := StepIds(steps);
    if runtime == "node" {
      var prepare, install, build :| ids == NodeSequence(prepare, install, build);
      SequenceIsLinear(steps, prepare, install, build);
    } else {
      assert |ids| == |steps| <= 1;
      if |steps| == 1 {
        assert steps[0] in steps && steps[0].id == ids[0] == "python-install";
        assert "python-install"[0] != INSTALL[0] && "python-install"[0] != BUILD[0];
      }
    }
  }

  /** What the validator accepts as buildable runs strictly one step after another. */
  lemma AcceptedRunsInOrder(t: Toolchain, plan: Plan)
    requires Accepted(t, plan) && plan.buildable
    ensures PlanWaves.Plan(plan.steps) == Waves(Singles(0, |plan.steps|))
  {
    AllowedIsLinear(plan.runtime, plan.steps);
    LinearPlan(plan.steps);
  }

  // ---------------------------------------------------------------------------
  // Compiled plans are accepted
  // ---------------------------------------------------------------------------

  /** What the toolchain inspection promises of a manager it reports no errors for. */
  predicate ManagerContract(t: Toolchain, m: Manager) {
    m.errors == [] ==>
      && m.supported && t.supportedVersion(m.name, m.version) && InstallCommand(m.name).Some?
      && (m.requiresPrepare ==> m.preparation == t.preparation(m.name, m.version, m.integrity))
  }

  /** A Node project whose commands are needed has a manager that keeps its contract. */
  predicate PreflightContract(t: Toolchain, p: Preflight, runInstall: bool, runBuild: bool) {
    p.runtime == "node" && CommandsRequired(p, runInstall, runBuild) ==>
      p.manager.Some? && ManagerContract(t, p.manager.value)
  }

  lemma CompiledStep(t: Toolchain, plan: Plan, step: Step)
    requires plan.runtime == "node" && plan.manager.Some?
    requires var m := plan.manager.value; m.errors == [] && ManagerContract(t, m)
    requires var m := plan.manager.value;
             || (m.requiresPrepare && step.id == TOOLCHAIN && step.phase == "prepare"
                 && step.command == ["gate-package-manager", "prepare", m.name, m.version])
             || (step.id == INSTALL && step.phase == "install" && Some(step.command) == InstallCommand(m.name))
             || (step.id == BUILD && step.phase == "build" && step.command == [m.name, "run", "build"])
    ensures StepOk(t, plan, step)
  {
  }

  lemma StepIdsPush(steps: seq<Step>, step: Step)
    ensures StepIds(steps + [step]) == StepIds(steps) + [step.id]
  {
  }

  /** The ids of the compiled steps, one optional step after another. */
  lemma PipelineIds(p: Preflight, required: bool, install: bool, build: bool)
    requires install ==> InstallCommand(ManagerName(p.manager)).Some?
    ensures StepIds(Pipeline(p, required, install, build))
         == NodeSequence(required && p.manager.Some? && p.manager.value.requiresPrepare, install, build)
  {
    var name, prepared := ManagerName(p.manager), Toolchained(p, required);
    var installed := Pipeline(p, required, install, false);
    if install {
      StepIdsPush(prepared, Step(INSTALL, "install", InstallCommand(name).value, LastId(prepared)));
    }
    if build {
      StepIdsPush(installed, Step(BUILD, "build", [name, "run", "build"], LastId(installed)));
    }
  }

  /** Each compiled step depends on the one before it. */
  lemma PipelineFollows(p: Preflight, required: bool, install: bool, build: bool, i: nat)
    requires p.manager.Some? && InstallCommand(ManagerName(p.manager)).Some?
    requires i < |Pipeline(p, required, install, build)|
    ensures FollowsPrevious(Pipeline(p, required, install, build), i)
  {
  }

  lemma PipelineShape(p: Preflight, required: bool, install: bool, build: bool)
    requires p.manager.Some? && InstallCommand(ManagerName(p.manager)).Some?
    ensures var m := p.manager.value;
            var steps := Pipeline(p, required, install, build);
            && StepIds(steps) == NodeSequence(required && m.requiresPrepare, install, build)
            && forall i :: 0 <= i < |steps| ==> steps[i].dependsOn == ExpectedDeps(StepIds(steps), steps[i].id)
  {
    var prepare := required && p.manager.value.requiresPrepare;
    var steps := Pipeline(p, required, install, build);
    PipelineIds(p, required, install, build);
    forall i | 0 <= i < |steps| ensures steps[i].dependsOn == ExpectedDeps(StepIds(steps), steps[i].id) {
      PipelineFollows(p, required, install, build, i);
      SequenceDeps(prepare, install, build, i);
    }
  }

  /** Every plan compiled from metadata that meets its contract passes the validator. */
  lemma CompiledPlansAreAccepted(t: Toolchain, p: Preflight, runInstall: bool, runBuild: bool)
    requires PreflightContract(t, p, runInstall, runBuild)
    ensures BuildPlan(p, runInstall, runBuild).Some?
    ensures Accepted(t, BuildPlan(p, runInstall, runBuild).value)
  {
    LinearPlan([]);
    if p.runtime == "node" {
      NodePlanIsAccepted(t, p, runInstall, runBuild);
    } else if p.runtime == "python" && runInstall && p.hasRequirements {
      var steps := [Step("python-install", "install", PIP_INSTALL, [])];
      assert "python-install"[0] != INSTALL[0] && "python-install"[0] != BUILD[0];
      assert StepIds(steps) == ["python-install"];
      LinearPlan(steps);
    } else {
      assert StepIds([]) == [];
    }
  }

  lemma NodePlanIsAccepted(t: Toolchain, p: Preflight, runInstall: bool, runBuild: bool)
    requires p.runtime == "node" && PreflightContract(t, p, runInstall, runBuild)
    ensures NodePlan(p, runInstall, runBuild).Some?
    ensures Accepted(t, NodePlan(p, runInstall, runBuild).value)
  {
    LinearPlan([]);
    var required := CommandsRequired(p, runInstall, runBuild);
    var install, build := runInstall && p.installRequired, runBuild && "build" in p.scripts;
    if !required {
      assert Pipeline(p, required, install, build) == [];
      assert StepIds([]) == NodeSequence(false, false, false);
    } else {
      var m := p.manager.value;
      if m.errors == [] && !(install && m.lockfile == "") {
        assert ManagerName(p.manager) == m.name;
        PipelineAccepted(t, p, install, build, NodePlan(p, runInstall, runBuild).value);
      }
    }
  }

  lemma PipelineAccepted(t: Toolchain, p: Preflight, install: bool, build: bool, plan: Plan)
    requires p.manager.Some? && p.manager.value.errors == [] && ManagerContract(t, p.manager.value)
    requires plan.irVersion == IR_VERSION && plan.runtime == "node" && plan.manager == p.manager
    requires plan.manifest.Some? && plan.manifest.value.packageManager == p.manager.value.name
      && plan.artifactStrategy != ""
    requires plan.steps == Pipeline(p, true, install, build)
    ensures Accepted(t, plan)
  {
    var m := p.manager.value;
    PipelineShape(p, true, install, build);
    SequenceIsLinear(plan.steps, m.requiresPrepare, install, build);
    SequenceMembers(m.requiresPrepare, install, build);
    LinearPlan(plan.steps);
    forall step | step in plan.steps
      ensures StepOk(t, plan, step)
    {
      CompiledStep(t, plan, step);
    }
  }

  // ---------------------------------------------------------------------------
  // What is accepted and what is compiled, command by command
  // ---------------------------------------------------------------------------

  /** The install and build commands of the three managers. */
  predicate ManagerCommand(name: string, id: string, phase: string, command: seq<string>) {
    || (id == "node-install" && phase == "install"
        && (|| (name == "npm" && command == ["npm", "ci"])
            || (name == "pnpm" && command == ["pnpm", "install", "--frozen-lockfile"])
            || (name == "yarn" && command == ["yarn", "install", "--frozen-lockfile"])))
    || (id == "node-build" && phase == "build" && name in {"npm", "pnpm", "yarn"} && command == [name, "run", "build"])
  }

  /**
   Every step of an accepted plan is one of four: the preparation of the exact manager, this manager's
   own install or build command, or the pip installation. There are no others for any runtime.
   */
  lemma AcceptedCommands(t: Toolchain, plan: Plan, step: Step)
    requires Accepted(t, plan) && step in plan.steps
    ensures plan.runtime == "node" || plan.runtime == "python"
    ensures plan.runtime == "python" ==>
      && step.id == "python-install" && step.phase == "install"
      && step.command == ["python", "-m", "pip", "install", "-r", "requirements.txt"]
    ensures plan.runtime == "node" ==>
      && plan.manager.Some? && plan.manager.value.supported
      && var m := plan.manager.value;
      && t.supportedVersion(m.name, m.version)
      && (|| ManagerCommand(m.name, step.id, step.phase, step.command)
          || (step.id == "node-toolchain" && step.phase == "prepare" && m.requiresPrepare
              && step.command == ["gate-package-manager", "prepare", m.name, m.version]
              && m.preparation == t.preparation(m.name, m.version, m.integrity)))
  {
    assert StepOk(t, plan, step);
    assert "node"[0] != "python"[0];
    if plan.runtime == "node" && step.id != TOOLCHAIN {
      OwnCommand(plan.manager.value.name, step);
    }
  }

  lemma OwnCommand(name: string, step: Step)
    requires step.command != [] && step.command[0] == name && step.id != TOOLCHAIN
    requires PhaseOf("node", step.id) == Some(step.phase) && CommandAllowed(step.id, step.command)
    ensures ManagerCommand(name, step.id, step.phase, step.command)
  {
  }

  /** When a plan is compiled, blocked or a lookup error, and which steps it has. */
  lemma CompiledPlan(p: Preflight, runInstall: bool, runBuild: bool)
    ensures var install, build := runInstall && p.installRequired, runBuild && "build" in p.scripts;
      var needed := install || build || "start" in p.scripts;
      var blocked := || p.runtime !in {"node", "python"}
                     || (p.runtime == "node" && needed && p.manager.Some? && p.manager.value.errors != [])
                     || (p.runtime == "node" && install && (p.manager.None? || p.manager.value.lockfile == ""));
      var plan := BuildPlan(p, runInstall, runBuild);
      && (plan.None? <==>
            && p.runtime == "node" && !blocked && install
            && p.manager.value.name !in {"", "npm", "pnpm", "yarn"})
      && (plan.Some? ==> plan.value.runtime == p.runtime && plan.value.buildable == !blocked)
      && (blocked ==> plan.value.steps == [] && plan.value.manifest == None)
      && (plan.Some? && !blocked && p.runtime == "node" ==>
            && StepIds(plan.value.steps) == NodeSequence(
                 needed && p.manager.Some? && p.manager.value.requiresPrepare, install, build)
            && plan.value.manager == p.manager
            && plan.value.manifest == Some(Manifest("start" in p.scripts,
                 if p.manager.Some? && p.manager.value.name != "" then p.manager.value.name else "npm")))
      && (p.runtime == "python" ==>
            StepIds(plan.value.steps) == if runInstall && p.hasRequirements then ["python-install"] else [])
  {
    assert "node"[0] != "python"[0];
    var compiled := NodePlan(p, runInstall, runBuild);
    if p.runtime == "node" && compiled.Some? && compiled.value.buildable {
      var install, build := runInstall && p.installRequired, runBuild && "build" in p.scripts;
      PipelineIds(p, CommandsRequired(p, runInstall, runBuild), install, build);
    }
  }
}
