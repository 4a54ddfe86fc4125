/**
 Deploying a build: save the configuration, apply it to the runtime, book the result, and undo
 everything when any of these steps fails. Every step may fail, in every way its callee can;
 `Faults` says which of them do.
 */
module Deployments {
  import opened Common

  datatype Launch = Managed | DisabledLaunch | ExternalLaunch

  datatype Manifest = Manifest(id: string, launch: Launch, body: string)

  datatype ServerStatus = IsRunning | IsLoaded | IsStopped | IsExternal | IsFailed | IsUnsupported

  /** A registered runtime; every registration carries the state its operator wants. */
  datatype RuntimeEntry = RuntimeEntry(manifest: Manifest, desired: bool, status: ServerStatus)

  /** The status of a runtime that has not been started. */
  function IdleStatus(m: Manifest): ServerStatus {
    match m.launch
    case Managed => IsLoaded
    case DisabledLaunch => IsStopped
    case ExternalLaunch => IsExternal
  }

  /** A runtime's intent: which manifest, and whether it is meant to run. */
  datatype Intent = Intent(manifest: Manifest, start: bool)

  function EntryOf(runtime: map<string, RuntimeEntry>, server: string): Option<RuntimeEntry> {
    if server in runtime then Some(runtime[server]) else None
  }

  function IntentIn(entry: Option<RuntimeEntry>): Option<Intent> {
    if entry.Some? then Some(Intent(entry.value.manifest, entry.value.desired)) else None
  }

  function IntentOf(runtime: map<string, RuntimeEntry>, server: string): Option<Intent> {
    IntentIn(EntryOf(runtime, server))
  }

  function ConfigOf(configs: map<string, Manifest>, server: string): Option<Manifest> {
    if server in configs then Some(configs[server]) else None
  }

  /** The stored intent, which survives a restart, does not contradict the registered one. */
  predicate Agrees(server: string, runtime: map<string, RuntimeEntry>, intents: map<string, bool>) {
    if server in runtime then server in intents ==> intents[server] == runtime[server].desired
    else server !in intents
  }

  // ---------------------------------------------------------------------------
  // Faults
  // ---------------------------------------------------------------------------

  /** A write or removal: done, refused untouched, or done with an error afterwards. */
  datatype WriteOutcome = Done | FailedBefore | FailedAfter

  /** Starting a process: an exception, or the status it reaches. */
  datatype Start = Raises | Reaches(status: ServerStatus)

  /** What may go wrong while one manifest is applied and, after that, while its target is restored. */
  datatype ApplyFaults = ApplyFaults(
    refused: bool,
    stopFails: bool,
    store: WriteOutcome,
    start: Start,
    stopAgainFails: bool,
    deleteFails: bool,
    restoreSet: WriteOutcome,
    restart: Start)

  datatype Faults = Faults(
    snapshotFails: bool,
    save: WriteOutcome,
    bookConfigFails: bool,
    loadFails: bool,
    apply: ApplyFaults,
    bookRuntimeFails: bool,
    bookSuccessFails: bool,
    restoreConfig: WriteOutcome,
    restoreApply: ApplyFaults,
    removeStopFails: bool,
    removeDeleteFails: bool,
    bookFailureFails: bool)

  /** Applied with a status, or raised, with or without the note that the target was not restored. */
  datatype ApplyResult = Applied(status: ServerStatus) | Raised(rollbackFailed: bool)

  /** Applying goes through: the target stops, the intent is stored and a wanted start reaches running. */
  predicate Applies(previous: Option<RuntimeEntry>, start: bool, f: ApplyFaults) {
    && !f.refused
    && (previous.Some? ==> !f.stopFails)
    && f.store == Done
    && (start ==> f.start == Reaches(IsRunning))
  }

  /** After a failure, the target comes back as it was. */
  predicate Recovers(previous: Option<RuntimeEntry>, f: ApplyFaults) {
    && (previous.Some? || f.store == Done ==> !f.stopAgainFails)
    && match previous
       case None => !f.deleteFails
       case Some(entry) => f.restoreSet == Done && (entry.desired ==> f.restart == Reaches(IsRunning))
  }

  /** The previous entry, stopped and registered again with its own intent. */
  function Reregistered(entry: RuntimeEntry): RuntimeEntry {
    entry.(status := if entry.desired then IsRunning else IdleStatus(entry.manifest))
  }

  // ---------------------------------------------------------------------------
  // What a deployment comes to
  // ---------------------------------------------------------------------------

  datatype CompensationError = RuntimeNotRestored | ConfigNotRestored

  datatype Deployment = Deployment(
    succeeded: bool,
    configApplied: bool,
    runtimeStarted: bool,
    rollbackAttempted: bool,
    rollbackSucceeded: Option<bool>,
    rollbackErrors: seq<CompensationError>)

  datatype DeployResult = Recorded(deployment: Deployment) | BookkeepingFailed

  /** One deployment: what is asked for and what goes wrong. */
  datatype Request = Request(manifest: Manifest, start: bool, overwrite: bool, faults: Faults)

  /** The save is tried: no snapshot error, and nothing to overwrite without leave. */
  predicate Writes(r: Request, config: Option<Manifest>) {
    (r.overwrite || config.None?) && !(config.Some? && r.faults.snapshotFails)
  }

  /** The save reports success. */
  predicate Saves(r: Request, config: Option<Manifest>) {
    Writes(r, config) && r.faults.save == Done
  }

  /** The save went through on disk although it reported an error, so no compensation starts. */
  predicate SilentWrite(r: Request, config: Option<Manifest>) {
    Writes(r, config) && r.faults.save == FailedAfter
  }

  predicate ReachesRuntime(r: Request, config: Option<Manifest>) {
    Saves(r, config) && !r.faults.bookConfigFails && !r.faults.loadFails
  }

  predicate RuntimeApplied(r: Request, config: Option<Manifest>, entry: Option<RuntimeEntry>) {
    ReachesRuntime(r, config) && Applies(entry, r.start, r.faults.apply)
  }

  /** Every step goes through. */
  predicate Deploys(r: Request, config: Option<Manifest>, entry: Option<RuntimeEntry>) {
    RuntimeApplied(r, config, entry) && !r.faults.bookRuntimeFails && !r.faults.bookSuccessFails
  }

  /** Applying failed and the runtime could not restore its target. */
  predicate TargetBroken(r: Request, config: Option<Manifest>, entry: Option<RuntimeEntry>) {
    && ReachesRuntime(r, config)
    && !Applies(entry, r.start, r.faults.apply)
    && !r.faults.apply.refused && !Recovers(entry, r.faults.apply)
  }

  /** The runtime is back: it never changed, restored itself, or was compensated. */
  predicate RuntimeUndone(r: Request, config: Option<Manifest>, entry: Option<RuntimeEntry>) {
    && !TargetBroken(r, config, entry)
    && (RuntimeApplied(r, config, entry) ==>
          match entry
          case Some(e) => Applies(entry, e.desired, r.faults.restoreApply)
          case None => !r.faults.removeStopFails && !r.faults.removeDeleteFails)
  }

  /** What a rollback reports, in the order in which it happens. */
  function ErrorsOf(r: Request, config: Option<Manifest>, entry: Option<RuntimeEntry>): seq<CompensationError> {
    (if TargetBroken(r, config, entry) then [RuntimeNotRestored] else [])
    + (if r.faults.restoreConfig == Done then [] else [ConfigNotRestored])
    + (if RuntimeApplied(r, config, entry) && !RuntimeUndone(r, config, entry) then [RuntimeNotRestored] else [])
  }

  /** A failed deployment whose compensation, if it needs one, goes through. */
  predicate FailsCleanly(r: Request, config: Option<Manifest>, entry: Option<RuntimeEntry>) {
    && !Deploys(r, config, entry)
    && (Saves(r, config) ==> r.faults.restoreConfig == Done && RuntimeUndone(r, config, entry))
  }

  /** Two states of the tables agree on a server's configuration and runtime intent. */
  predicate Restored(server: string, configs: map<string, Manifest>, runtime: map<string, RuntimeEntry>,
                     configs0: map<string, Manifest>, runtime0: map<string, RuntimeEntry>)
  {
    ConfigOf(configs, server) == ConfigOf(configs0, server) && IntentOf(runtime, server) == IntentOf(runtime0, server)
  }

  ghost predicate Others<T>(before: map<string, T>, after: map<string, T>, server: string) {
    before - {server} == after - {server}
  }

  lemma OthersAt<T>(before: map<string, T>, after: map<string, T>, server: string, s: string)
    requires Others(before, after, server) && s != server
    ensures s in before <==> s in after
    ensures s in before ==> before[s] == after[s]
  {
    assert s in before - {server} <==> s in before;
    assert s in after - {server} <==> s in after;
    assert s in before ==> (before - {server})[s] == (after - {server})[s];
  }

  class Deployer {
    var configs: map<string, Manifest>
    var runtime: map<string, RuntimeEntry>
    /** The stored intents, by server. */
    var intents: map<string, bool>

    constructor (configs: map<string, Manifest>, runtime: map<string, RuntimeEntry>, intents: map<string, bool>)
      ensures this.configs == configs && this.runtime == runtime && this.intents == intents
    {
      this.configs, this.runtime, this.intents := configs, runtime, intents;
    }

    method SaveConfig(m: Manifest, overwrite: bool, outcome: WriteOutcome) returns (ok: bool)
      modifies this`configs
      ensures ok == (outcome == Done && (overwrite || m.id !in old(configs)))
      ensures configs == if (overwrite || m.id !in old(configs)) && outcome != FailedBefore
                         then old(configs)[m.id := m] else old(configs)
    {
      if (m.id in configs && !overwrite) || outcome == FailedBefore {
        return false;
      }
      configs := configs[m.id := m];
      return outcome == Done;
    }

    method DeleteConfig(server: string, outcome: WriteOutcome) returns (ok: bool)
      modifies this`configs
      ensures ok == (server in old(configs) && outcome == Done)
      ensures configs == if outcome == FailedBefore then old(configs) else old(configs) - {server}
    {
      if server !in configs || outcome == FailedBefore {
        return false;
      }
      configs := configs - {server};
      return outcome == Done;
    }

    /** Store an intent; `false` is an exception. */
    method SetIntent(server: string, desired: bool, outcome: WriteOutcome) returns (ok: bool)
      modifies this`intents
      ensures ok == (outcome == Done)
      ensures intents == if outcome == FailedBefore then old(intents) else old(intents)[server := desired]
    {
      if outcome != FailedBefore {
        intents := intents[server := desired];
      }
      return outcome == Done;
    }

    /** Register a manifest and, if wanted, start it; `false` is an exception or a status other than running. */
    method Register(m: Manifest, start: bool, how: Start) returns (ok: bool)
      modifies this`runtime
      ensures Others(old(runtime), runtime, m.id)
      ensures m.id in runtime && runtime[m.id].manifest == m && runtime[m.id].desired == start
      ensures ok == (start ==> how == Reaches(IsRunning))
      ensures ok ==> runtime[m.id].status == if start then IsRunning else IdleStatus(m)
      ensures !start && m.launch == Managed ==> runtime[m.id].status == IsLoaded
      ensures !start && m.launch == DisabledLaunch ==> runtime[m.id].status == IsStopped
      ensures !start && m.launch == ExternalLaunch ==> runtime[m.id].status == IsExternal
    {
      runtime := runtime[m.id := RuntimeEntry(m, start, IdleStatus(m))];
      if !start {
        return true;
      }
      runtime := runtime[m.id := RuntimeEntry(m, start, if how.Raises? then IsFailed else how.status)];
      return how == Reaches(IsRunning);
    }

    method Stop(server: string, fails: bool) returns (ok: bool)
      requires server in runtime
      modifies this`runtime
      ensures ok == !fails
      ensures runtime == if fails then old(runtime)
        else old(runtime)[server := old(runtime)[server].(status := IsStopped)]
    {
      if fails {
        return false;
      }
      runtime := runtime[server := runtime[server].(status := IsStopped)];
      return true;
    }

    /** The forward half of applying a manifest. */
    method Replace(m: Manifest, start: bool, f: ApplyFaults) returns (ok: bool)
      modifies this`runtime, this`intents
      ensures Others(old(runtime), runtime, m.id) && Others(old(intents), intents, m.id)
      ensures ok <==> Applies(EntryOf(old(runtime), m.id), start, f.(refused := false))
      ensures ok ==> m.id in runtime && m.id in intents && intents[m.id] == start
      ensures ok ==> runtime[m.id] == RuntimeEntry(m, start, if start then IsRunning else IdleStatus(m))
      ensures !ok ==> (m.id in runtime <==> m.id in old(runtime) || f.store == Done)
    {
      if m.id in runtime {
        ok := Stop(m.id, f.stopFails);
        if !ok { return; }
      }
      ok := SetIntent(m.id, start, f.store);
      if !ok { return; }
      ok := Register(m, start, f.start);
    }

    /** The target-level rollback of a failed application; `true` says that it failed in turn. */
    method Recover(server: string, previous: Option<RuntimeEntry>, f: ApplyFaults) returns (failed: bool)
      requires previous.Some? ==> previous.value.manifest.id == server
      requires server in runtime <==> previous.Some? || f.store == Done
      modifies this`runtime, this`intents
      ensures Others(old(runtime), runtime, server) && Others(old(intents), intents, server)
      ensures failed <==> !Recovers(previous, f)
      ensures !failed ==> EntryOf(runtime, server) == if previous.None? then None
        else Some(Reregistered(previous.value))
      ensures !failed ==> if previous.None? then server !in intents
                          else server in intents && intents[server] == previous.value.desired
    {
      failed := false;
      var stopped := true;
      if server in runtime {
        stopped := Stop(server, f.stopAgainFails);
        failed := !stopped;
      }
      if previous.None? {
        runtime := runtime - {server};
        if f.deleteFails {
          return true;
        }
        intents := intents - {server};
      } else {
        var kept := SetIntent(server, previous.value.desired, f.restoreSet);
        failed := failed || !kept;
        if stopped {
          var started := Register(previous.value.manifest, previous.value.desired, f.restart);
          failed := failed || !started;
        }
      }
    }

    /**
     `apply_manifest`: applied, or raised with the target as it was, or raised with a note that its
     own rollback failed. Which of the three follows from the faults alone.
     */
    method ApplyManifest(m: Manifest, start: bool, f: ApplyFaults) returns (result: ApplyResult)
      requires m.id in runtime ==> runtime[m.id].manifest.id == m.id
      modifies this`runtime, this`intents
      ensures Others(old(runtime), runtime, m.id) && Others(old(intents), intents, m.id)
      ensures result.Applied? <==> Applies(EntryOf(old(runtime), m.id), start, f)
      ensures result.Applied? ==> EntryOf(runtime, m.id) == Some(RuntimeEntry(m, start, result.status))
      ensures result.Applied? ==> result.status == if start then IsRunning else IdleStatus(m)
      ensures result.Applied? ==> m.id in intents && intents[m.id] == start
      ensures result.Raised? ==> (result.rollbackFailed <==> !f.refused && !Recovers(EntryOf(old(runtime), m.id), f))
      ensures result == Raised(false) ==> IntentOf(runtime, m.id) == IntentOf(old(runtime), m.id)
      ensures f.refused ==> runtime == old(runtime) && intents == old(intents)
      ensures result == Raised(false) && !f.refused ==>
        if m.id in old(runtime) then m.id in intents && intents[m.id] == old(runtime)[m.id].desired
        else m.id !in intents
      ensures result != Raised(true) && !f.refused ==> Agrees(m.id, runtime, intents)
    {
      if f.refused {
        return Raised(false);
      }
      var previous := EntryOf(runtime, m.id);
      var ok := Replace(m, start, f);
      if ok {
        return Applied(runtime[m.id].status);
      }
      var failed := Recover(m.id, previous, f);
      return Raised(failed);
    }

    method RemoveManifest(server: string, stopFails: bool, deleteFails: bool) returns (ok: bool)
      modifies this`runtime, this`intents
      ensures Others(old(runtime), runtime, server) && Others(old(intents), intents, server)
      ensures ok <==> !(server in old(runtime) && stopFails) && !deleteFails
      ensures ok ==> server !in runtime && server !in intents
    {
      if server in runtime {
        ok := Stop(server, stopFails);
        if !ok { return; }
        runtime := runtime - {server};
      }
      if deleteFails {
        return false;
      }
      intents := intents - {server};
      return true;
    }

    ghost predicate OthersUntouched(server: string, configs0: map<string, Manifest>,
                                    runtime0: map<string, RuntimeEntry>, intents0: map<string, bool>)
      reads this
    {
      Others(configs0, configs, server) && Others(runtime0, runtime, server) && Others(intents0, intents, server)
    }

    /** The forward steps, up to the first that fails. */
    method Advance(r: Request)
        returns (ok: bool, configApplied: bool, runtimeApplied: bool, started: bool, broken: bool)
      requires r.manifest.id in runtime ==> runtime[r.manifest.id].manifest.id == r.manifest.id
      modifies this
      ensures var server, config, entry :=
          r.manifest.id, ConfigOf(old(configs), r.manifest.id), EntryOf(old(runtime), r.manifest.id);
        && OthersUntouched(server, old(configs), old(runtime), old(intents))
        && ok == Deploys(r, config, entry)
        && configApplied == Saves(r, config)
        && runtimeApplied == RuntimeApplied(r, config, entry)
        && started == (runtimeApplied && r.start)
        && broken == TargetBroken(r, config, entry)
        && configs == (if configApplied || SilentWrite(r, config) then old(configs)[server := r.manifest]
          else old(configs))
        && (runtimeApplied ==> server in runtime && runtime[server].manifest == r.manifest)
        && (runtimeApplied ==> runtime[server].desired == r.start && server in intents && intents[server] == r.start)
        && (!runtimeApplied && !broken ==> IntentOf(runtime, server) == IntentOf(old(runtime), server))
        && (!broken && Agrees(server, old(runtime), old(intents)) ==> Agrees(server, runtime, intents))
    {
      var server, f := r.manifest.id, r.faults;
      ok, configApplied, runtimeApplied, started, broken := false, false, false, false, false;
      if server in configs && f.snapshotFails {
        return;
      }
      configApplied := SaveConfig(r.manifest, r.overwrite, f.save);
      if !configApplied || f.bookConfigFails || f.loadFails {
        return;
      }
      var applied := ApplyManifest(configs[server], r.start, f.apply);
      if applied.Raised? {
        broken := applied.rollbackFailed;
        return;
      }
      runtimeApplied := true;
      if applied.status == IsFailed || (r.start && applied.status != IsRunning) {
        return;
      }
      started := applied.status == IsRunning;
      ok := !f.bookRuntimeFails && !f.bookSuccessFails;
    }

    /** Put the old configuration back. */
    method RestoreConfig(server: string, config: Option<Manifest>, outcome: WriteOutcome) returns (ok: bool)
      requires server in configs && (config.Some? ==> config.value.id == server)
      modifies this`configs
      ensures Others(old(configs), configs, server)
      ensures ok == (outcome == Done)
      ensures ok ==> ConfigOf(configs, server) == config
    {
      if config.Some? {
        ok := SaveConfig(config.value, true, outcome);
      } else {
        ok := DeleteConfig(server, outcome);
      }
    }

    /** Put the old runtime and its intent back, after the new manifest had been applied. */
    method RestoreRuntime(server: string, entry: Option<RuntimeEntry>, f: Faults) returns (ok: bool)
      requires server in runtime && runtime[server].manifest.id == server
      requires entry.Some? ==> entry.value.manifest.id == server
      modifies this`runtime, this`intents
      ensures Others(old(runtime), runtime, server) && Others(old(intents), intents, server)
      ensures ok == (match entry
                     case Some(e) => Applies(entry, e.desired, f.restoreApply)
                     case None => !f.removeStopFails && !f.removeDeleteFails)
      ensures ok ==> IntentOf(runtime, server) == IntentIn(entry) && Agrees(server, runtime, intents)
    {
      if entry.Some? {
        var start := entry.value.desired;
        var restored := ApplyManifest(entry.value.manifest, start, f.restoreApply);
        var expected := if start then {IsRunning} else {IsLoaded, IsStopped, IsExternal};
        ok := restored.Applied? && restored.status in expected;
      } else {
        ok := RemoveManifest(server, f.removeStopFails, f.removeDeleteFails);
      }
    }

    /** Put the old configuration and, if the new manifest had been applied, the old runtime back. */
    method Compensate(server: string, config: Option<Manifest>, entry: Option<RuntimeEntry>,
                      runtimeApplied: bool, broken: bool, f: Faults) returns (errors: seq<CompensationError>)
      requires server in configs && (config.Some? ==> config.value.id == server)
      requires entry.Some? ==> entry.value.manifest.id == server
      requires runtimeApplied ==> server in runtime && runtime[server].manifest.id == server
      modifies this
      ensures OthersUntouched(server, old(configs), old(runtime), old(intents))
      ensures var undone := runtimeApplied ==>
          match entry
          case Some(e) => Applies(entry, e.desired, f.restoreApply)
          case None => !f.removeStopFails && !f.removeDeleteFails;
        && errors == (if broken then [RuntimeNotRestored] else [])
                     + (if f.restoreConfig == Done then [] else [ConfigNotRestored])
                     + (if undone then [] else [RuntimeNotRestored])
        && (runtimeApplied && undone ==> IntentOf(runtime, server) == IntentIn(entry))
        && (runtimeApplied && undone ==> Agrees(server, runtime, intents))
      ensures f.restoreConfig == Done ==> ConfigOf(configs, server) == config
      ensures !runtimeApplied ==> runtime == old(runtime) && intents == old(intents)
    {
      errors := if broken then [RuntimeNotRestored] else [];
      var configBack := RestoreConfig(server, config, f.restoreConfig);
      if !configBack {
        errors := errors + [ConfigNotRestored];
      }
      if runtimeApplied {
        var runtimeBack := RestoreRuntime(server, entry, f);
        if !runtimeBack {
          errors := errors + [RuntimeNotRestored];
        }
      }
    }

    /**
     One deployment, for every choice of failures. It succeeds exactly when every step goes through;
     it ends failed with a rollback exactly when the configuration had been saved; the rollback
     is reported successful exactly when every compensating step reports success, and then
     configuration, intent and stored intent are back; without a rollback they are untouched,
     unless the save failed after it had written. No other server changes.
     */
    method Deploy(r: Request) returns (result: DeployResult)
      requires r.manifest.id in configs ==> configs[r.manifest.id].id == r.manifest.id
      requires r.manifest.id in runtime ==> runtime[r.manifest.id].manifest.id == r.manifest.id
      modifies this
      ensures OthersUntouched(r.manifest.id, old(configs), old(runtime), old(intents))
      ensures Reports(r, ConfigOf(old(configs), r.manifest.id), EntryOf(old(runtime), r.manifest.id), result)
      ensures Leaves(r, old(configs), old(runtime), configs, runtime)
      ensures Deploys(r, ConfigOf(old(configs), r.manifest.id), EntryOf(old(runtime), r.manifest.id)) ==>
                r.manifest.id in intents && intents[r.manifest.id] == r.start
      ensures var config, entry := ConfigOf(old(configs), r.manifest.id), EntryOf(old(runtime), r.manifest.id);
        Deploys(r, config, entry) || RuntimeUndone(r, config, entry) ==>
          (Agrees(r.manifest.id, old(runtime), old(intents)) ==> Agrees(r.manifest.id, runtime, intents))
    {
      var server := r.manifest.id;
      var config, entry := ConfigOf(configs, server), EntryOf(runtime, server);
      var ok, configApplied, runtimeApplied, started, broken := Advance(r);
      if ok {
        return Recorded(Deployment(true, true, started, false, None, []));
      }
      var errors: seq<CompensationError> := [];
      if configApplied {
        errors := Compensate(server, config, entry, runtimeApplied, broken, r.faults);
        assert errors == ErrorsOf(r, config, entry);
      }
      ErrorsTell(r, config, entry);
      if r.faults.bookFailureFails {
        return BookkeepingFailed;
      }
      return Recorded(Deployment(false, configApplied, started, configApplied,
        if configApplied then Some(errors == []) else None, errors));
    }
  }

  /** What the caller is told. */
  ghost predicate Reports(r: Request, config: Option<Manifest>, entry: Option<RuntimeEntry>, result: DeployResult) {
    && (result.BookkeepingFailed? <==> !Deploys(r, config, entry) && r.faults.bookFailureFails)
    && (result.Recorded? ==>
          var d := result.deployment;
          && d.succeeded == Deploys(r, config, entry)
          && d.configApplied == Saves(r, config)
          && d.runtimeStarted == (RuntimeApplied(r, config, entry) && r.start)
          && d.rollbackAttempted == (d.configApplied && !d.succeeded)
          && d.rollbackSucceeded == (if d.rollbackAttempted then Some(FailsCleanly(r, config, entry)) else None)
          && d.rollbackErrors == (if d.rollbackAttempted then ErrorsOf(r, config, entry) else []))
  }

  /** What is left of the server's configuration and runtime intent. */
  ghost predicate Leaves(r: Request, configs0: map<string, Manifest>, runtime0: map<string, RuntimeEntry>,
                         configs: map<string, Manifest>, runtime: map<string, RuntimeEntry>)
  {
    var server := r.manifest.id;
    var config, entry := ConfigOf(configs0, server), EntryOf(runtime0, server);
    if Deploys(r, config, entry) then
      ConfigOf(configs, server) == Some(r.manifest) && IntentOf(runtime, server) == Some(Intent(r.manifest, r.start))
    else
      && (SilentWrite(r, config) ==> ConfigOf(configs, server) == Some(r.manifest))
      && (!SilentWrite(r, config) && (Saves(r, config) ==> r.faults.restoreConfig == Done) ==>
            ConfigOf(configs, server) == config)
      && (RuntimeUndone(r, config, entry) ==> IntentOf(runtime, server) == IntentIn(entry))
  }

  /** A rollback without errors is a clean one. */
  lemma ErrorsTell(r: Request, config: Option<Manifest>, entry: Option<RuntimeEntry>)
    ensures Saves(r, config) && !Deploys(r, config, entry) ==>
      (ErrorsOf(r, config, entry) == [] <==> FailsCleanly(r, config, entry))
  {
  }

  /** A failed deployment that restores its server, if anything of it had been changed with notice. */
  lemma CleanFailureRestores(r: Request, configs0: map<string, Manifest>, runtime0: map<string, RuntimeEntry>,
                             configs: map<string, Manifest>, runtime: map<string, RuntimeEntry>)
    requires Leaves(r, configs0, runtime0, configs, runtime)
    requires FailsCleanly(r, ConfigOf(configs0, r.manifest.id), EntryOf(runtime0, r.manifest.id))
    ensures Restored(r.manifest.id, configs, runtime, configs0, runtime0) <==>
      !SilentWrite(r, ConfigOf(configs0, r.manifest.id)) || ConfigOf(configs0, r.manifest.id) == Some(r.manifest)
  {
  }

  /** A save that fails after writing: the deployment ends failed, without a rollback, and changed. */
  method SilentWriteIsNotUndone(before: Manifest, m: Manifest, start: bool, faults: Faults)
      returns (d: Deployer, result: DeployResult)
    requires before.id == m.id && before != m
    requires faults.save == FailedAfter && !faults.snapshotFails && !faults.bookFailureFails
    ensures result == Recorded(Deployment(false, false, false, false, None, []))
    ensures !Restored(m.id, d.configs, d.runtime, map[m.id := before], map[])
  {
    d := new Deployer(map[m.id := before], map[], map[]);
    result := d.Deploy(Request(m, start, true, faults));
  }

  // ---------------------------------------------------------------------------
  // Any number of deployments
  // ---------------------------------------------------------------------------

  /** A deployment reported as failed and undone, or as failed before it changed anything. */
  predicate Clean(result: DeployResult) {
    && result.Recorded? && !result.deployment.succeeded
    && (!result.deployment.rollbackAttempted || result.deployment.rollbackSucceeded == Some(true))
  }

  /** The configurations after the silent writes among failed requests, and nothing else. */
  function AfterSilentWrites(configs: map<string, Manifest>, requests: seq<Request>): map<string, Manifest> {
    if requests == [] then configs
    else
      var r := requests[|requests| - 1];
      SilentlyWritten(AfterSilentWrites(configs, requests[..|requests| - 1]), r)
  }

  function SilentlyWritten(configs: map<string, Manifest>, r: Request): map<string, Manifest> {
    if SilentWrite(r, ConfigOf(configs, r.manifest.id)) then configs[r.manifest.id := r.manifest] else configs
  }

  lemma {:induction false} NoSilentWrites(configs: map<string, Manifest>, requests: seq<Request>)
    requires forall r :: r in requests ==> r.faults.save != FailedAfter
    ensures AfterSilentWrites(configs, requests) == configs
  {
    if requests != [] {
      NoSilentWrites(configs, requests[..|requests| - 1]);
    }
  }

  /** Only what is wanted of the old runtime matters, not its status. */
  lemma CleanByIntent(r: Request, config: Option<Manifest>, a: Option<RuntimeEntry>, b: Option<RuntimeEntry>)
    requires IntentIn(a) == IntentIn(b)
    ensures FailsCleanly(r, config, a) == FailsCleanly(r, config, b)
  {
  }

  predicate ReportedClean(r: Request, configs: map<string, Manifest>, runtime: map<string, RuntimeEntry>) {
    && FailsCleanly(r, ConfigOf(configs, r.manifest.id), EntryOf(runtime, r.manifest.id))
    && !r.faults.bookFailureFails
  }

  ghost predicate Keyed(configs: map<string, Manifest>, runtime: map<string, RuntimeEntry>) {
    && (forall s :: s in configs ==> configs[s].id == s)
    && (forall s :: s in runtime ==> runtime[s].manifest.id == s)
  }

  ghost predicate AllAgree(runtime: map<string, RuntimeEntry>, intents: map<string, bool>) {
    forall s :: Agrees(s, runtime, intents)
  }

  lemma AgreesElsewhere(server: string, runtime0: map<string, RuntimeEntry>, intents0: map<string, bool>,
                        runtime: map<string, RuntimeEntry>, intents: map<string, bool>)
    requires AllAgree(runtime0, intents0) && Agrees(server, runtime, intents)
    requires Others(runtime0, runtime, server) && Others(intents0, intents, server)
    ensures AllAgree(runtime, intents)
  {
    forall s ensures Agrees(s, runtime, intents) {
      if s != server {
        OthersAt(runtime0, runtime, server, s);
        OthersAt(intents0, intents, server, s);
        assert Agrees(s, runtime0, intents0);
      }
    }
  }

  ghost predicate SameIntents(a: map<string, RuntimeEntry>, b: map<string, RuntimeEntry>) {
    forall s :: IntentOf(a, s) == IntentOf(b, s)
  }

  /** One clean failure: the intents are as before, and so are the configurations but for a silent write. */
  lemma CleanStep(r: Request, configs0: map<string, Manifest>, runtime0: map<string, RuntimeEntry>,
                  configs: map<string, Manifest>, runtime: map<string, RuntimeEntry>)
    requires Keyed(configs0, runtime0)
    requires Others(configs0, configs, r.manifest.id) && Others(runtime0, runtime, r.manifest.id)
    requires Leaves(r, configs0, runtime0, configs, runtime)
    requires FailsCleanly(r, ConfigOf(configs0, r.manifest.id), EntryOf(runtime0, r.manifest.id))
    ensures configs == SilentlyWritten(configs0, r)
    ensures SameIntents(runtime0, runtime) && Keyed(configs, runtime)
  {
    var server := r.manifest.id;
    forall s
      ensures ConfigOf(configs, s) == ConfigOf(SilentlyWritten(configs0, r), s)
      ensures IntentOf(runtime, s) == IntentOf(runtime0, s)
    {
      if s != server {
        OthersAt(configs0, configs, server, s);
        OthersAt(runtime0, runtime, server, s);
      }
    }
    SameMap(configs, SilentlyWritten(configs0, r));
    forall s | s in runtime ensures runtime[s].manifest.id == s {
      assert IntentOf(runtime, s) == IntentOf(runtime0, s);
    }
  }

  lemma SameMap(a: map<string, Manifest>, b: map<string, Manifest>)
    requires forall s :: ConfigOf(a, s) == ConfigOf(b, s)
    ensures a == b
  {
    forall s ensures s in a <==> s in b ensures s in a ==> a[s] == b[s] {
      assert ConfigOf(a, s) == ConfigOf(b, s);
    }
  }

  lemma CleanIsReported(r: Request, config: Option<Manifest>, entry: Option<RuntimeEntry>, result: DeployResult)
    requires Reports(r, config, entry, result)
    ensures Clean(result) <==> FailsCleanly(r, config, entry) && !r.faults.bookFailureFails
  {
  }

  /** One deployment of a sequence; `runtime0` has the intents at the start of the sequence. */
  method DeployNext(d: Deployer, r: Request, ghost runtime0: map<string, RuntimeEntry>) returns (result: DeployResult)
    requires Keyed(d.configs, d.runtime) && SameIntents(runtime0, d.runtime)
    modifies d
    ensures Clean(result) <==> ReportedClean(r, old(d.configs), runtime0)
    ensures Clean(result) ==> d.configs == SilentlyWritten(old(d.configs), r)
    ensures Clean(result) ==> SameIntents(runtime0, d.runtime) && Keyed(d.configs, d.runtime)
    ensures Clean(result) && AllAgree(old(d.runtime), old(d.intents)) ==> AllAgree(d.runtime, d.intents)
  {
    ghost var server, before := r.manifest.id, d.runtime;
    ghost var config := ConfigOf(d.configs, server);
    assert IntentOf(before, server) == IntentOf(runtime0, server);
    CleanByIntent(r, config, EntryOf(before, server), EntryOf(runtime0, server));
    result := d.Deploy(r);
    CleanIsReported(r, config, EntryOf(before, server), result);
    if Clean(result) {
      CleanStep(r, old(d.configs), before, d.configs, d.runtime);
      if AllAgree(before, old(d.intents)) {
        assert Agrees(server, before, old(d.intents));
        AgreesElsewhere(server, before, old(d.intents), d.runtime, d.intents);
      }
    }
  }

  /** The clean answers of a sequence, known before it begins. */
  ghost predicate Foretold(requests: seq<Request>, i: nat, clean: bool,
                           configs: map<string, Manifest>, runtime: map<string, RuntimeEntry>)
    requires i < |requests|
  {
    clean <==> ReportedClean(requests[i], AfterSilentWrites(configs, requests[..i]), runtime)
  }

  /**
   Deployments of any servers one after another, up to the first that is not reported as a clean
   failure. Which are is known beforehand; together the clean ones change no intent and no
   configuration, except by their silent writes.
   */
  method DeployAll(d: Deployer, requests: seq<Request>) returns (results: seq<DeployResult>)
    requires Keyed(d.configs, d.runtime)
    modifies d
    ensures |results| <= |requests|
    ensures forall i :: 0 <= i < |results| ==>
      Foretold(requests, i, Clean(results[i]), old(d.configs), old(d.runtime))
    ensures forall i :: 0 <= i < |results| - 1 ==> Clean(results[i])
    ensures |results| < |requests| ==> results != [] && !Clean(results[|results| - 1])
    ensures results == [] || Clean(results[|results| - 1]) ==>
      && d.configs == AfterSilentWrites(old(d.configs), requests) && SameIntents(old(d.runtime), d.runtime)
      && (AllAgree(old(d.runtime), old(d.intents)) ==> AllAgree(d.runtime, d.intents))
  {
    results := [];
    for i := 0 to |requests|
      invariant |results| == i && Keyed(d.configs, d.runtime)
      invariant forall j :: 0 <= j < i ==> Clean(results[j])
      invariant forall j :: 0 <= j < i ==> Foretold(requests, j, Clean(results[j]), old(d.configs), old(d.runtime))
      invariant d.configs == AfterSilentWrites(old(d.configs), requests[..i])
      invariant SameIntents(old(d.runtime), d.runtime)
      invariant AllAgree(old(d.runtime), old(d.intents)) ==> AllAgree(d.runtime, d.intents)
    {
      var result := DeployNext(d, requests[i], old(d.runtime));
      results := results + [result];
      if !Clean(result) {
        return;
      }
      assert requests[..i + 1][..i] == requests[..i];
    }
    assert requests[..|requests|] == requests;
  }
}
