/**
 The native updater: the marker file that names the active release, the bundles beside it, and
 what updates, rollbacks and interruptions can do to them.
 */
module NativeUpdate {
  import opened Common
  import opened Decimals
  import opened Texts

  // ---------------------------------------------------------------------------
  // Versions
  // ---------------------------------------------------------------------------

  const MAX_DIGITS: nat := 9

  datatype Version = Version(major: nat, minor: nat, patch: nat)

  predicate PartOk(part: string) {
    Canonical(part) && |part| <= MAX_DIGITS
  }

  /** `version`: three numerals without leading zeros, of at most nine digits each. */
  function Parse(text: string): Option<Version> {
    var parts := Split(text, '.');
    if |parts| == 3 && PartOk(parts[0]) && PartOk(parts[1]) && PartOk(parts[2])
    then Some(Version(Value(parts[0]), Value(parts[1]), Value(parts[2])))
    else None
  }

  function Format(v: Version): string {
    Digits(v.major) + "." + Digits(v.minor) + "." + Digits(v.patch)
  }

  /** Tuple order. */
  predicate Below(a: Version, b: Version) {
    a.major < b.major
    || (a.major == b.major && (a.minor < b.minor || (a.minor == b.minor && a.patch < b.patch)))
  }

  function Max(a: Version, b: Version): Version {
    if Below(a, b) then b else a
  }

  /** The first part in which two versions differ orders them; equal versions are not ordered. */
  lemma VersionOrder(a: Version, b: Version)
    ensures Below(a, b) <==> if a.major != b.major then a.major < b.major
                             else if a.minor != b.minor then a.minor < b.minor else a.patch < b.patch
    ensures Max(a, b) == Max(b, a) && Max(a, b) in {a, b} && !Below(Max(a, b), a) && !Below(Max(a, b), b)
  {
  }

  lemma JoinThree(parts: seq<string>)
    requires |parts| == 3
    ensures Join(parts, '.') == parts[0] + "." + parts[1] + "." + parts[2]
  {
    assert Join(parts[1..], '.') == parts[1] + "." + Join(parts[1..][1..], '.');
    assert parts[1..][1..] == [parts[2]];
    assert Join(parts, '.') == parts[0] + "." + Join(parts[1..], '.');
    assert parts[0] + "." + (parts[1] + "." + parts[2]) == parts[0] + "." + parts[1] + "." + parts[2];
  }

  /** A version has one text, so comparing texts and comparing versions agree. */
  lemma FormatParse(text: string)
    requires Parse(text).Some?
    ensures Format(Parse(text).value) == text
  {
    var parts := Split(text, '.');
    JoinSplit(text, '.');
    JoinThree(parts);
    ReadDigits(parts[0]);
    ReadDigits(parts[1]);
    ReadDigits(parts[2]);
  }

  lemma DigitsHaveNoDot(n: nat)
    ensures '.' !in Digits(n)
  {
  }

  lemma SplitThree(a: string, b: string, c: string)
    requires '.' !in a && '.' !in b && '.' !in c
    ensures Split(a + "." + b + "." + c, '.') == [a, b, c]
  {
    assert a + "." + b + "." + c == a + ['.'] + (b + ['.'] + c);
    SplitConcat(a, b + ['.'] + c, '.');
    SplitConcat(b, c, '.');
    SplitAlone(a, '.');
    SplitAlone(b, '.');
    SplitAlone(c, '.');
  }

  lemma NineDigits()
    ensures Pow10(MAX_DIGITS) == 1_000_000_000
  {
    assert Pow10(3) == 1000 && Pow10(6) == 1_000_000;
  }

  /** Exactly the triples below the digit limit are readable. */
  lemma ParseFormat(v: Version)
    ensures Parse(Format(v)) ==
      if v.major < 1_000_000_000 && v.minor < 1_000_000_000 && v.patch < 1_000_000_000
      then Some(v) else None
  {
    NineDigits();
    DigitsHaveNoDot(v.major);
    DigitsHaveNoDot(v.minor);
    DigitsHaveNoDot(v.patch);
    SplitThree(Digits(v.major), Digits(v.minor), Digits(v.patch));
    PartRead(v.major);
    PartRead(v.minor);
    PartRead(v.patch);
  }

  lemma PartRead(n: nat)
    ensures PartOk(Digits(n)) <==> n < Pow10(MAX_DIGITS)
    ensures AllDigits(Digits(n)) && Value(Digits(n)) == n
  {
    DigitsRead(n);
    DigitsLength(n, MAX_DIGITS);
  }

  // ---------------------------------------------------------------------------
  // What is on disk
  // ---------------------------------------------------------------------------

  /** `active.json`. */
  datatype Marker = Marker(active: string, previous: Option<string>, skipped: Option<string>)

  /** The build information inside a bundle. */
  datatype Info = Info(version: string, target: string)

  /** The installed base bundle, the marker and the bundles of the cache by version text. */
  datatype Disk = Disk(base: Info, marker: Option<Marker>, bundles: map<string, Info>)

  /** The marker as read: a missing file means the base bundle is active. */
  function State(disk: Disk): Marker {
    if disk.marker.Some? then disk.marker.value else Marker(disk.base.version, None, None)
  }

  /** `selected`: the bundle named by a version is there and says it is that version. */
  predicate Selectable(disk: Disk, current: string) {
    && Parse(current).Some?
    && (current == disk.base.version
        || (current in disk.bundles && disk.bundles[current] == Info(current, disk.base.target)))
  }

  /** The marker can be compared with an advertised version. */
  predicate Readable(state: Marker) {
    && Parse(state.active).Some?
    && (state.skipped.Some? ==> Parse(state.skipped.value).Some?)
  }

  /** The version of a readable text. */
  function Read(text: string): Version {
    match Parse(text) case Some(v) => v case None => Version(0, 0, 0)
  }

  function ReadOption(text: Option<string>): Option<Version> {
    match text case Some(t) => Some(Read(t)) case None => None
  }

  /** The marker with versions for texts. */
  datatype Level = Level(active: Version, previous: Option<Version>, skipped: Option<Version>)

  function LevelOf(disk: Disk): Level {
    var state := State(disk);
    Level(Read(state.active), ReadOption(state.previous), ReadOption(state.skipped))
  }

  /** The larger of the active and the skipped version: nothing up to it is installed. */
  function Ceiling(level: Level): Version {
    if level.skipped.Some? then Max(level.active, level.skipped.value) else level.active
  }

  /** The active version is above the previous one and below the skipped one. */
  predicate Ordered(level: Level) {
    && (level.previous.Some? ==> Below(level.previous.value, level.active) && level.skipped.None?)
    && (level.skipped.Some? ==> Below(level.active, level.skipped.value))
  }

  /** What every update, rollback and interruption keeps. */
  predicate Sound(disk: Disk) {
    var state := State(disk);
    && Readable(state)
    && Parse(disk.base.version).Some?
    && Selectable(disk, state.active)
    && (state.previous.Some? ==> Selectable(disk, state.previous.value))
    && Ordered(LevelOf(disk))
    && !Below(Ceiling(LevelOf(disk)), Read(disk.base.version))
  }

  /** A fresh installation: a base bundle and nothing else that counts. */
  predicate Fresh(disk: Disk) {
    disk.marker.None? && Parse(disk.base.version).Some?
  }

  /** A release became active. */
  ghost predicate Installs(before: Disk, after: Disk) {
    && Readable(State(before))
    && after.base == before.base
    && exists proposed: string ::
        && Parse(proposed).Some?
        && Below(Ceiling(LevelOf(before)), Read(proposed))
        && after.bundles == before.bundles[proposed := Info(proposed, before.base.target)]
        && after.marker == Some(Marker(proposed, Some(State(before).active), None))
  }

  /** The previous release became active again and the active one is skipped from now on. */
  predicate RollsBack(before: Disk, after: Disk) {
    && State(before).previous.Some?
    && after == before.(marker := Some(Marker(State(before).previous.value, None, Some(State(before).active))))
  }

  /** An interrupted or refused update: only a bundle that was never active may differ. */
  ghost predicate Stalls(before: Disk, after: Disk) {
    || after == before
    || (&& Readable(State(before))
        && after.base == before.base && after.marker == before.marker
        && exists proposed: string ::
          Below(Ceiling(LevelOf(before)), Read(proposed)) && Differs(before, after, proposed))
  }

  /** The bundle of one version was removed or replaced by a genuine one. */
  predicate Differs(before: Disk, after: Disk, proposed: string) {
    || after.bundles == before.bundles - {proposed}
    || after.bundles == before.bundles[proposed := Info(proposed, before.base.target)]
  }

  ghost predicate Step(before: Disk, after: Disk) {
    Installs(before, after) || RollsBack(before, after) || Stalls(before, after)
  }

  // ---------------------------------------------------------------------------
  // The updater
  // ---------------------------------------------------------------------------

  /** The advertised release; `assetOk` says that it has the one native asset with a good digest and size. */
  datatype Release = Release(tag: string, stable: bool, assetOk: bool)

  /** The unpacked candidate: its build information and what its executable says of itself. */
  datatype Candidate = Candidate(info: Info, reported: string)

  /** Where the process stops, if it does: before a file operation of the given kind. */
  datatype Stop = AtRetire | AtRename | AtMarker | Never

  datatype Outcome = Now(version: string) | Refused | Interrupted

  /** The marker can be read and the advertised release is a stable one. */
  predicate Wanted(disk: Disk, release: Release) {
    && Selectable(disk, State(disk).active)
    && Readable(State(disk))
    && release.stable && release.tag != "" && release.tag[0] == 'v'
    && Parse(release.tag[1..]).Some?
  }

  /** An offer of a version: a stable release under its tag, its asset, and a bundle that says it is that version. */
  predicate Offers(release: Release, fetched: Option<Candidate>, version: string, target: string) {
    && release == Release("v" + version, true, true)
    && fetched == Some(Candidate(Info(version, target), "lingshu-gate " + version))
  }

  /** A release is looked at exactly when marker and active bundle are good and the tag is `v` and a version. */
  lemma WantedExactly(disk: Disk, release: Release)
    ensures Wanted(disk, release) <==>
      && Parse(State(disk).active).Some? && Selectable(disk, State(disk).active)
      && (State(disk).skipped == None || Parse(State(disk).skipped.value).Some?)
      && release.stable && exists text :: Parse(text).Some? && release.tag == "v" + text
  {
    if Wanted(disk, release) {
      assert release.tag == "v" + release.tag[1..];
    }
    if text :| Parse(text).Some? && release.tag == "v" + text {
      assert release.tag[1..] == text;
    }
  }

  /** The ceiling is the higher of the active and the skipped version. */
  lemma CeilingIs(level: Level)
    ensures var top := Ceiling(level);
      && !Below(top, level.active) && (level.skipped.Some? ==> !Below(top, level.skipped.value))
      && (top == level.active || Some(top) == level.skipped)
  {
  }

  /** What was fetched is the bundle that the release advertised. */
  predicate Genuine(disk: Disk, release: Release, fetched: Option<Candidate>) {
    && release.assetOk && fetched.Some? && release.tag != ""
    && fetched.value.info == Info(release.tag[1..], disk.base.target)
    && fetched.value.reported == "lingshu-gate " + release.tag[1..]
  }

  class Updater {
    const base: Info
    var marker: Option<Marker>
    var bundles: map<string, Info>

    constructor (base: Info)
      ensures this.base == base && View() == Disk(base, None, map[])
    {
      this.base := base;
      marker := None;
      bundles := map[];
    }

    function View(): Disk
      reads this
    {
      Disk(base, marker, bundles)
    }

    /**
     `install`: fetch, retire an old directory of the same name, move the candidate in, replace
     the marker. It may stop before any of the three.
     */
    method Install(release: Release, fetched: Option<Candidate>, stop: Stop) returns (outcome: Outcome)
      modifies this
      ensures Step(old(View()), View())
      ensures marker != old(marker) ==> Installs(old(View()), View())
      ensures var before := old(View());
        match outcome
        case Now(v) =>
          && Wanted(before, release)
          && v == State(View()).active
          && (if Below(Ceiling(LevelOf(before)), Read(release.tag[1..]))
              then Installs(before, View()) && Offers(release, fetched, v, base.target) && stop == Never
              else View() == before)
        case Refused =>
          View() == before && !(Wanted(before, release) && Offers(release, fetched, release.tag[1..], base.target))
        case Interrupted =>
          && Wanted(before, release) && marker == old(marker)
          && var v := release.tag[1..];
          && Below(Ceiling(LevelOf(before)), Read(v)) && Offers(release, fetched, v, base.target)
          && match stop
             case AtRetire => bundles == old(bundles)
             case AtRename => bundles == old(bundles) - {v}
             case AtMarker => bundles == old(bundles)[v := Info(v, base.target)]
             case Never => false
    {
      outcome := Refused;
      var state := State(View());
      if !Wanted(View(), release) { return; }
      var proposed := release.tag[1..];
      assert release.tag == "v" + proposed;
      if !Below(Ceiling(LevelOf(View())), Read(proposed)) {
        return Now(state.active);
      }
      if !Genuine(View(), release, fetched) { return; }
      outcome := Interrupted;
      if stop == AtRetire { return; }
      if proposed in bundles {
        bundles := bundles - {proposed};
      }
      if stop == AtRename { return; }
      bundles := bundles[proposed := fetched.value.info];
      if stop == AtMarker { return; }
      marker := Some(Marker(proposed, Some(state.active), None));
      outcome := Now(proposed);
    }

    /** The rollback branch of `main`. */
    method Rollback(stop: Stop) returns (outcome: Outcome)
      modifies this`marker
      ensures Step(old(View()), View())
      ensures outcome.Now? ==> RollsBack(old(View()), View()) && outcome.version == State(View()).active
      ensures !outcome.Now? ==> View() == old(View())
      ensures outcome.Now? <==>
        && State(old(View())).previous.Some?
        && Selectable(old(View()), State(old(View())).previous.value)
        && stop == Never
    {
      var state := State(View());
      if state.previous.None? || !Selectable(View(), state.previous.value) {
        return Refused;
      }
      if stop != Never {
        return Interrupted;
      }
      marker := Some(Marker(state.previous.value, None, Some(state.active)));
      outcome := Now(state.previous.value);
    }
  }

  // ---------------------------------------------------------------------------
  // One step
  // ---------------------------------------------------------------------------

  predicate LevelInstalls(before: Level, after: Level) {
    after == Level(after.active, Some(before.active), None) && Below(Ceiling(before), after.active)
  }

  predicate LevelRollsBack(before: Level, after: Level) {
    before.previous.Some? && after == Level(before.previous.value, None, Some(before.active))
  }

  predicate LevelStep(before: Level, after: Level) {
    LevelInstalls(before, after) || LevelRollsBack(before, after) || after == before
  }

  lemma NeverNamed(disk: Disk, proposed: string)
    requires Sound(disk) && Below(Ceiling(LevelOf(disk)), Read(proposed))
    ensures State(disk).active != proposed
    ensures State(disk).previous != Some(proposed)
  {
  }

  lemma SelectableStays(before: Disk, after: Disk, proposed: string, current: string)
    requires Selectable(before, current) && current != proposed
    requires after.base == before.base && Differs(before, after, proposed)
    ensures Selectable(after, current)
  {
  }

  lemma StallsKeepsSound(before: Disk, after: Disk)
    requires Sound(before) && Stalls(before, after)
    ensures Sound(after) && LevelOf(after) == LevelOf(before)
  {
    if after != before {
      var proposed: string :| Below(Ceiling(LevelOf(before)), Read(proposed)) && Differs(before, after, proposed);
      NeverNamed(before, proposed);
      SelectableStays(before, after, proposed, State(before).active);
      if State(before).previous.Some? {
        SelectableStays(before, after, proposed, State(before).previous.value);
      }
    }
  }

  lemma InstallsKeepsSound(before: Disk, after: Disk)
    requires Sound(before) && Installs(before, after)
    ensures Sound(after) && LevelInstalls(LevelOf(before), LevelOf(after))
  {
  }

  lemma RollsBackKeepsSound(before: Disk, after: Disk)
    requires Sound(before) && RollsBack(before, after)
    ensures Sound(after) && LevelRollsBack(LevelOf(before), LevelOf(after))
  {
  }

  lemma StepKeepsSound(before: Disk, after: Disk)
    requires Sound(before) && Step(before, after)
    ensures Sound(after) && LevelStep(LevelOf(before), LevelOf(after))
  {
    if Installs(before, after) {
      InstallsKeepsSound(before, after);
    } else if RollsBack(before, after) {
      RollsBackKeepsSound(before, after);
    } else {
      StallsKeepsSound(before, after);
    }
  }

  // ---------------------------------------------------------------------------
  // Every run
  // ---------------------------------------------------------------------------

  /** A run: any number of updates and rollbacks, whatever was advertised, stopped anywhere. */
  ghost predicate Run(disks: seq<Disk>) {
    && disks != []
    && Fresh(disks[0])
    && forall i :: 0 < i < |disks| ==> Step(disks[i - 1], disks[i])
  }

  /** The bundles named by active and previous exist at every point of every run. */
  lemma {:induction false} RunIsSound(disks: seq<Disk>, k: nat)
    requires Run(disks) && k < |disks|
    ensures Sound(disks[k])
  {
    if k > 0 {
      RunIsSound(disks, k - 1);
      StepKeepsSound(disks[k - 1], disks[k]);
    }
  }

  function Levels(disks: seq<Disk>): (levels: seq<Level>)
    ensures |levels| == |disks| && forall i :: 0 <= i < |disks| ==> levels[i] == LevelOf(disks[i])
  {
    seq(|disks|, i requires 0 <= i < |disks| => LevelOf(disks[i]))
  }

  /** The same run, versions only. */
  predicate LevelRun(levels: seq<Level>) {
    && levels != []
    && levels[0].previous.None? && levels[0].skipped.None?
    && (forall i :: 0 <= i < |levels| ==> Ordered(levels[i]))
    && (forall i :: 0 < i < |levels| ==> LevelStep(levels[i - 1], levels[i]))
  }

  lemma RunOfLevels(disks: seq<Disk>)
    requires Run(disks)
    ensures LevelRun(Levels(disks))
  {
    var levels := Levels(disks);
    forall i | 0 <= i < |levels| ensures Ordered(levels[i]) {
      RunIsSound(disks, i);
    }
    forall i | 0 < i < |levels| ensures LevelStep(levels[i - 1], levels[i]) {
      RunIsSound(disks, i - 1);
      StepKeepsSound(disks[i - 1], disks[i]);
    }
  }

  lemma {:induction false} CeilingGrows(levels: seq<Level>, i: nat, k: nat)
    requires LevelRun(levels) && i <= k < |levels|
    ensures !Below(Ceiling(levels[k]), Ceiling(levels[i]))
    decreases k
  {
    if i < k {
      CeilingGrows(levels, i, k - 1);
      assert LevelStep(levels[k - 1], levels[k]) && Ordered(levels[k - 1]);
    }
  }

  lemma {:induction false} CeilingWasActive(levels: seq<Level>, k: nat) returns (i: nat)
    requires LevelRun(levels) && k < |levels|
    ensures i <= k && levels[i].active == Ceiling(levels[k])
  {
    if k == 0 || levels[k].skipped.None? {
      return k;
    }
    assert LevelStep(levels[k - 1], levels[k]) && Ordered(levels[k]);
    if LevelRollsBack(levels[k - 1], levels[k]) {
      return k - 1;
    }
    i := CeilingWasActive(levels, k - 1);
  }

  /** The larger of active and skipped is the highest version that was ever active. */
  lemma CeilingIsHighestActive(disks: seq<Disk>, k: nat)
    requires Run(disks) && k < |disks|
    ensures forall i :: 0 <= i <= k ==> !Below(Ceiling(LevelOf(disks[k])), LevelOf(disks[i]).active)
    ensures exists i :: 0 <= i <= k && LevelOf(disks[i]).active == Ceiling(LevelOf(disks[k]))
  {
    RunOfLevels(disks);
    var levels := Levels(disks);
    forall i | 0 <= i <= k ensures !Below(Ceiling(levels[k]), levels[i].active) {
      CeilingGrows(levels, i, k);
    }
    var i := CeilingWasActive(levels, k);
    assert LevelOf(disks[i]).active == Ceiling(LevelOf(disks[k]));
  }

  /** Each installed release is above every version that was active before it. */
  lemma InstallsRise(disks: seq<Disk>, i: nat, k: nat)
    requires Run(disks) && i < k < |disks| && Installs(disks[k - 1], disks[k])
    ensures Below(LevelOf(disks[i]).active, LevelOf(disks[k]).active)
  {
    var levels := Levels(disks);
    InstallsInRun(disks, k);
    LevelInstallsRise(levels, i, k);
  }

  lemma InstallsInRun(disks: seq<Disk>, k: nat)
    requires Run(disks) && 0 < k < |disks| && Installs(disks[k - 1], disks[k])
    ensures LevelRun(Levels(disks)) && LevelInstalls(Levels(disks)[k - 1], Levels(disks)[k])
  {
    RunOfLevels(disks);
    InstallsFromSound(disks, k);
  }

  lemma InstallsFromSound(disks: seq<Disk>, k: nat)
    requires Run(disks) && 0 < k < |disks| && Installs(disks[k - 1], disks[k])
    ensures LevelInstalls(LevelOf(disks[k - 1]), LevelOf(disks[k]))
  {
    var before, after := disks[k - 1], disks[k];
    RunIsSound(disks, k - 1);
    InstallsKeepsSound(before, after);
  }

  lemma LevelInstallsRise(levels: seq<Level>, i: nat, k: nat)
    requires LevelRun(levels) && i < k < |levels| && LevelInstalls(levels[k - 1], levels[k])
    ensures Below(levels[i].active, levels[k].active)
  {
    CeilingGrows(levels, i, k - 1);
    assert Ordered(levels[i]);
  }

  /** A version that can no longer become active. */
  predicate Excluded(level: Level, v: Version) {
    !Below(Ceiling(level), v) && level.active != v && level.previous != Some(v)
  }

  lemma {:induction false} ExclusionLasts(levels: seq<Level>, i: nat, k: nat, v: Version)
    requires LevelRun(levels) && i <= k < |levels| && Excluded(levels[i], v)
    ensures Excluded(levels[k], v)
    decreases k
  {
    if i < k {
      ExclusionLasts(levels, i, k - 1, v);
      assert LevelStep(levels[k - 1], levels[k]) && Ordered(levels[k - 1]);
    }
  }

  /** A version that was rolled back is never active again. */
  lemma RolledBackStaysOut(disks: seq<Disk>, i: nat, k: nat)
    requires Run(disks) && 0 < i <= k < |disks| && RollsBack(disks[i - 1], disks[i])
    ensures LevelOf(disks[k]).active != LevelOf(disks[i - 1]).active
    ensures State(disks[k]).active != State(disks[i - 1]).active
  {
    RunOfLevels(disks);
    var levels := Levels(disks);
    RunIsSound(disks, i - 1);
    RollsBackKeepsSound(disks[i - 1], disks[i]);
    assert Ordered(levels[i - 1]) && LevelRollsBack(levels[i - 1], levels[i]);
    ExclusionLasts(levels, i, k, levels[i - 1].active);
  }
}
