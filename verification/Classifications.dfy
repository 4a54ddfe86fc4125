/**
 The review lifecycle of tool classifications: discovery may only tighten a row, a reviewer's
 decision holds for the fingerprint it was made against, and nothing else opens a tool.
 */
module Classifications {
  import opened Common
  import opened AccessPolicy

  datatype Key = Key(server: string, tool: string)

  /** The part of the evidence that decides whether a tool has left its server. */
  datatype Lifecycle = NoRecord | Active | Retired

  datatype Row = Row(
    fingerprint: string,
    suggested: Access,
    effective: Access,
    status: Status,
    manual: bool,
    lifecycle: Lifecycle)

  type Rows = map<Key, Row>

  /** A discovered tool, reduced to its fingerprint and the rule engine's suggestion. */
  datatype Tool = Tool(key: Key, fingerprint: string, suggestion: Access)

  // ---------------------------------------------------------------------------
  // Discovery
  // ---------------------------------------------------------------------------

  function SyncOne(rows: Rows, t: Tool): Rows {
    if t.key !in rows then rows[t.key := Row(t.fingerprint, t.suggestion, Unknown, Pending, false, NoRecord)]
    else
      var row := rows[t.key];
      if row.fingerprint != t.fingerprint then
        rows[t.key := Row(t.fingerprint, t.suggestion, Unknown, Stale, false, NoRecord)]
      else if row.status == Published || row.manual then rows
      else rows[t.key := row.(suggested := t.suggestion, manual := false)]
  }

  function SyncAll(rows: Rows, tools: seq<Tool>): Rows {
    if tools == [] then rows else SyncOne(SyncAll(rows, tools[..|tools| - 1]), tools[|tools| - 1])
  }

  function Ids(tools: seq<Tool>): set<Key> { set t | t in tools :: t.key }

  /** The fingerprint the last definition with this key carries. */
  function LastFingerprint(tools: seq<Tool>, key: Key): string
    requires key in Ids(tools)
  {
    var n := |tools| - 1;
    if tools[n].key == key then tools[n].fingerprint
    else
      assert key in Ids(tools[..n]) by { assert tools == tools[..n] + [tools[n]]; }
      LastFingerprint(tools[..n], key)
  }

  // ---------------------------------------------------------------------------
  // Reconciliation of one server
  // ---------------------------------------------------------------------------

  function Retire(row: Row): Row {
    row.(suggested := Unknown, effective := Unknown, status := Stale, lifecycle := Retired)
  }

  function Revive(row: Row): Row {
    row.(effective := Unknown, status := Stale, lifecycle := Active)
  }

  predicate Leaves(before: Rows, server: string, ids: set<Key>, key: Key) {
    key in before && key.server == server && key !in ids && before[key].lifecycle != Retired
  }

  predicate Returns(before: Rows, ids: set<Key>, key: Key) {
    key in before && key in ids && before[key].lifecycle == Retired
  }

  predicate WasRetired(before: Rows, key: Key) {
    key in before && before[key].lifecycle == Retired
  }

  /** How many definitions belong to a tool that had been retired. */
  function Reappearances(before: Rows, tools: seq<Tool>): nat {
    if tools == [] then 0
    else Reappearances(before, tools[..|tools| - 1]) + if WasRetired(before, tools[|tools| - 1].key) then 1 else 0
  }

  function ReconciledRow(before: Rows, synced: Rows, server: string, ids: set<Key>, key: Key): Row
    requires key in synced
  {
    if Leaves(before, server, ids, key) then Retire(before[key])
    else if Returns(before, ids, key) then Revive(synced[key])
    else synced[key]
  }

  function Reconciled(before: Rows, server: string, tools: seq<Tool>): Rows {
    var synced := SyncAll(before, tools);
    map key | key in synced :: ReconciledRow(before, synced, server, Ids(tools), key)
  }

  datatype Report = Report(added: set<Key>, changed: set<Key>, reappeared: set<Key>, retired: set<Key>,
                           same: set<Key>, needsReview: set<Key>, reappearances: nat)

  datatype ReconcileResult = Done(report: Report) | ServerMismatch | PermissionsExpanded

  // ---------------------------------------------------------------------------
  // Reviewer operations
  // ---------------------------------------------------------------------------

  datatype ReviewError = InvalidAccess | NotFound | InvalidItems | ConfirmationConflict

  datatype ReviewResult = Reviewed(rows: Rows) | Refused(error: ReviewError)

  function SetSpec(rows: Rows, key: Key, access: Access): ReviewResult {
    if access == NoAccess then Refused(InvalidAccess)
    else if key !in rows then Refused(NotFound)
    else Reviewed(rows[key := rows[key].(effective := access, status := Pending, manual := true)])
  }

  datatype Item = Item(server: string, tool: string, fingerprint: string)

  const MAX_ITEMS: nat := 500

  /** An item without the white space around its parts. */
  datatype Wanted = Wanted(key: Key, fingerprint: string)

  function WantedBy(item: Item): Wanted { Wanted(Key(Strip(item.server), Strip(item.tool)), Strip(item.fingerprint)) }

  function AllWanted(items: seq<Item>): (wanted: seq<Wanted>)
    ensures |wanted| == |items| && forall i :: 0 <= i < |items| ==> wanted[i] == WantedBy(items[i])
  {
    seq(|items|, i requires 0 <= i < |items| => WantedBy(items[i]))
  }

  predicate Complete(w: Wanted) { w.key.server != "" && w.key.tool != "" && w.fingerprint != "" }

  /** The targets of a confirmation, or the first item that spoils it. */
  function Targets(wanted: seq<Wanted>, found: map<Key, string>): Option<map<Key, string>>
    decreases |wanted|
  {
    if wanted == [] then Some(found)
    else
      var w := wanted[0];
      if !Complete(w) || (w.key in found && found[w.key] != w.fingerprint) then None
      else Targets(wanted[1..], found[w.key := w.fingerprint])
  }

  /** Is the spoiling item one whose fingerprint contradicts an earlier item? */
  predicate Contradicts(wanted: seq<Wanted>, found: map<Key, string>)
    decreases |wanted|
  {
    wanted != [] && Complete(wanted[0]) &&
    var w := wanted[0];
    (w.key in found && found[w.key] != w.fingerprint) || Contradicts(wanted[1..], found[w.key := w.fingerprint])
  }

  /** What a confirmation settles on: the reviewer's own choice, else the suggestion. */
  function Settled(row: Row): Access {
    if Decided(row.effective) then row.effective else row.suggested
  }

  predicate Confirms(row: Row) { row.status != Published && Decided(Settled(row)) }

  function ConfirmedRow(row: Row, publish: bool): Row {
    if Confirms(row)
    then row.(effective := Settled(row), status := if publish then Published else Pending, manual := true)
    else row
  }

  function ConfirmedRows(rows: Rows, targets: map<Key, string>, publish: bool): Rows {
    map key | key in rows :: if key in targets then ConfirmedRow(rows[key], publish) else rows[key]
  }

  predicate UpToDate(rows: Rows, targets: map<Key, string>) {
    forall key :: key in targets ==> key in rows && rows[key].fingerprint == targets[key]
  }

  function ConfirmSpec(rows: Rows, items: seq<Item>, publish: bool): ReviewResult {
    if items == [] || |items| > MAX_ITEMS then Refused(InvalidItems)
    else match Targets(AllWanted(items), map[])
      case None => Refused(if Contradicts(AllWanted(items), map[]) then ConfirmationConflict else InvalidItems)
      case Some(targets) =>
        if UpToDate(rows, targets) then Reviewed(ConfirmedRows(rows, targets, publish))
        else Refused(ConfirmationConflict)
  }

  /** An absent filter selects everything, as does an empty list of tool ids. */
  predicate Publishes(key: Key, row: Row, server: string, tools: set<string>) {
    Decided(row.effective) && (server == "" || key.server == server) && (tools == {} || key.tool in tools)
  }

  function PublishSpec(rows: Rows, server: string, tools: set<string>): Rows {
    map key | key in rows :: if Publishes(key, rows[key], server, tools) then rows[key].(status := Published)
      else rows[key]
  }

  // ---------------------------------------------------------------------------
  // Row invariants
  // ---------------------------------------------------------------------------

  ghost predicate RowOk(row: Row) {
    && (row.status == Stale ==> row.effective == Unknown)
    && row.effective != NoAccess && row.suggested != NoAccess
  }

  ghost predicate RowsOk(rows: Rows) { forall key :: key in rows ==> RowOk(rows[key]) }

  predicate PublishedRowOk(row: Row) { row.status == Published ==> Decided(row.effective) }

  /** Published rows are read or write. */
  ghost predicate PublishedOk(rows: Rows) { forall key :: key in rows ==> PublishedRowOk(rows[key]) }

  ghost predicate ToolsOk(tools: seq<Tool>) { forall t :: t in tools ==> t.suggestion != NoAccess }

  /** Discovery may take access away but never give it. */
  ghost predicate Tightens(before: Rows, after: Rows, key: Key) {
    && (key in before ==> key in after)
    && (key in after ==>
          if key in before
          then (|| (after[key].effective == before[key].effective && after[key].fingerprint == before[key].fingerprint)
                || after[key].effective == Unknown)
          else after[key].effective == Unknown)
  }

  function EffectiveBefore(before: Rows, key: Key): Access {
    if key in before then before[key].effective else Unknown
  }

  lemma SyncOneTightens(rows: Rows, t: Tool, key: Key)
    ensures Tightens(rows, SyncOne(rows, t), key)
    ensures key != t.key ==>
      (key in SyncOne(rows, t) <==> key in rows) && (key in rows ==> SyncOne(rows, t)[key] == rows[key])
    ensures t.key in SyncOne(rows, t) && SyncOne(rows, t)[t.key].fingerprint == t.fingerprint
    ensures RowsOk(rows) && t.suggestion != NoAccess ==> RowsOk(SyncOne(rows, t))
    ensures PublishedOk(rows) ==> PublishedOk(SyncOne(rows, t))
  {
  }

  /** What discovery leaves: every definition's fingerprint, other rows untouched, no new access. */
  lemma {:induction false} SyncAllTightens(rows: Rows, tools: seq<Tool>, key: Key)
    ensures Tightens(rows, SyncAll(rows, tools), key)
    ensures key !in Ids(tools) ==>
      (key in SyncAll(rows, tools) <==> key in rows) && (key in rows ==> SyncAll(rows, tools)[key] == rows[key])
    ensures key in Ids(tools) ==>
      key in SyncAll(rows, tools) && SyncAll(rows, tools)[key].fingerprint == LastFingerprint(tools, key)
    ensures RowsOk(rows) && ToolsOk(tools) ==> RowsOk(SyncAll(rows, tools))
    ensures PublishedOk(rows) ==> PublishedOk(SyncAll(rows, tools))
    decreases |tools|
  {
    if tools != [] {
      var n := |tools| - 1;
      assert tools == tools[..n] + [tools[n]];
      SyncAllTightens(rows, tools[..n], key);
      SyncOneTightens(SyncAll(rows, tools[..n]), tools[n], key);
    }
  }

  lemma ReconciledTightens(before: Rows, server: string, tools: seq<Tool>, key: Key)
    ensures Tightens(before, Reconciled(before, server, tools), key)
  {
    SyncAllTightens(before, tools, key);
  }

  lemma ReconciledOk(before: Rows, server: string, tools: seq<Tool>)
    ensures RowsOk(before) && ToolsOk(tools) ==> RowsOk(Reconciled(before, server, tools))
    ensures PublishedOk(before) ==> PublishedOk(Reconciled(before, server, tools))
  {
    SyncAllTightens(before, tools, Key("", ""));
  }

  // ---------------------------------------------------------------------------
  // What each operation leaves in a row
  // ---------------------------------------------------------------------------

  /** The definitions of one tool, in order. */
  function Listed(tools: seq<Tool>, key: Key): seq<Tool> {
    if tools == [] then []
    else
      var n := |tools| - 1;
      Listed(tools[..n], key) + if tools[n].key == key then [tools[n]] else []
  }

  predicate AllCarry(listed: seq<Tool>, fingerprint: string) {
    forall i :: 0 <= i < |listed| ==> listed[i].fingerprint == fingerprint
  }

  /**
   A row after discovery, told from all definitions of its tool at once. A row whose fingerprint all
   of them carry is kept, and an unreviewed one takes the last suggestion; a new tool is pending;
   any change of fingerprint on the way leaves the row closed and stale.
   */
  function DiscoveredRow(rows: Rows, listed: seq<Tool>, key: Key): Row
    requires listed != []
  {
    var last := listed[|listed| - 1];
    if key in rows && AllCarry(listed, rows[key].fingerprint) then
      if rows[key].status == Published || rows[key].manual then rows[key]
      else Row(last.fingerprint, last.suggestion, rows[key].effective, rows[key].status, false, rows[key].lifecycle)
    else if key !in rows && AllCarry(listed, last.fingerprint) then
      Row(last.fingerprint, last.suggestion, Unknown, Pending, false, NoRecord)
    else Row(last.fingerprint, last.suggestion, Unknown, Stale, false, NoRecord)
  }

  predicate IsDiscovered(rows: Rows, after: Rows, listed: seq<Tool>, key: Key) {
    if listed == [] then (key in after <==> key in rows) && (key in rows ==> after[key] == rows[key])
    else key in after && after[key] == DiscoveredRow(rows, listed, key)
  }

  lemma {:induction false} DiscoveryOutcome(rows: Rows, tools: seq<Tool>, key: Key)
    ensures IsDiscovered(rows, SyncAll(rows, tools), Listed(tools, key), key)
    decreases |tools|
  {
    if tools != [] {
      var n := |tools| - 1;
      DiscoveryOutcome(rows, tools[..n], key);
      if tools[n].key == key {
        NextDefinition(rows, SyncAll(rows, tools[..n]), Listed(tools[..n], key), tools[n]);
      } else {
        assert Listed(tools, key) == Listed(tools[..n], key);
      }
    }
  }

  /** One more definition of a tool. */
  lemma NextDefinition(rows: Rows, before: Rows, listed: seq<Tool>, t: Tool)
    requires IsDiscovered(rows, before, listed, t.key)
    ensures IsDiscovered(rows, SyncOne(before, t), listed + [t], t.key)
  {
    var longer := listed + [t];
    forall f ensures AllCarry(longer, f) <==> AllCarry(listed, f) && t.fingerprint == f {
      assert longer[|listed|] == t;
      assert forall i :: 0 <= i < |listed| ==> longer[i] == listed[i];
    }
    if listed != [] {
      assert listed[|listed| - 1].fingerprint == t.fingerprint || !AllCarry(longer, t.fingerprint);
      assert forall f :: AllCarry(listed, f) ==> listed[|listed| - 1].fingerprint == f;
    }
  }

  /**
   A row after reconciliation: a tool of the server that is gone is closed and retired with its
   fingerprint kept, a tool that is back is closed and active, and discovery decides the rest.
   */
  lemma ReconcileOutcome(before: Rows, server: string, tools: seq<Tool>, key: Key)
    ensures var after, listed := Reconciled(before, server, tools), Listed(tools, key);
      && (key in after <==> key in before || listed != [])
      && (key in before && listed == [] && key.server == server && before[key].lifecycle != Retired ==>
            after[key] == Row(before[key].fingerprint, Unknown, Unknown, Stale, before[key].manual, Retired))
      && (key in before && listed == [] && (key.server != server || before[key].lifecycle == Retired) ==>
            after[key] == before[key])
      && (listed != [] ==>
            var found := DiscoveredRow(before, listed, key);
            after[key] == if key in before && before[key].lifecycle == Retired
                          then Row(found.fingerprint, found.suggested, Unknown, Stale, found.manual, Active) else found)
  {
    DiscoveryOutcome(before, tools, key);
    ListedIds(tools, key);
  }

  lemma {:induction false} ListedIds(tools: seq<Tool>, key: Key)
    ensures Listed(tools, key) != [] <==> key in Ids(tools)
    decreases |tools|
  {
    if tools != [] {
      var n := |tools| - 1;
      assert tools == tools[..n] + [tools[n]];
      ListedIds(tools[..n], key);
    }
  }

  /** A direct choice: refused for "none" or a missing row; else the row is manual and pending with this access. */
  lemma ChoiceOutcome(rows: Rows, key: Key, access: Access)
    ensures match SetSpec(rows, key, access)
      case Refused(InvalidAccess) => access == NoAccess
      case Refused(e) => e == NotFound && access != NoAccess && key !in rows
      case Reviewed(after) =>
        && access != NoAccess && after.Keys == rows.Keys && key in rows
        && (forall k :: k in rows && k != key ==> after[k] == rows[k])
        && after[key] == Row(rows[key].fingerprint, rows[key].suggested, access, Pending, true, rows[key].lifecycle)
  {
  }

  /** A publication changes no access; a row is published after it exactly if it was, or is decided and selected. */
  lemma PublishOutcome(rows: Rows, server: string, tools: set<string>, key: Key)
    requires key in rows
    ensures PublishSpec(rows, server, tools).Keys == rows.Keys
    ensures var row, after := rows[key], PublishSpec(rows, server, tools)[key];
      && after == Row(row.fingerprint, row.suggested, row.effective, after.status, row.manual, row.lifecycle)
      && (if row.effective in {Read, Write} && server in {"", key.server} && (tools == {} || key.tool in tools)
          then after.status == Published else after.status == row.status)
  {
  }

  /** The first `n` items are complete, and items for one tool carry one fingerprint. */
  predicate Consistent(wanted: seq<Wanted>, n: nat)
    requires n <= |wanted|
  {
    && (forall i :: 0 <= i < n ==> Complete(wanted[i]))
    && (forall i, j :: 0 <= i < j < n && wanted[i].key == wanted[j].key ==> wanted[i] == wanted[j])
  }

  ghost predicate Collected(wanted: seq<Wanted>, n: nat, found: map<Key, string>)
    requires n <= |wanted|
  {
    && Consistent(wanted, n)
    && (forall i :: 0 <= i < n ==> wanted[i].key in found && found[wanted[i].key] == wanted[i].fingerprint)
    && (forall key :: key in found ==> Wanted(key, found[key]) in wanted[..n])
  }

  lemma CollectedMore(wanted: seq<Wanted>, n: nat, found: map<Key, string>)
    requires n < |wanted| && Collected(wanted, n, found) && Complete(wanted[n])
    requires wanted[n].key in found ==> found[wanted[n].key] == wanted[n].fingerprint
    ensures Collected(wanted, n + 1, found[wanted[n].key := wanted[n].fingerprint])
  {
    assert wanted[..n + 1] == wanted[..n] + [wanted[n]];
  }

  lemma CollectedClash(wanted: seq<Wanted>, n: nat, found: map<Key, string>)
    requires n < |wanted| && Collected(wanted, n, found)
    requires wanted[n].key in found && found[wanted[n].key] != wanted[n].fingerprint
    ensures !Consistent(wanted, n + 1)
  {
    var i :| 0 <= i < n && wanted[..n][i] == Wanted(wanted[n].key, found[wanted[n].key]);
    assert wanted[i].key == wanted[n].key;
  }

  /** One more item: it spoils the request, contradicts an earlier one, or is collected. */
  lemma OneMore(wanted: seq<Wanted>, n: nat, found: map<Key, string>)
    requires n < |wanted|
    ensures var w, targets := wanted[n], Targets(wanted[n..], found);
      if !Complete(w) then targets == None && !Contradicts(wanted[n..], found)
      else if w.key in found && found[w.key] != w.fingerprint then targets == None && Contradicts(wanted[n..], found)
      else
        var more := found[w.key := w.fingerprint];
        && targets == Targets(wanted[n + 1..], more)
        && (Contradicts(wanted[n..], found) <==> Contradicts(wanted[n + 1..], more))
  {
    assert wanted[n..][0] == wanted[n] && wanted[n..][1..] == wanted[n + 1..];
  }

  /** Where the collection stops, and what it has come to. */
  ghost predicate StopsAt(wanted: seq<Wanted>, bad: nat, targets: Option<map<Key, string>>, contradicts: bool) {
    && bad <= |wanted| && Consistent(wanted, bad)
    && if bad == |wanted| then targets.Some? && Collected(wanted, bad, targets.value)
       else targets == None && !Consistent(wanted, bad + 1) && (contradicts <==> Complete(wanted[bad]))
  }

  /** The collection of targets stops at the end, or at the first item that spoils the request. */
  lemma {:induction false} TargetsFrom(wanted: seq<Wanted>, n: nat, found: map<Key, string>) returns (bad: nat)
    requires n <= |wanted| && Collected(wanted, n, found)
    ensures StopsAt(wanted, bad, Targets(wanted[n..], found), Contradicts(wanted[n..], found))
    decreases |wanted| - n
  {
    bad := n;
    if n < |wanted| {
      var w := wanted[n];
      OneMore(wanted, n, found);
      if Complete(w) && (w.key in found ==> found[w.key] == w.fingerprint) {
        CollectedMore(wanted, n, found);
        bad := TargetsFrom(wanted, n + 1, found[w.key := w.fingerprint]);
      } else if Complete(w) {
        CollectedClash(wanted, n, found);
      }
    } else {
      assert wanted[n..] == [];
    }
  }

  lemma UpToDateItems(rows: Rows, wanted: seq<Wanted>, targets: map<Key, string>)
    requires Collected(wanted, |wanted|, targets)
    ensures UpToDate(rows, targets) <==> forall i :: 0 <= i < |wanted| ==>
      wanted[i].key in rows && rows[wanted[i].key].fingerprint == wanted[i].fingerprint
  {
    assert wanted[..|wanted|] == wanted;
    forall key | key in targets ensures exists i :: 0 <= i < |wanted| && wanted[i] == Wanted(key, targets[key]) {
    }
  }

  lemma TargetsAccepted(rows: Rows, wanted: seq<Wanted>)
    ensures Targets(wanted, map[]).Some? && UpToDate(rows, Targets(wanted, map[]).value) <==>
      && Consistent(wanted, |wanted|)
      && forall i :: 0 <= i < |wanted| ==>
           wanted[i].key in rows && rows[wanted[i].key].fingerprint == wanted[i].fingerprint
  {
    var bad := TargetsFrom(wanted, 0, map[]);
    assert wanted[0..] == wanted;
    if bad == |wanted| {
      UpToDateItems(rows, wanted, Targets(wanted, map[]).value);
    }
  }

  lemma TargetsRefused(wanted: seq<Wanted>)
    ensures (exists n :: 0 <= n < |wanted| && Consistent(wanted, n) && !Complete(wanted[n])) <==>
      Targets(wanted, map[]).None? && !Contradicts(wanted, map[])
  {
    var bad := TargetsFrom(wanted, 0, map[]);
    assert wanted[0..] == wanted;
    forall n | 0 <= n < |wanted| && Consistent(wanted, n) && !Complete(wanted[n]) ensures n == bad {
      FirstSpoiled(wanted, n, bad);
    }
  }

  lemma FirstSpoiled(wanted: seq<Wanted>, n: nat, bad: nat)
    requires n < |wanted| && Consistent(wanted, n) && !Complete(wanted[n])
    requires bad <= |wanted| && Consistent(wanted, bad) && (bad < |wanted| ==> !Consistent(wanted, bad + 1))
    ensures n == bad
  {
    if bad < n {
      assert Consistent(wanted, bad + 1);
    }
  }

  lemma TargetsNamed(wanted: seq<Wanted>, key: Key)
    requires Targets(wanted, map[]).Some?
    ensures key in Targets(wanted, map[]).value <==> exists w :: w in wanted && w.key == key
  {
    var bad := TargetsFrom(wanted, 0, map[]);
    assert wanted[0..] == wanted && wanted[..|wanted|] == wanted;
    var targets := Targets(wanted, map[]).value;
    if key in targets {
      assert Wanted(key, targets[key]) in wanted;
    }
  }

  /**
   A confirmation is accepted exactly when it has 1 to 500 complete items, no two of them with
   different fingerprints for one tool, and every named row carries the fingerprint named.
   */
  lemma ConfirmAccepted(rows: Rows, items: seq<Item>, publish: bool)
    ensures var wanted := AllWanted(items);
      ConfirmSpec(rows, items, publish).Reviewed? <==>
        && 1 <= |items| <= 500 && Consistent(wanted, |items|)
        && forall i :: 0 <= i < |items| ==>
             wanted[i].key in rows && rows[wanted[i].key].fingerprint == wanted[i].fingerprint
  {
    TargetsAccepted(rows, AllWanted(items));
  }

  /** A refusal: malformed when the first item that spoils the request is incomplete, else a conflict. */
  lemma ConfirmRefused(rows: Rows, items: seq<Item>, publish: bool)
    requires ConfirmSpec(rows, items, publish).Refused? && 1 <= |items| <= 500
    ensures var error, wanted := ConfirmSpec(rows, items, publish).error, AllWanted(items);
      && error in {InvalidItems, ConfirmationConflict}
      && (error == InvalidItems <==> exists n :: 0 <= n < |items| && Consistent(wanted, n) && !Complete(wanted[n]))
  {
    TargetsRefused(AllWanted(items));
  }

  /**
   An accepted confirmation keeps the access that a reviewer chose, gives an undecided row its
   suggestion, and leaves alone published rows, rows without either, and rows that are not named.
   */
  lemma ConfirmOutcome(rows: Rows, items: seq<Item>, publish: bool, key: Key)
    requires ConfirmSpec(rows, items, publish).Reviewed? && key in rows
    ensures ConfirmSpec(rows, items, publish).rows.Keys == rows.Keys
    ensures var row, after := rows[key], ConfirmSpec(rows, items, publish).rows[key];
      var named := exists w :: w in AllWanted(items) && w.key == key;
      var status := if publish then Published else Pending;
      after == if !named || row.status == Published then row
               else if row.effective in {Read, Write} then
                 Row(row.fingerprint, row.suggested, row.effective, status, true, row.lifecycle)
               else if row.suggested in {Read, Write} then
                 Row(row.fingerprint, row.suggested, row.suggested, status, true, row.lifecycle)
               else row
  {
    TargetsNamed(AllWanted(items), key);
  }

  // ---------------------------------------------------------------------------
  // The store object
  // ---------------------------------------------------------------------------

  function OfServer(rows: Rows, server: string): set<Key> { set key | key in rows && key.server == server }

  /** The targets, or the error of the first item that spoils the request. */
  method CollectTargets(items: seq<Item>) returns (targets: Option<map<Key, string>>, error: ReviewError)
    ensures targets == Targets(AllWanted(items), map[])
    ensures targets.None? ==>
      error == if Contradicts(AllWanted(items), map[]) then ConfirmationConflict else InvalidItems
  {
    ghost var wanted := AllWanted(items);
    var found: map<Key, string> := map[];
    assert wanted[0..] == wanted;
    for i := 0 to |items|
      invariant Targets(wanted, map[]) == Targets(wanted[i..], found)
      invariant Contradicts(wanted, map[]) == Contradicts(wanted[i..], found)
    {
      var server, tool, expected := Strip(items[i].server), Strip(items[i].tool), Strip(items[i].fingerprint);
      if server == "" || tool == "" || expected == "" {
        return None, InvalidItems;
      }
      var key := Key(server, tool);
      if key in found && found[key] != expected {
        return None, ConfirmationConflict;
      }
      found := found[key := expected];
      assert wanted[i..][1..] == wanted[i + 1..];
    }
    return Some(found), InvalidItems;
  }

  class ClassificationStore {
    var rows: Rows

    constructor (rows: Rows)
      ensures this.rows == rows
    {
      this.rows := rows;
    }

    method Synchronize(tools: seq<Tool>)
      modifies this
      ensures rows == SyncAll(old(rows), tools)
    {
      for i := 0 to |tools|
        invariant rows == SyncAll(old(rows), tools[..i])
      {
        assert tools[..i + 1][..i] == tools[..i];
        SyncTool(tools[i]);
      }
      assert tools[..|tools|] == tools;
    }

    method SyncTool(t: Tool)
      modifies this
      ensures rows == SyncOne(old(rows), t)
    {
      if t.key in rows && rows[t.key].fingerprint == t.fingerprint
         && (rows[t.key].status == Published || rows[t.key].manual)
      {
        return;
      }
      if t.key !in rows {
        rows := rows[t.key := Row(t.fingerprint, t.suggestion, Unknown, Pending, false, NoRecord)];
        return;
      }
      var existing := rows[t.key];
      if existing.fingerprint != t.fingerprint {
        rows := rows[t.key := Row(t.fingerprint, t.suggestion, Unknown, Stale, false, NoRecord)];
      } else {
        rows := rows[t.key := existing.(suggested := t.suggestion, manual := false)];
      }
    }

    /** Mark the tools that are gone; the evidence written back is the one read before discovery. */
    method RetireMissing(before: Rows, gone: set<Key>)
      requires gone <= before.Keys && gone <= rows.Keys
      modifies this
      ensures rows == map key | key in old(rows) :: if key in gone then Retire(before[key]) else old(rows)[key]
    {
      var pending := gone;
      while pending != {}
        invariant pending <= gone
        invariant rows == map key | key in old(rows) ::
                    if key in gone - pending then Retire(before[key]) else old(rows)[key]
        decreases pending
      {
        var key :| key in pending;
        pending := pending - {key};
        rows := rows[key := Retire(before[key])];
      }
    }

    /** `listed` counts the definitions of returning tools, repetitions included. */
    method ReviveReturned(tools: seq<Tool>, before: Rows) returns (returned: set<Key>, listed: nat)
      requires Ids(tools) <= rows.Keys
      modifies this
      ensures returned == set key | key in Ids(tools) && Returns(before, Ids(tools), key)
      ensures rows == map key | key in old(rows) :: if key in returned then Revive(old(rows)[key]) else old(rows)[key]
      ensures listed == Reappearances(before, tools)
    {
      returned, listed := {}, 0;
      for i := 0 to |tools|
        invariant listed == Reappearances(before, tools[..i])
        invariant returned == set key | key in Ids(tools[..i]) && Returns(before, Ids(tools), key)
        invariant rows == map key | key in old(rows) :: if key in returned then Revive(old(rows)[key])
          else old(rows)[key]
      {
        IdsGrow(tools, i);
        ReappearancesGrow(before, tools, i);
        var key := tools[i].key;
        assert key in Ids(tools);
        if key in before && before[key].lifecycle == Retired {
          returned, listed := returned + {key}, listed + 1;
          rows := rows[key := Revive(rows[key])];
        }
      }
      assert tools[..|tools|] == tools;
    }

    /** Reconcile one server with its latest tool list. The expansion error is never reached. */
    method Reconcile(server: string, tools: seq<Tool>) returns (result: ReconcileResult)
      modifies this
      ensures result.ServerMismatch? <==> exists t :: t in tools && t.key.server != server
      ensures result.ServerMismatch? ==> rows == old(rows)
      ensures !result.ServerMismatch? ==> rows == Reconciled(old(rows), server, tools)
      ensures !result.ServerMismatch? ==> result == Done(ReportOf(old(rows), rows, server, tools))
    {
      if exists t :: t in tools && t.key.server != server {
        return ServerMismatch;
      }
      var before := rows;
      var ids := Ids(tools);
      Synchronize(tools);
      forall key: Key
        ensures key in before ==> key in rows
        ensures key in ids ==> key in rows
      {
        SyncAllTightens(before, tools, key);
      }
      var gone := set key | key in before && Leaves(before, server, ids, key);
      RetireMissing(before, gone);
      var returned, listed := ReviveReturned(tools, before);
      assert rows == Reconciled(before, server, tools);
      var changed := set key | key in ids && key in before && before[key].fingerprint != rows[key].fingerprint
        && key !in returned;
      var added := ids - OfServer(before, server);
      var same := ids - added - changed - returned;
      var review := set key | key in ids && rows[key].status != Published;
      var expanded := exists key :: key in ids && Rank(rows[key].effective) > Rank(EffectiveBefore(before, key));
      forall key | key in ids
        ensures Rank(rows[key].effective) <= Rank(EffectiveBefore(before, key))
      {
        ReconciledTightens(before, server, tools, key);
      }
      var report := Report(added, changed, returned, gone, same, review, listed);
      ReportAgrees(before, server, tools, report);
      result := if expanded then PermissionsExpanded else Done(report);
    }

    /**
     The same with other threads at work between any two of its transactions: after the first reading,
     after the discovery and after each write for a tool that is gone or back. The expansion error is
     raised exactly when a reviewer raised a discovered tool in between and nothing closed it again.
     `retired` are the writes for the tools that are gone, in the order in which they happen.
     */
    method ReconcileAmid(server: string, tools: seq<Tool>, others: seq<seq<Op>>)
        returns (result: ReconcileResult, ghost window: seq<Op>, ghost retired: seq<Op>)
      modifies this
      ensures result.ServerMismatch? <==> exists t :: t in tools && t.key.server != server
      ensures result.ServerMismatch? ==> rows == old(rows)
      ensures !result.ServerMismatch? ==>
        && ReconcileWindow(old(rows), server, tools, others, retired, window)
        && rows == RowsRun(old(rows), window) && Ids(tools) <= rows.Keys
        && (result.PermissionsExpanded? <==> ToolRaised(old(rows), window, tools))
      ensures result.Done? ==> result.report == ReadReport(old(rows), rows, server, tools)
      ensures (forall n :: 0 <= n < |others| ==> forall op :: op in others[n] ==> !IsChoice(op)) ==>
                !result.PermissionsExpanded?
    {
      window, retired := [], [];
      if exists t :: t in tools && t.key.server != server {
        return ServerMismatch, window, retired;
      }
      var before, ids := rows, Ids(tools);
      WindowOpens(before, others);
      rows, window := RowsRun(rows, Turn(others, 0)), Turn(others, 0);
      forall key | key in before ensures key in rows {
        RowsRunKeeps(before, Turn(others, 0), key);
      }
      window := DiscoverAmid(before, tools, window, others);
      var turn;
      turn, retired := WriteEachAmid(before, Retiring, GoneKeys(before, server, ids), 2, window, others);
      window := window + Weave(retired, others, 2);
      ReviveAmid(before, tools, turn, window, others);
      window := window + Weave(ReviveSteps(before, tools), others, turn);
      ExpandedExactly(before, rows, window, others, tools);
      assert forall key :: key in ids ==>
        (Rank(rows[key].effective) > Rank(EffectiveBefore(before, key)) <==> Raised(before, window, key));
      if exists key :: key in ids && Rank(rows[key].effective) > Rank(EffectiveBefore(before, key)) {
        return PermissionsExpanded, window, retired;
      }
      return Done(ReadReport(before, rows, server, tools)), window, retired;
    }

    method DiscoverAmid(before: Rows, tools: seq<Tool>, ghost earlier: seq<Op>, others: seq<seq<Op>>)
        returns (ghost window: seq<Op>)
      requires Window(before, rows, earlier, others) && before.Keys <= rows.Keys
      modifies this
      ensures Window(before, rows, window, others) && before.Keys <= rows.Keys && Ids(tools) <= rows.Keys
      ensures window == earlier + [Sync(tools)] + Turn(others, 1)
    {
      ghost var start := rows;
      Synchronize(tools);
      forall key | key in Ids(tools) ensures key in RowsRun(rows, Turn(others, 1)) {
        SyncAllTightens(start, tools, key);
        RowsRunKeeps(rows, Turn(others, 1), key);
      }
      WindowGrows(before, start, earlier, others, Sync(tools), 1);
      window := earlier + [Sync(tools)] + Turn(others, 1);
      rows := RowsRun(rows, Turn(others, 1));
    }

    /** The next own transaction, and what the other threads do after it. */
    method WriteAmid(before: Rows, op: Op, turn: nat, ghost first: nat, ghost own: seq<Op>, ghost earlier: seq<Op>,
                     others: seq<seq<Op>>)
      requires Woven(before, rows, earlier, own, others, first) && turn == first + |own| && !IsChoice(op)
      modifies this
      ensures rows == RowsRun(RowsAfter(old(rows), op), Turn(others, turn)) && old(rows).Keys <= rows.Keys
      ensures Woven(before, rows, earlier, own + [op], others, first)
    {
      WindowGrows(before, rows, earlier + Weave(own, others, first), others, op, turn);
      WeaveGrows(earlier, own, others, first, op);
      rows := RowsAfter(rows, op);
      rows := RowsRun(rows, Turn(others, turn));
    }

    /** One transaction for each of some rows, in any order. */
    method WriteEachAmid(before: Rows, write: Write, keys: set<Key>, first: nat, ghost earlier: seq<Op>,
                         others: seq<seq<Op>>)
        returns (turn: nat, ghost own: seq<Op>)
      requires Window(before, rows, earlier, others)
      modifies this
      ensures Each(own, keys, write) && turn == first + |own|
      ensures Woven(before, rows, earlier, own, others, first) && old(rows).Keys <= rows.Keys
    {
      turn, own := first, [];
      var pending := keys;
      WovenStarts(before, rows, earlier, others, first);
      EachStarts(keys, write);
      while pending != {}
        invariant pending <= keys && turn == first + |own|
        invariant Each(own, keys - pending, write)
        invariant Woven(before, rows, earlier, own, others, first) && old(rows).Keys <= rows.Keys
        decreases pending
      {
        var key :| key in pending;
        WriteAmid(before, WriteOp(write, key), turn, first, own, earlier, others);
        EachGrows(own, keys, pending, write, key);
        own, turn, pending := own + [WriteOp(write, key)], turn + 1, pending - {key};
      }
      assert keys - pending == keys;
    }

    /** One transaction for each definition of a tool that is back. */
    method ReviveAmid(before: Rows, tools: seq<Tool>, first: nat, ghost earlier: seq<Op>, others: seq<seq<Op>>)
      requires Window(before, rows, earlier, others)
      modifies this
      ensures Woven(before, rows, earlier, ReviveSteps(before, tools), others, first)
      ensures old(rows).Keys <= rows.Keys
    {
      var turn := first;
      ghost var own := [];
      WovenStarts(before, rows, earlier, others, first);
      for i := 0 to |tools|
        invariant own == ReviveSteps(before, tools[..i]) && turn == first + |own|
        invariant Woven(before, rows, earlier, own, others, first) && old(rows).Keys <= rows.Keys
      {
        ghost var done := own;
        if WasRetired(before, tools[i].key) {
          WriteAmid(before, ReviveOne(tools[i].key), turn, first, own, earlier, others);
          own, turn := own + [ReviveOne(tools[i].key)], turn + 1;
        }
        ReviveStepsGrow(before, tools, i, done);
      }
      assert tools[..|tools|] == tools;
    }

    /**
     Publication with other threads at work: the rows are selected first, and each of them is then
     published in a transaction of its own, whatever it holds by then.
     */
    method PublishAmid(server: string, tools: set<string>, others: seq<seq<Op>>)
        returns (ghost window: seq<Op>, ghost published: seq<Op>)
      modifies this
      ensures Each(published, Selected(old(rows), server, tools), Publishing)
      ensures window == Turn(others, 0) + Weave(published, others, 1) && rows == RowsRun(old(rows), window)
    {
      var before := rows;
      var selected := Selected(rows, server, tools);
      WindowOpens(before, others);
      rows, window := RowsRun(rows, Turn(others, 0)), Turn(others, 0);
      var turn;
      turn, published := WriteEachAmid(before, Publishing, selected, 1, window, others);
      window := window + Weave(published, others, 1);
    }

    method SetClassification(key: Key, access: Access) returns (result: ReviewResult)
      modifies this
      ensures result == SetSpec(old(rows), key, access)
      ensures rows == if result.Reviewed? then result.rows else old(rows)
    {
      if access == NoAccess {
        return Refused(InvalidAccess);
      }
      if key !in rows {
        return Refused(NotFound);
      }
      rows := rows[key := rows[key].(effective := access, status := Pending, manual := true)];
      return Reviewed(rows);
    }

    /** All targets are checked before any row is written. */
    method Confirm(items: seq<Item>, publish: bool) returns (result: ReviewResult)
      modifies this
      ensures result == ConfirmSpec(old(rows), items, publish)
      ensures rows == if result.Reviewed? then result.rows else old(rows)
    {
      if items == [] || |items| > MAX_ITEMS {
        return Refused(InvalidItems);
      }
      var targets, error := CollectTargets(items);
      if targets.None? {
        return Refused(error);
      }
      if exists key :: key in targets.value && (key !in rows || rows[key].fingerprint != targets.value[key]) {
        return Refused(ConfirmationConflict);
      }
      WriteConfirmed(targets.value, publish);
      return Reviewed(rows);
    }

    method WriteConfirmed(targets: map<Key, string>, publish: bool)
      requires targets.Keys <= rows.Keys
      modifies this
      ensures rows == ConfirmedRows(old(rows), targets, publish)
    {
      var pending := targets.Keys;
      while pending != {}
        invariant pending <= targets.Keys
        invariant rows == map key | key in old(rows) ::
                    if key in targets && key !in pending then ConfirmedRow(old(rows)[key], publish) else old(rows)[key]
        decreases pending
      {
        var key :| key in pending;
        pending := pending - {key};
        rows := rows[key := ConfirmedRow(rows[key], publish)];
      }
    }

    method Publish(server: string, tools: set<string>)
      modifies this
      ensures rows == PublishSpec(old(rows), server, tools)
    {
      var selected := set key | key in rows && Publishes(key, rows[key], server, tools);
      var pending := selected;
      while pending != {}
        invariant pending <= selected
        invariant rows == map key | key in old(rows) ::
                    if key in selected - pending then old(rows)[key].(status := Published) else old(rows)[key]
        decreases pending
      {
        var key :| key in pending;
        pending := pending - {key};
        rows := rows[key := rows[key].(status := Published)];
      }
    }
  }

  // ---------------------------------------------------------------------------
  // What a reconciliation reports
  // ---------------------------------------------------------------------------

  /** The report, said in terms of the rows before and the definitions alone. */
  ghost function ReportOf(before: Rows, after: Rows, server: string, tools: seq<Tool>): Report {
    var ids := Ids(tools);
    var added := set key | key in ids && key !in before;
    var kept := set key | key in ids && key in before && before[key].lifecycle != Retired;
    var changed := set key | key in kept && before[key].fingerprint != LastFingerprint(tools, key);
    var reappeared := set key | key in ids && key in before && before[key].lifecycle == Retired;
    var retired := set key | key in before && Leaves(before, server, ids, key);
    var review := set key | key in ids && key in after && after[key].status != Published;
    Report(added, changed, reappeared, retired, kept - changed, review, Reappearances(before, tools))
  }

  lemma ReportAgrees(before: Rows, server: string, tools: seq<Tool>, report: Report)
    requires forall t :: t in tools ==> t.key.server == server
    requires var ids, after := Ids(tools), Reconciled(before, server, tools);
             && ids <= after.Keys
             && report.reappeared == (set key | key in ids && Returns(before, ids, key))
             && report.changed == (set key | key in ids && key in before
               && before[key].fingerprint != after[key].fingerprint && key !in report.reappeared)
             && report.added == ids - OfServer(before, server)
             && report.same == ids - report.added - report.changed - report.reappeared
             && report.retired == (set key | key in before && Leaves(before, server, ids, key))
             && report.needsReview == (set key | key in ids && after[key].status != Published)
             && report.reappearances == Reappearances(before, tools)
    ensures report == ReportOf(before, Reconciled(before, server, tools), server, tools)
  {
    var ids, after := Ids(tools), Reconciled(before, server, tools);
    forall key: Key | key in ids
      ensures after[key].fingerprint == LastFingerprint(tools, key) && key.server == server
    {
      SyncAllTightens(before, tools, key);
    }
    var want := ReportOf(before, after, server, tools);
    assert report.added == want.added && report.reappeared == want.reappeared;
    assert report.changed == want.changed;
    assert report.same == want.same && report.needsReview == want.needsReview;
  }

  /** The four discovered kinds split the discovered tools. */
  lemma ReportPartitions(before: Rows, after: Rows, server: string, tools: seq<Tool>)
    ensures var r := ReportOf(before, after, server, tools);
            && r.added + r.changed + r.reappeared + r.same == Ids(tools)
            && r.added !! r.changed !! r.reappeared !! r.same
            && r.retired !! Ids(tools)
  {
  }

  function ReturnedIds(before: Rows, tools: seq<Tool>): set<Key> {
    set key | key in Ids(tools) && WasRetired(before, key)
  }

  /** No returning tool is listed twice. */
  predicate ReturnsOnce(before: Rows, tools: seq<Tool>) {
    forall i, j :: 0 <= i < j < |tools| && tools[i].key == tools[j].key ==> !WasRetired(before, tools[i].key)
  }

  lemma IdsGrow(tools: seq<Tool>, n: nat)
    requires n < |tools|
    ensures Ids(tools[..n + 1]) == Ids(tools[..n]) + {tools[n].key}
  {
    assert tools[..n + 1] == tools[..n] + [tools[n]];
  }

  lemma ReappearancesGrow(before: Rows, tools: seq<Tool>, n: nat)
    requires n < |tools|
    ensures Reappearances(before, tools[..n + 1])
         == Reappearances(before, tools[..n]) + if WasRetired(before, tools[n].key) then 1 else 0
  {
    assert tools[..n + 1][..n] == tools[..n];
  }

  lemma ReturnsOnceGrows(before: Rows, tools: seq<Tool>, n: nat)
    requires n < |tools|
    ensures ReturnsOnce(before, tools[..n + 1]) <==>
      ReturnsOnce(before, tools[..n]) && !(WasRetired(before, tools[n].key) && tools[n].key in Ids(tools[..n]))
  {
    var init, longer := tools[..n], tools[..n + 1];
    assert forall i :: 0 <= i < n ==> init[i] == longer[i];
    if tools[n].key in Ids(init) {
      var t :| t in init && t.key == tools[n].key;
      var i :| 0 <= i < n && init[i] == t;
      assert longer[i].key == longer[n].key;
    } else {
      assert forall i :: 0 <= i < n ==> init[i] in init;
    }
  }

  lemma ReturnedIdsGrow(before: Rows, tools: seq<Tool>, n: nat)
    requires n < |tools|
    ensures |ReturnedIds(before, tools[..n + 1])| == |ReturnedIds(before, tools[..n])| +
      if WasRetired(before, tools[n].key) && tools[n].key !in Ids(tools[..n]) then 1 else 0
  {
    var key, init, longer := tools[n].key, ReturnedIds(before, tools[..n]), ReturnedIds(before, tools[..n + 1]);
    IdsGrow(tools, n);
    if WasRetired(before, key) && key !in Ids(tools[..n]) {
      assert longer == init + {key};
    } else {
      assert longer == init;
    }
  }

  /** The listed reappearances outnumber the returning tools exactly when one of them is listed twice. */
  lemma {:induction false} ReappearancesCount(before: Rows, tools: seq<Tool>, n: nat)
    requires n <= |tools|
    ensures |ReturnedIds(before, tools[..n])| <= Reappearances(before, tools[..n])
    ensures |ReturnedIds(before, tools[..n])| == Reappearances(before, tools[..n]) <==> ReturnsOnce(before, tools[..n])
  {
    if n == 0 {
      NothingReturned(before);
      assert tools[..n] == [];
    } else {
      ReappearancesCount(before, tools, n - 1);
      ReappearancesGrow(before, tools, n - 1);
      ReturnsOnceGrows(before, tools, n - 1);
      ReturnedIdsGrow(before, tools, n - 1);
    }
  }

  lemma NothingReturned(before: Rows)
    ensures ReturnedIds(before, []) == {} && Reappearances(before, []) == 0 && ReturnsOnce(before, [])
  {
  }

  /** The reported counts add up to the discovered tools exactly when no returning tool is listed twice. */
  lemma CountsAddUp(before: Rows, after: Rows, server: string, tools: seq<Tool>)
    ensures var r := ReportOf(before, after, server, tools);
      |r.added| + |r.changed| + r.reappearances + |r.same| == |Ids(tools)| <==> ReturnsOnce(before, tools)
  {
    var r := ReportOf(before, after, server, tools);
    ReportPartitions(before, after, server, tools);
    ReappearancesCount(before, tools, |tools|);
    assert tools[..|tools|] == tools;
    assert r.reappeared == ReturnedIds(before, tools);
    FourParts(r.added, r.changed, r.reappeared, r.same);
  }

  lemma FourParts(a: set<Key>, b: set<Key>, c: set<Key>, d: set<Key>)
    requires a !! b !! c !! d
    ensures |a + b + c + d| == |a| + |b| + |c| + |d|
  {
    assert |a + b| == |a| + |b| && |a + b + c| == |a + b| + |c|;
  }

  // ---------------------------------------------------------------------------
  // Every run
  // ---------------------------------------------------------------------------

  /**
   The steps of a run, each one transaction. A reconciliation is a discovery, then one write for every
   tool that is gone or back; a publication is one write for every row it selected; `Reconcile` and
   `Publish` are these without interruption. A direct choice is written some time after its row was
   read: `read` is the life cycle record found then and written back, and `seen` the fingerprint of
   the definition that the reviewer looked at, which the store never learns.
   */
  datatype Op =
    | Sync(tools: seq<Tool>)
    | RetireOne(gone: Key)
    | ReviveOne(back: Key)
    | Reconcile(server: string, found: seq<Tool>)
    | Set(key: Key, access: Access, seen: string, read: Lifecycle)
    | Confirm(items: seq<Item>, publish: bool)
    | PublishOne(chosen: Key)
    | Publish(only: string, ids: set<string>)

  predicate IsDiscovery(op: Op) { op.Sync? || op.RetireOne? || op.ReviveOne? || op.Reconcile? }

  /** A reviewer's decision: the fingerprint they saw, and the one on file when it was written. */
  datatype Decision = Decision(seen: string, onFile: string)

  /** The rows, and the last decision on each of them. */
  datatype World = World(rows: Rows, decided: map<Key, Decision>)

  ghost predicate OpOk(op: Op) {
    match op case Sync(tools) => ToolsOk(tools) case Reconcile(_, tools) => ToolsOk(tools) case _ => true
  }

  predicate Decides(rows: Rows, op: Op, key: Key) {
    match op
    case Set(k, access, _, _) => k == key && SetSpec(rows, k, access).Reviewed?
    case Confirm(items, publish) =>
      && ConfirmSpec(rows, items, publish).Reviewed?
      && Targets(AllWanted(items), map[]).Some? && key in Targets(AllWanted(items), map[]).value
      && key in rows && Confirms(rows[key])
    case _ => false
  }

  function DecisionOf(rows: Rows, op: Op, key: Key): Decision
    requires Decides(rows, op, key)
  {
    match op
    case Set(k, _, seen, _) => Decision(seen, rows[k].fingerprint)
    case Confirm(items, _) => Decision(Targets(AllWanted(items), map[]).value[key], rows[key].fingerprint)
  }

  function RowsAfter(rows: Rows, op: Op): Rows {
    match op
    case Sync(tools) => SyncAll(rows, tools)
    case RetireOne(key) => if key in rows then rows[key := Retire(rows[key])] else rows
    case ReviveOne(key) => if key in rows then rows[key := Revive(rows[key])] else rows
    case Reconcile(server, tools) =>
      if exists t :: t in tools && t.key.server != server then rows else Reconciled(rows, server, tools)
    case Set(key, access, _, read) =>
      var r := SetSpec(rows, key, access);
      if r.Reviewed? then r.rows[key := r.rows[key].(lifecycle := read)] else rows
    case Confirm(items, publish) => var r := ConfirmSpec(rows, items, publish); if r.Reviewed? then r.rows else rows
    case PublishOne(key) => if key in rows then rows[key := rows[key].(status := Published)] else rows
    case Publish(server, ids) => PublishSpec(rows, server, ids)
  }

  function Step(w: World, op: Op): World {
    var decisions := map key | key in w.rows && Decides(w.rows, op, key) :: DecisionOf(w.rows, op, key);
    World(RowsAfter(w.rows, op), w.decided + decisions)
  }

  function Run(w: World, ops: seq<Op>): World
    decreases |ops|
  {
    if ops == [] then w else Run(Step(w, ops[0]), ops[1..])
  }

  /** Open rows carry the fingerprint that was on file when the last decision on them was written. */
  ghost predicate WorldOk(w: World) {
    RowsOk(w.rows) && forall key :: key in w.rows && Decided(w.rows[key].effective) ==> ReviewedAt(w, key)
  }

  predicate ReviewedAt(w: World, key: Key)
    requires key in w.rows
  {
    key in w.decided && w.decided[key].onFile == w.rows[key].fingerprint
  }

  lemma DiscoveryTightens(rows: Rows, op: Op, key: Key)
    requires IsDiscovery(op)
    ensures Tightens(rows, RowsAfter(rows, op), key)
  {
    match op
    case Sync(tools) => SyncAllTightens(rows, tools, key);
    case Reconcile(server, tools) => ReconciledTightens(rows, server, tools, key);
    case _ =>
  }

  lemma DiscoveryKeeps(w: World, op: Op)
    requires WorldOk(w) && OpOk(op) && IsDiscovery(op)
    ensures WorldOk(Step(w, op))
  {
    var next := Step(w, op);
    match op {
      case Sync(tools) => SyncAllTightens(w.rows, tools, Key("", ""));
      case Reconcile(server, tools) => ReconciledOk(w.rows, server, tools);
      case _ =>
    }
    forall key | key in next.rows && Decided(next.rows[key].effective)
      ensures ReviewedAt(next, key)
    {
      DiscoveryTightens(w.rows, op, key);
    }
  }

  lemma ConfirmKeeps(w: World, op: Op)
    requires WorldOk(w) && op.Confirm?
    ensures WorldOk(Step(w, op))
  {
    var next := Step(w, op);
    forall key | key in next.rows
      ensures RowOk(next.rows[key])
      ensures Decided(next.rows[key].effective) ==> ReviewedAt(next, key)
    {
      assert key in w.rows && RowOk(w.rows[key]);
    }
  }

  lemma SetKeeps(w: World, op: Op)
    requires WorldOk(w) && op.Set?
    ensures WorldOk(Step(w, op))
  {
  }

  lemma ReviewKeeps(w: World, op: Op)
    requires WorldOk(w) && !IsDiscovery(op)
    ensures WorldOk(Step(w, op))
  {
    match op {
      case Confirm(_, _) => ConfirmKeeps(w, op);
      case Set(_, _, _, _) => SetKeeps(w, op);
      case _ =>
    }
  }

  /** Only a reviewer's decision raises the access of a row. */
  lemma OnlyReviewersRaise(rows: Rows, op: Op, key: Key)
    ensures Rank(EffectiveBefore(RowsAfter(rows, op), key)) > Rank(EffectiveBefore(rows, key)) ==>
      Decides(rows, op, key)
  {
    if IsDiscovery(op) {
      DiscoveryTightens(rows, op, key);
    }
  }

  /**
   Over every run, at the grain of single transactions: an open row carries exactly the fingerprint
   that was on file at its last review, and stale rows are closed.
   */
  lemma {:induction false} ReviewedFingerprints(w: World, ops: seq<Op>)
    requires WorldOk(w) && forall op :: op in ops ==> OpOk(op)
    ensures WorldOk(Run(w, ops))
    decreases |ops|
  {
    if ops != [] {
      if IsDiscovery(ops[0]) {
        DiscoveryKeeps(w, ops[0]);
      } else {
        ReviewKeeps(w, ops[0]);
      }
      ReviewedFingerprints(Step(w, ops[0]), ops[1..]);
    }
  }

  // ---------------------------------------------------------------------------
  // Published rows
  // ---------------------------------------------------------------------------

  /** A single publication finds its row still decided. */
  predicate Lands(rows: Rows, op: Op) {
    op.PublishOne? && op.chosen in rows ==> Decided(rows[op.chosen].effective)
  }

  /** A step keeps published rows read or write exactly unless it publishes a row closed since its selection. */
  lemma PublishedKept(rows: Rows, op: Op)
    requires PublishedOk(rows)
    ensures PublishedOk(RowsAfter(rows, op)) <==> Lands(rows, op)
  {
    match op
    case Sync(tools) => SyncAllTightens(rows, tools, Key("", ""));
    case Reconcile(server, tools) => ReconciledOk(rows, server, tools);
    case PublishOne(key) =>
      if key in rows {
        assert PublishedRowOk(RowsAfter(rows, op)[key]) <==> Decided(rows[key].effective);
      }
    case _ =>
  }

  ghost predicate AllLand(w: World, ops: seq<Op>)
    decreases |ops|
  {
    ops == [] || (Lands(w.rows, ops[0]) && AllLand(Step(w, ops[0]), ops[1..]))
  }

  /** Over every run whose publications land, published rows are read or write. */
  lemma {:induction false} PublishedRows(w: World, ops: seq<Op>)
    requires PublishedOk(w.rows) && AllLand(w, ops)
    ensures PublishedOk(Run(w, ops).rows)
    decreases |ops|
  {
    if ops != [] {
      PublishedKept(w.rows, ops[0]);
      PublishedRows(Step(w, ops[0]), ops[1..]);
    }
  }

  /** Publications in one piece always land. */
  lemma {:induction false} WholePublicationsLand(w: World, ops: seq<Op>)
    requires forall op :: op in ops ==> !op.PublishOne?
    ensures AllLand(w, ops)
    decreases |ops|
  {
    if ops != [] {
      assert ops[0] in ops;
      WholePublicationsLand(Step(w, ops[0]), ops[1..]);
    }
  }

  // ---------------------------------------------------------------------------
  // What the reviewer saw
  // ---------------------------------------------------------------------------

  /** A direct choice is timely when the definition has not changed since the reviewer looked. */
  predicate Timely(rows: Rows, op: Op) {
    op.Set? && op.key in rows ==> op.seen == rows[op.key].fingerprint
  }

  ghost predicate AllTimely(w: World, ops: seq<Op>)
    decreases |ops|
  {
    ops == [] || (Timely(w.rows, ops[0]) && AllTimely(Step(w, ops[0]), ops[1..]))
  }

  /** Every decision was made on what was on file. */
  ghost predicate Informed(w: World) {
    forall key :: key in w.decided ==> w.decided[key].seen == w.decided[key].onFile
  }

  /** A confirmation is always informed; a direct choice exactly when it is timely. */
  lemma InformedExactly(rows: Rows, op: Op, key: Key)
    requires Decides(rows, op, key)
    ensures var d := DecisionOf(rows, op, key); d.seen == d.onFile <==> op.Confirm? || Timely(rows, op)
  {
  }

  /** With timely choices, an open row carries the fingerprint that its last reviewer saw. */
  lemma {:induction false} SeenFingerprints(w: World, ops: seq<Op>)
    requires WorldOk(w) && Informed(w) && AllTimely(w, ops) && forall op :: op in ops ==> OpOk(op)
    ensures var after := Run(w, ops);
      && Informed(after)
      && forall key :: key in after.rows && Decided(after.rows[key].effective) ==>
           key in after.decided && after.decided[key].seen == after.rows[key].fingerprint
    decreases |ops|
  {
    if ops == [] {
      assert forall key :: key in w.rows && Decided(w.rows[key].effective) ==> ReviewedAt(w, key);
    } else {
      var next := Step(w, ops[0]);
      forall key | key in next.decided ensures next.decided[key].seen == next.decided[key].onFile {
        if key in w.rows && Decides(w.rows, ops[0], key) {
          InformedExactly(w.rows, ops[0], key);
        }
      }
      if IsDiscovery(ops[0]) {
        DiscoveryKeeps(w, ops[0]);
      } else {
        ReviewKeeps(w, ops[0]);
      }
      SeenFingerprints(next, ops[1..]);
    }
  }

  /** Timeliness is needed: a definition that changes under the reviewer is opened unseen, and published. */
  lemma BlindChoice(key: Key, first: string, second: string) returns (ops: seq<Op>)
    requires first != second
    ensures var after := Run(World(map[], map[]), ops);
      && key in after.rows && after.rows[key].effective == Read && after.rows[key].status == Published
      && after.rows[key].fingerprint == second && key in after.decided && after.decided[key].seen == first
  {
    var a, b := Sync([Tool(key, first, Unknown)]), Sync([Tool(key, second, Unknown)]);
    var choice, publish := Set(key, Read, first, NoRecord), Publish("", {});
    ops := [a, b, choice, publish];
    var w0 := World(map[], map[]);
    var w1 := Step(w0, a);
    SyncSingle(w0.rows, a.tools[0]);
    assert w1.rows == map[key := Row(first, Unknown, Unknown, Pending, false, NoRecord)];
    var w2 := Step(w1, b);
    SyncSingle(w1.rows, b.tools[0]);
    assert w2.rows == map[key := Row(second, Unknown, Unknown, Stale, false, NoRecord)];
    var w3 := Step(w2, choice);
    var w4 := Step(w3, publish);
    assert Run(w3, [publish]) == w4 by { assert [publish][1..] == []; }
    assert Run(w2, [choice, publish]) == w4 by { assert [choice, publish][1..] == [publish]; }
    assert Run(w1, [b, choice, publish]) == w4 by { assert [b, choice, publish][1..] == [choice, publish]; }
    assert Run(w0, ops) == w4 by { assert ops[1..] == [b, choice, publish]; }
  }

  lemma SyncSingle(rows: Rows, t: Tool)
    ensures SyncAll(rows, [t]) == SyncOne(rows, t)
  {
    assert [t][..0] == [];
  }

  // ---------------------------------------------------------------------------
  // A reconciliation amid other steps
  // ---------------------------------------------------------------------------

  function RowsRun(rows: Rows, ops: seq<Op>): Rows {
    if ops == [] then rows else RowsAfter(RowsRun(rows, ops[..|ops| - 1]), ops[|ops| - 1])
  }

  lemma {:induction false} RowsRunConcat(rows: Rows, a: seq<Op>, b: seq<Op>)
    ensures RowsRun(rows, a + b) == RowsRun(RowsRun(rows, a), b)
    decreases |b|
  {
    if b == [] {
      assert a + b == a;
    } else {
      assert (a + b)[..|a + b| - 1] == a + b[..|b| - 1];
      RowsRunConcat(rows, a, b[..|b| - 1]);
    }
  }

  lemma RowsAfterKeeps(rows: Rows, op: Op, key: Key)
    requires key in rows
    ensures key in RowsAfter(rows, op)
  {
    if IsDiscovery(op) {
      DiscoveryTightens(rows, op, key);
    }
  }

  lemma {:induction false} RowsRunKeeps(rows: Rows, ops: seq<Op>, key: Key)
    requires key in rows
    ensures key in RowsRun(rows, ops)
    decreases |ops|
  {
    if ops != [] {
      RowsRunKeeps(rows, ops[..|ops| - 1], key);
      RowsAfterKeeps(RowsRun(rows, ops[..|ops| - 1]), ops[|ops| - 1], key);
    }
  }

  /** The access of a row has risen above what it was at the beginning. */
  predicate Raised(rows: Rows, ops: seq<Op>, key: Key) {
    Rank(EffectiveBefore(RowsRun(rows, ops), key)) > Rank(EffectiveBefore(rows, key))
  }

  /** Step `i` is a reviewer's decision that raised the row, and nothing closed it again. */
  ghost predicate RaisedBy(rows: Rows, ops: seq<Op>, i: nat, key: Key) {
    i < |ops| && DecidesAt(rows, ops, i, key) && KeepsRaised(rows, ops, i, key)
  }

  predicate DecidesAt(rows: Rows, ops: seq<Op>, i: nat, key: Key)
    requires i < |ops|
  {
    Decides(RowsRun(rows, ops[..i]), ops[i], key)
  }

  ghost predicate KeepsRaised(rows: Rows, ops: seq<Op>, i: nat, key: Key) {
    forall j :: i < j <= |ops| ==> Raised(rows, ops[..j], key)
  }

  /** A row ends above where it began exactly when a reviewer raised it and nothing closed it again. */
  lemma {:induction false} RaisedExactly(rows: Rows, ops: seq<Op>, key: Key)
    ensures Raised(rows, ops, key) <==> exists i: nat :: RaisedBy(rows, ops, i, key)
    decreases |ops|
  {
    assert ops[..|ops|] == ops;
    if Raised(rows, ops, key) {
      var n := |ops| - 1;
      var init := ops[..n];
      OnlyReviewersRaise(RowsRun(rows, init), ops[n], key);
      if Raised(rows, init, key) {
        RaisedExactly(rows, init, key);
        var i: nat :| RaisedBy(rows, init, i, key);
        RaisedLonger(rows, ops, i, key);
      } else {
        assert RaisedBy(rows, ops, n, key);
      }
    }
  }

  lemma RaisedLonger(rows: Rows, ops: seq<Op>, i: nat, key: Key)
    requires ops != [] && RaisedBy(rows, ops[..|ops| - 1], i, key) && Raised(rows, ops, key)
    ensures RaisedBy(rows, ops, i, key)
  {
    assert ops[..|ops| - 1][..i] == ops[..i];
    StaysRaised(rows, ops, i, key);
  }

  lemma StaysRaised(rows: Rows, ops: seq<Op>, i: nat, key: Key)
    requires ops != [] && i < |ops| && KeepsRaised(rows, ops[..|ops| - 1], i, key) && Raised(rows, ops, key)
    ensures KeepsRaised(rows, ops, i, key)
  {
    var init := ops[..|ops| - 1];
    assert ops[..|ops|] == ops;
    forall j | i < j <= |ops| ensures Raised(rows, ops[..j], key) {
      if j < |ops| {
        assert init[..j] == ops[..j];
      }
    }
  }

  /** A write that an operation makes for each of several rows. */
  datatype Write = Retiring | Reviving | Publishing

  function WriteOp(write: Write, key: Key): Op {
    match write case Retiring => RetireOne(key) case Reviving => ReviveOne(key) case Publishing => PublishOne(key)
  }

  /** One write for each of these rows, in some order. */
  ghost predicate Each(own: seq<Op>, keys: set<Key>, write: Write) {
    && |own| == |keys|
    && (forall op :: op in own ==> exists key :: key in keys && op == WriteOp(write, key))
    && (forall key :: key in keys ==> WriteOp(write, key) in own)
  }

  lemma EachStarts(keys: set<Key>, write: Write)
    ensures Each([], keys - keys, write)
  {
    assert keys - keys == {};
  }

  lemma EachGrows(own: seq<Op>, keys: set<Key>, pending: set<Key>, write: Write, key: Key)
    requires Each(own, keys - pending, write) && key in pending && pending <= keys
    ensures Each(own + [WriteOp(write, key)], keys - (pending - {key}), write)
  {
    var done, longer := keys - pending, own + [WriteOp(write, key)];
    assert keys - (pending - {key}) == done + {key};
    forall op | op in longer ensures exists k :: k in done + {key} && op == WriteOp(write, k) {
      if op in own {
        var k :| k in done && op == WriteOp(write, k);
        assert k in done + {key};
      } else {
        assert key in done + {key};
      }
    }
    assert longer[|own|] == WriteOp(write, key);
  }

  /** Own steps, each followed by a turn of the other threads. */
  function Weave(own: seq<Op>, others: seq<seq<Op>>, first: nat): seq<Op> {
    if own == [] then []
    else
      var n := |own| - 1;
      Weave(own[..n], others, first) + [own[n]] + Turn(others, first + n)
  }

  lemma WeaveGrows(earlier: seq<Op>, own: seq<Op>, others: seq<seq<Op>>, first: nat, op: Op)
    ensures earlier + Weave(own + [op], others, first)
         == earlier + Weave(own, others, first) + [op] + Turn(others, first + |own|)
  {
    assert (own + [op])[..|own|] == own;
    ConcatAssociative(earlier, Weave(own, others, first), [op]);
    ConcatAssociative(earlier, Weave(own, others, first) + [op], Turn(others, first + |own|));
  }

  /** One write for each definition of a tool that had been retired. */
  function ReviveSteps(before: Rows, tools: seq<Tool>): seq<Op> {
    if tools == [] then []
    else
      var n := |tools| - 1;
      ReviveSteps(before, tools[..n]) + if WasRetired(before, tools[n].key) then [ReviveOne(tools[n].key)] else []
  }

  lemma ReviveStepsGrow(before: Rows, tools: seq<Tool>, i: nat, own: seq<Op>)
    requires i < |tools| && own == ReviveSteps(before, tools[..i])
    ensures ReviveSteps(before, tools[..i + 1]) ==
      if WasRetired(before, tools[i].key) then own + [ReviveOne(tools[i].key)] else own
  {
    assert tools[..i + 1][..i] == tools[..i];
  }

  function GoneKeys(before: Rows, server: string, ids: set<Key>): set<Key> {
    set key | key in before && Leaves(before, server, ids, key)
  }

  /** The rows a publication selects. */
  function Selected(rows: Rows, server: string, tools: set<string>): set<Key> {
    set key | key in rows && Publishes(key, rows[key], server, tools)
  }

  /** Everything between the two readings of a reconciliation: its own steps in order, others in between. */
  ghost predicate ReconcileWindow(before: Rows, server: string, tools: seq<Tool>, others: seq<seq<Op>>,
                                  retired: seq<Op>, window: seq<Op>)
  {
    && Each(retired, GoneKeys(before, server, Ids(tools)), Retiring)
    && window == Turn(others, 0) + [Sync(tools)] + Turn(others, 1) + Weave(retired, others, 2)
                 + Weave(ReviveSteps(before, tools), others, 2 + |retired|)
  }

  /** What a reconciliation reports from the two listings it reads. */
  function ReadReport(before: Rows, after: Rows, server: string, tools: seq<Tool>): Report
    requires Ids(tools) <= after.Keys
  {
    var ids := Ids(tools);
    var added := ids - OfServer(before, server);
    var back := set key | key in ids && Returns(before, ids, key);
    var changed := set key | key in ids && key in before && before[key].fingerprint != after[key].fingerprint
                             && key !in back;
    var gone := set key | key in before && Leaves(before, server, ids, key);
    var review := set key | key in ids && after[key].status != Published;
    Report(added, changed, back, gone, ids - added - changed - back, review, Reappearances(before, tools))
  }

  /** What other threads do at one point of a reconciliation. */
  function Turn(others: seq<seq<Op>>, n: nat): seq<Op> {
    if n < |others| then others[n] else []
  }

  predicate IsChoice(op: Op) { op.Set? || op.Confirm? }

  /** Every reviewer's decision in the window is one of the other threads'. */
  ghost predicate ChoicesFrom(window: seq<Op>, others: seq<seq<Op>>) {
    forall op :: op in window && IsChoice(op) ==> exists n :: 0 <= n < |others| && op in others[n]
  }

  /** A reviewer raised one of the discovered tools in the window, and nothing closed it again. */
  ghost predicate ToolRaised(rows: Rows, window: seq<Op>, tools: seq<Tool>) {
    exists key, i: nat :: key in Ids(tools) && RaisedBy(rows, window, i, key)
  }

  /** The window so far: the rows it leads to, and whose the decisions in it are. */
  ghost predicate Window(before: Rows, rows: Rows, window: seq<Op>, others: seq<seq<Op>>) {
    rows == RowsRun(before, window) && ChoicesFrom(window, others)
  }

  /** The window after some own steps from `first` on. */
  ghost predicate Woven(before: Rows, rows: Rows, earlier: seq<Op>, own: seq<Op>, others: seq<seq<Op>>, first: nat) {
    Window(before, rows, earlier + Weave(own, others, first), others)
  }

  lemma WovenStarts(before: Rows, rows: Rows, earlier: seq<Op>, others: seq<seq<Op>>, first: nat)
    requires Window(before, rows, earlier, others)
    ensures Woven(before, rows, earlier, [], others, first)
  {
    assert earlier + Weave([], others, first) == earlier;
  }

  lemma WindowGrows(before: Rows, rows: Rows, window: seq<Op>, others: seq<seq<Op>>, own: Op, n: nat)
    requires Window(before, rows, window, others) && !IsChoice(own)
    ensures Window(before, RowsRun(RowsAfter(rows, own), Turn(others, n)), window + [own] + Turn(others, n), others)
    ensures forall key :: key in rows ==> key in RowsRun(RowsAfter(rows, own), Turn(others, n))
  {
    RowsRunConcat(before, window, [own]);
    assert [own][..0] == [];
    RowsRunConcat(before, window + [own], Turn(others, n));
    forall key | key in rows ensures key in RowsRun(RowsAfter(rows, own), Turn(others, n)) {
      RowsAfterKeeps(rows, own, key);
      RowsRunKeeps(RowsAfter(rows, own), Turn(others, n), key);
    }
    assert Turn(others, n) != [] ==> Turn(others, n) == others[n];
  }

  lemma WindowOpens(before: Rows, others: seq<seq<Op>>)
    ensures Window(before, RowsRun(before, Turn(others, 0)), Turn(others, 0), others)
  {
    assert Turn(others, 0) != [] ==> Turn(others, 0) == others[0];
  }

  /** The error of a reconciliation, told by what happened between its two readings. */
  lemma ExpandedExactly(before: Rows, rows: Rows, window: seq<Op>, others: seq<seq<Op>>, tools: seq<Tool>)
    requires Window(before, rows, window, others)
    ensures (exists key :: key in Ids(tools) && Raised(before, window, key)) <==> ToolRaised(before, window, tools)
    ensures (forall n :: 0 <= n < |others| ==> forall op :: op in others[n] ==> !IsChoice(op)) ==>
              !ToolRaised(before, window, tools)
  {
    if exists key :: key in Ids(tools) && Raised(before, window, key) {
      var key :| key in Ids(tools) && Raised(before, window, key);
      RaisedExactly(before, window, key);
      var i: nat :| RaisedBy(before, window, i, key);
      assert ToolRaised(before, window, tools);
    }
    if ToolRaised(before, window, tools) {
      var key, i: nat :| key in Ids(tools) && RaisedBy(before, window, i, key);
      assert window[i] in window && IsChoice(window[i]);
      RaisedExactly(before, window, key);
    }
  }

  // ---------------------------------------------------------------------------
  // Undisturbed windows
  // ---------------------------------------------------------------------------

  function Written(write: Write, row: Row): Row {
    match write
    case Retiring => Retire(row)
    case Reviving => Revive(row)
    case Publishing => row.(status := Published)
  }

  /** A row after several writes of one kind, whatever their order and however often each occurs. */
  lemma {:induction false} WritesApply(rows: Rows, own: seq<Op>, write: Write, key: Key)
    requires forall i :: 0 <= i < |own| ==> exists k :: own[i] == WriteOp(write, k)
    ensures key in RowsRun(rows, own) <==> key in rows
    ensures key in rows ==>
      RowsRun(rows, own)[key] == if WriteOp(write, key) in own then Written(write, rows[key]) else rows[key]
    decreases |own|
  {
    if own != [] {
      var n := |own| - 1;
      assert own == own[..n] + [own[n]];
      WritesApply(rows, own[..n], write, key);
      var k :| own[n] == WriteOp(write, k);
    }
  }

  lemma {:induction false} WeaveAlone(own: seq<Op>, first: nat)
    ensures Weave(own, [], first) == own
    decreases |own|
  {
    if own != [] {
      WeaveAlone(own[..|own| - 1], first);
    }
  }

  lemma {:induction false} ReviveStepsAre(before: Rows, tools: seq<Tool>, key: Key)
    ensures var own := ReviveSteps(before, tools);
      && (forall i :: 0 <= i < |own| ==> exists k :: own[i] == WriteOp(Reviving, k))
      && (WriteOp(Reviving, key) in own <==> Returns(before, Ids(tools), key))
    decreases |tools|
  {
    if tools != [] {
      var n := |tools| - 1;
      assert tools == tools[..n] + [tools[n]];
      ReviveStepsAre(before, tools[..n], key);
      assert ReviveOne(tools[n].key) == WriteOp(Reviving, tools[n].key);
    }
  }

  /** With no other thread in between, the transactions of a publication give the rows of the whole. */
  lemma PublishUndisturbed(rows: Rows, server: string, tools: set<string>, published: seq<Op>)
    requires Each(published, Selected(rows, server, tools), Publishing)
    ensures RowsRun(rows, Turn([], 0) + Weave(published, [], 1)) == PublishSpec(rows, server, tools)
  {
    WeaveAlone(published, 1);
    assert Turn([], 0) + published == published;
    var after := RowsRun(rows, published);
    forall key: Key
      ensures key in after <==> key in rows
      ensures key in rows ==> after[key] == PublishSpec(rows, server, tools)[key]
    {
      EachHolds(published, Selected(rows, server, tools), Publishing, key);
      WritesApply(rows, published, Publishing, key);
    }
  }

  lemma EachHolds(own: seq<Op>, keys: set<Key>, write: Write, key: Key)
    requires Each(own, keys, write)
    ensures forall i :: 0 <= i < |own| ==> exists k :: own[i] == WriteOp(write, k)
    ensures WriteOp(write, key) in own <==> key in keys
  {
    forall i | 0 <= i < |own| ensures exists k :: own[i] == WriteOp(write, k) {
      assert own[i] in own;
    }
  }

  lemma UndisturbedRow(before: Rows, server: string, tools: seq<Tool>, retired: seq<Op>, key: Key)
    requires Each(retired, GoneKeys(before, server, Ids(tools)), Retiring)
    ensures var synced := SyncAll(before, tools);
      var after := RowsRun(RowsRun(synced, retired), ReviveSteps(before, tools));
      && (key in after <==> key in synced)
      && (key in synced ==> after[key] == ReconciledRow(before, synced, server, Ids(tools), key))
  {
    var synced := SyncAll(before, tools);
    SyncAllTightens(before, tools, key);
    EachHolds(retired, GoneKeys(before, server, Ids(tools)), Retiring, key);
    WritesApply(synced, retired, Retiring, key);
    ReviveStepsAre(before, tools, key);
    WritesApply(RowsRun(synced, retired), ReviveSteps(before, tools), Reviving, key);
  }

  lemma UndisturbedRun(before: Rows, tools: seq<Tool>, retired: seq<Op>, revived: seq<Op>)
    ensures RowsRun(before, [Sync(tools)] + retired + revived)
         == RowsRun(RowsRun(SyncAll(before, tools), retired), revived)
  {
    assert RowsRun(before, [Sync(tools)]) == SyncAll(before, tools) by { assert [Sync(tools)][..0] == []; }
    RowsRunConcat(before, [Sync(tools)], retired);
    RowsRunConcat(before, [Sync(tools)] + retired, revived);
  }

  lemma UndisturbedRows(before: Rows, server: string, tools: seq<Tool>, retired: seq<Op>, after: Rows)
    requires Each(retired, GoneKeys(before, server, Ids(tools)), Retiring)
    requires after == RowsRun(RowsRun(SyncAll(before, tools), retired), ReviveSteps(before, tools))
    ensures after == Reconciled(before, server, tools)
  {
    forall key: Key
      ensures key in after <==> key in SyncAll(before, tools)
      ensures key in after ==> after[key] == ReconciledRow(before, SyncAll(before, tools), server, Ids(tools), key)
    {
      UndisturbedRow(before, server, tools, retired, key);
    }
  }

  lemma UndisturbedWindow(tools: seq<Tool>, retired: seq<Op>, revived: seq<Op>)
    ensures Turn([], 0) + [Sync(tools)] + Turn([], 1) + Weave(retired, [], 2) + Weave(revived, [], 2 + |retired|)
         == [Sync(tools)] + retired + revived
  {
    WeaveAlone(retired, 2);
    WeaveAlone(revived, 2 + |retired|);
  }

  /** With no other thread in between, the transactions of a reconciliation give the rows of the whole. */
  lemma ReconcileUndisturbed(before: Rows, server: string, tools: seq<Tool>, retired: seq<Op>, window: seq<Op>)
    requires ReconcileWindow(before, server, tools, [], retired, window)
    ensures RowsRun(before, window) == Reconciled(before, server, tools)
  {
    UndisturbedWindow(tools, retired, ReviveSteps(before, tools));
    UndisturbedRun(before, tools, retired, ReviveSteps(before, tools));
    UndisturbedRows(before, server, tools, retired, RowsRun(before, window));
  }

  /** The rows of a run do not depend on the recorded decisions: what every run keeps, a window keeps. */
  lemma {:induction false} RunRows(w: World, ops: seq<Op>)
    ensures Run(w, ops).rows == RowsRun(w.rows, ops)
    decreases |ops|
  {
    if ops != [] {
      RunRows(Step(w, ops[0]), ops[1..]);
      assert ops == [ops[0]] + ops[1..] && [ops[0]][..0] == [];
      RowsRunConcat(w.rows, [ops[0]], ops[1..]);
    }
  }

  /** The error does occur: a confirmation of a discovered tool lands between the two readings. */
  method ConfirmedMidway(key: Key, fingerprint: string) returns (result: ReconcileResult)
    requires key.server != "" && key.tool != "" && fingerprint != ""
    requires Strip(key.server) == key.server && Strip(key.tool) == key.tool && Strip(fingerprint) == fingerprint
    ensures result == PermissionsExpanded
  {
    var rows: Rows := map[key := Row(fingerprint, Read, Unknown, Pending, false, NoRecord)];
    var confirm := Confirm([Item(key.server, key.tool, fingerprint)], false);
    var tools := [Tool(key, fingerprint, Read)];
    var store := new ClassificationStore(rows);
    assert tools[0] in tools && Ids(tools) == {key};
    ghost var window, retired;
    result, window, retired := store.ReconcileAmid(key.server, tools, [[confirm]]);
    assert Turn([[confirm]], 0) == [confirm] && Turn([[confirm]], 1) == [];
    assert GoneKeys(rows, key.server, Ids(tools)) == {} && retired == [];
    assert ReviveSteps(rows, tools) == [] by { assert tools[..0] == []; }
    assert window == [confirm, Sync(tools)];
    MidwayRaises(rows, key, fingerprint, confirm, tools);
  }

  lemma MidwayRaises(rows: Rows, key: Key, fingerprint: string, confirm: Op, tools: seq<Tool>)
    requires key.server != "" && key.tool != "" && fingerprint != ""
    requires Strip(key.server) == key.server && Strip(key.tool) == key.tool && Strip(fingerprint) == fingerprint
    requires rows == map[key := Row(fingerprint, Read, Unknown, Pending, false, NoRecord)]
    requires confirm == Confirm([Item(key.server, key.tool, fingerprint)], false)
    requires tools == [Tool(key, fingerprint, Read)]
    ensures ToolRaised(rows, [confirm, Sync(tools)], tools)
  {
    var window := [confirm, Sync(tools)];
    var confirmed := RowsAfter(rows, confirm);
    MidwayConfirms(rows, key, fingerprint, confirm);
    assert RowsRun(rows, [confirm]) == confirmed by { assert [confirm][..0] == []; }
    SyncSingle(confirmed, tools[0]);
    assert RowsRun(rows, window) == confirmed by { assert window[..1] == [confirm]; }
    assert window[..0] == [] && window[..1] == [confirm] && window[..2] == window;
    assert tools[0] in tools && key in Ids(tools);
    assert RaisedBy(rows, window, 0, key);
  }

  lemma MidwayConfirms(rows: Rows, key: Key, fingerprint: string, confirm: Op)
    requires key.server != "" && key.tool != "" && fingerprint != ""
    requires Strip(key.server) == key.server && Strip(key.tool) == key.tool && Strip(fingerprint) == fingerprint
    requires rows == map[key := Row(fingerprint, Read, Unknown, Pending, false, NoRecord)]
    requires confirm == Confirm([Item(key.server, key.tool, fingerprint)], false)
    ensures RowsAfter(rows, confirm) == map[key := Row(fingerprint, Read, Read, Pending, true, NoRecord)]
    ensures Decides(rows, confirm, key)
  {
    OneTarget(key, fingerprint, confirm.items);
  }

  lemma OneTarget(key: Key, fingerprint: string, items: seq<Item>)
    requires key.server != "" && key.tool != "" && fingerprint != ""
    requires Strip(key.server) == key.server && Strip(key.tool) == key.tool && Strip(fingerprint) == fingerprint
    requires items == [Item(key.server, key.tool, fingerprint)]
    ensures Targets(AllWanted(items), map[]) == Some(map[key := fingerprint])
  {
    assert AllWanted(items)[1..] == [];
  }

  /** The same for publication: a row that a discovery closes after its selection ends published and unknown. */
  method ClosedMidway(key: Key, first: string, second: string) returns (store: ClassificationStore)
    requires first != second
    ensures key in store.rows && store.rows[key].status == Published && store.rows[key].effective == Unknown
  {
    var rows: Rows := map[key := Row(first, Read, Read, Pending, true, NoRecord)];
    var discovery := Sync([Tool(key, second, Read)]);
    store := new ClassificationStore(rows);
    assert Selected(rows, "", {}) == {key};
    ghost var window, published;
    window, published := store.PublishAmid("", {}, [[discovery]]);
    assert Turn([[discovery]], 0) == [discovery] && Turn([[discovery]], 1) == [];
    assert PublishOne(key) in published && |published| == 1 && published == [PublishOne(key)];
    assert Weave(published, [[discovery]], 1) == [PublishOne(key)] by { assert published[..0] == []; }
    assert window == [discovery, PublishOne(key)];
    var closed := RowsAfter(rows, discovery);
    SyncSingle(rows, discovery.tools[0]);
    assert closed[key] == Row(second, Read, Unknown, Stale, false, NoRecord);
    assert RowsRun(rows, [discovery]) == closed by { assert [discovery][..0] == []; }
    assert window[..1] == [discovery];
  }
}
