/**
 Business credentials, their bindings to adapter targets, and the remote vault copies the
 bindings keep track of.

 Each operation of the store is a transaction on four tables; `Store` is their value, and
 the functions below say what an operation answers and leaves behind. `World` adds what the
 store cannot see: saves on their way to a remote vault and the copies that have landed.
 */
module BusinessCredentials {
  import opened Common

  datatype Scope = Personal | Shared

  datatype SyncStatus = Pending | Synced | Failed | Unknown | Deleted

  datatype Credential = Credential(scope: Scope, enabled: bool, version: nat)

  /** The target manifest and adapter tools a binding was accepted for. */
  datatype Contract = Contract(manifest: string, tools: map<string, string>)

  datatype Target = Target(adapter: string, prefix: string)

  datatype Binding = Binding(
    credential: string,
    server: string,
    target: Target,
    contract: Contract,
    enabled: bool,
    revision: nat,
    syncedVersion: Option<nat>,
    status: SyncStatus,
    remotePossible: bool)

  datatype BrowserSession = BrowserSession(credential: string, binding: string)

  datatype Store = Store(
    credentials: map<string, Credential>,
    bindings: map<string, Binding>,
    targets: map<string, Target>,
    openSessions: set<BrowserSession>)

  datatype Error =
    | OwnerUnavailable | CredentialNotFound | BindingNotFound | RevisionConflict | PersonalGrantDenied
    | CredentialUnavailable | RemoteCleanupRequired | SessionCleanupRequired | InvalidContract
    | AdapterTargetConflict | BindingExists | CredentialDisabled

  datatype Result<+T> = Ok(value: T) | Err(error: Error)

  // ---------------------------------------------------------------------------
  // Contract shape
  // ---------------------------------------------------------------------------

  predicate IsHex(c: char) { '0' <= c <= '9' || 'a' <= c <= 'f' }

  predicate IsDigest(s: string) { |s| == 64 && forall i :: 0 <= i < |s| ==> IsHex(s[i]) }

  predicate IsLetter(c: char) { 'a' <= c <= 'z' || 'A' <= c <= 'Z' }

  predicate IsToolKey(s: string) {
    && 1 <= |s| <= 128 && IsLetter(s[0])
    && forall i :: 0 <= i < |s| ==> IsLetter(s[i]) || '0' <= s[i] <= '9' || s[i] in "_.:-"
  }

  predicate ValidContract(c: Contract) {
    && IsDigest(c.manifest)
    && {"save", "login", "delete", "open"} <= c.tools.Keys
    && |c.tools| <= 128
    && forall key :: key in c.tools ==> IsToolKey(key) && IsDigest(c.tools[key])
  }

  // ---------------------------------------------------------------------------
  // Operations
  // ---------------------------------------------------------------------------

  datatype Op =
    | CreateCredential(ownerExists: bool, cipherOk: bool, credential: string, scope: Scope, enabled: bool)
    | UpdateCredential(credential: string, expectedVersion: nat, shares: bool, newSecret: bool, cipherOk: bool,
      enabled: bool)
    | DeleteCredential(credential: string, expectedVersion: nat)
    | CreateBinding(binding: string, credential: string, server: string, target: Target, contract: Contract,
      enabled: bool)
    | UpdateBinding(binding: string, expectedRevision: nat, expectedVersion: nat, contract: Contract, enabled: bool)
    | MarkSync(binding: string, expectedRevision: nat, expectedVersion: nat, status: SyncStatus)
    | DeleteBinding(binding: string, expectedRevision: nat)

  function Resynchronised(s: Store, credential: string): map<string, Binding> {
    map b | b in s.bindings ::
      if s.bindings[b].credential == credential
      then s.bindings[b].(status := Pending, revision := s.bindings[b].revision + 1)
      else s.bindings[b]
  }

  function CreateCredentialSpec(s: Store, op: Op): Result<Store>
    requires op.CreateCredential?
  {
    if !op.ownerExists then Err(OwnerUnavailable)
    else if !op.cipherOk then Err(CredentialUnavailable)
    else Ok(s.(credentials := s.credentials[op.credential := Credential(op.scope, op.enabled, 1)]))
  }

  function UpdateCredentialSpec(s: Store, op: Op): Result<Store>
    requires op.UpdateCredential?
  {
    if op.credential !in s.credentials then Err(CredentialNotFound)
    else
      var row := s.credentials[op.credential];
      if row.version != op.expectedVersion then Err(RevisionConflict)
      else if row.scope == Personal && op.shares then Err(PersonalGrantDenied)
      else if op.newSecret && !op.cipherOk then Err(CredentialUnavailable)
      else Ok(s.(credentials := s.credentials[op.credential := row.(enabled := op.enabled, version := row.version + 1)],
                 bindings := Resynchronised(s, op.credential)))
  }

  function DeleteCredentialSpec(s: Store, op: Op): Result<Store>
    requires op.DeleteCredential?
  {
    if op.credential !in s.credentials then Err(CredentialNotFound)
    else if s.credentials[op.credential].version != op.expectedVersion then Err(RevisionConflict)
    else if exists b :: b in s.bindings && s.bindings[b].credential == op.credential && s.bindings[b].remotePossible
      then Err(RemoteCleanupRequired)
    else if exists session :: session in s.openSessions && session.credential == op.credential
      then Err(SessionCleanupRequired)
    else Ok(s.(credentials := s.credentials - {op.credential},
               bindings := map b | b in s.bindings && s.bindings[b].credential != op.credential :: s.bindings[b]))
  }

  function CreateBindingSpec(s: Store, op: Op): Result<Store>
    requires op.CreateBinding?
  {
    if !ValidContract(op.contract) then Err(InvalidContract)
    else if op.credential !in s.credentials then Err(CredentialNotFound)
    else if op.server in s.targets && s.targets[op.server] != op.target then Err(AdapterTargetConflict)
    else if exists b :: b in s.bindings
                        && s.bindings[b].credential == op.credential && s.bindings[b].server == op.server
      then Err(BindingExists)
    else Ok(s.(targets := if op.server in s.targets then s.targets else s.targets[op.server := op.target],
               bindings := s.bindings[op.binding :=
                 Binding(op.credential, op.server, op.target, op.contract, op.enabled, 1, None, Pending, false)]))
  }

  /** The row and the caller's view of it agree; the credential row is found and agrees too. */
  function Current(s: Store, binding: string, revision: nat, version: nat): Result<Binding> {
    if binding !in s.bindings then Err(BindingNotFound)
    else
      var row := s.bindings[binding];
      if row.revision != revision then Err(RevisionConflict)
      else if row.credential !in s.credentials then Err(CredentialNotFound)
      else if s.credentials[row.credential].version != version then Err(RevisionConflict)
      else Ok(row)
  }

  function UpdateBindingSpec(s: Store, op: Op): Result<Store>
    requires op.UpdateBinding?
  {
    if !ValidContract(op.contract) then Err(InvalidContract)
    else match Current(s, op.binding, op.expectedRevision, op.expectedVersion)
      case Err(e) => Err(e)
      case Ok(row) =>
        var changed := op.contract != row.contract;
        if changed && row.remotePossible then Err(RemoteCleanupRequired)
        else Ok(s.(bindings := s.bindings[op.binding := row.(enabled := op.enabled, contract := op.contract,
               revision := row.revision + 1, status := if changed then Pending else row.status)]))
  }

  function MarkSyncSpec(s: Store, op: Op): Result<Store>
    requires op.MarkSync?
  {
    match Current(s, op.binding, op.expectedRevision, op.expectedVersion)
    case Err(e) => Err(e)
    case Ok(row) =>
      if op.status == Synced && (!row.enabled || row.credential !in s.credentials
        || !s.credentials[row.credential].enabled)
      then Err(CredentialDisabled)
      else Ok(s.(bindings := s.bindings[op.binding := row.(
             status := op.status,
             syncedVersion := if op.status == Synced then Some(op.expectedVersion)
                              else if op.status == Deleted then None else row.syncedVersion,
             remotePossible := if op.status == Deleted then false
                               else if op.status == Unknown || op.status == Synced then true else row.remotePossible,
             revision := row.revision + 1)]))
  }

  function DeleteBindingSpec(s: Store, op: Op): Result<Store>
    requires op.DeleteBinding?
  {
    if op.binding !in s.bindings then Err(BindingNotFound)
    else if s.bindings[op.binding].revision != op.expectedRevision then Err(RevisionConflict)
    else if s.bindings[op.binding].remotePossible then Err(RemoteCleanupRequired)
    else if exists session :: session in s.openSessions && session.binding == op.binding
      then Err(SessionCleanupRequired)
    else Ok(s.(bindings := s.bindings - {op.binding}))
  }

  function Apply(s: Store, op: Op): Result<Store> {
    match op
    case CreateCredential(_, _, _, _, _) => CreateCredentialSpec(s, op)
    case UpdateCredential(_, _, _, _, _, _) => UpdateCredentialSpec(s, op)
    case DeleteCredential(_, _) => DeleteCredentialSpec(s, op)
    case CreateBinding(_, _, _, _, _, _) => CreateBindingSpec(s, op)
    case UpdateBinding(_, _, _, _, _) => UpdateBindingSpec(s, op)
    case MarkSync(_, _, _, _) => MarkSyncSpec(s, op)
    case DeleteBinding(_, _) => DeleteBindingSpec(s, op)
  }

  // ---------------------------------------------------------------------------
  // What an operation needs, and what it leaves row by row
  // ---------------------------------------------------------------------------

  /** What the caller has seen of the rows it names is what they are. */
  predicate SeesCurrent(s: Store, op: Op) {
    match op
    case UpdateCredential(c, version, _, _, _, _) => c in s.credentials && s.credentials[c].version == version
    case DeleteCredential(c, version) => c in s.credentials && s.credentials[c].version == version
    case CreateBinding(_, c, _, _, _, _) => c in s.credentials
    case UpdateBinding(b, revision, version, _, _) => SeesBinding(s, b, revision, version)
    case MarkSync(b, revision, version, _) => SeesBinding(s, b, revision, version)
    case DeleteBinding(b, revision) => b in s.bindings && s.bindings[b].revision == revision
    case CreateCredential(_, _, _, _, _) => true
  }

  predicate SeesBinding(s: Store, b: string, revision: nat, version: nat) {
    && b in s.bindings && s.bindings[b].revision == revision
    && s.bindings[b].credential in s.credentials && s.credentials[s.bindings[b].credential].version == version
  }

  /** Nothing that the operation takes away is in use: no possible remote copy, no open session. */
  ghost predicate NothingInUse(s: Store, op: Op) {
    match op
    case DeleteCredential(c, _) =>
      && (forall b :: b in s.bindings && s.bindings[b].credential == c ==> !s.bindings[b].remotePossible)
      && (forall x :: x in s.openSessions ==> x.credential != c)
    case DeleteBinding(b, _) =>
      (b in s.bindings ==> !s.bindings[b].remotePossible) && forall x :: x in s.openSessions ==> x.binding != b
    case UpdateBinding(b, _, _, contract, _) =>
      b in s.bindings && s.bindings[b].remotePossible ==> contract == s.bindings[b].contract
    case _ => true
  }

  /** The request itself is sound. */
  ghost predicate Admissible(s: Store, op: Op) {
    match op
    case CreateCredential(ownerExists, cipherOk, _, _, _) => ownerExists && cipherOk
    case UpdateCredential(c, _, shares, newSecret, cipherOk, _) =>
      (newSecret ==> cipherOk) && (shares && c in s.credentials ==> s.credentials[c].scope != Personal)
    case CreateBinding(_, c, server, target, contract, _) =>
      && ValidContract(contract) && (server in s.targets ==> s.targets[server] == target)
      && forall b :: b in s.bindings ==> s.bindings[b].credential != c || s.bindings[b].server != server
    case UpdateBinding(_, _, _, contract, _) => ValidContract(contract)
    case MarkSync(b, _, _, status) =>
      status == Synced && SeesCurrent(s, op) ==>
        s.bindings[b].enabled && s.credentials[s.bindings[b].credential].enabled
    case _ => true
  }

  /** Accepted exactly when the caller is up to date, nothing in use is lost and the request is sound. */
  lemma AcceptedExactly(s: Store, op: Op)
    ensures Apply(s, op).Ok? <==> SeesCurrent(s, op) && NothingInUse(s, op) && Admissible(s, op)
  {
  }

  /** Every refusal names something that is the case. */
  lemma RefusedTruly(s: Store, op: Op)
    requires Apply(s, op).Err?
    ensures match Apply(s, op).error
      case OwnerUnavailable => op.CreateCredential? && !op.ownerExists
      case CredentialUnavailable => (op.CreateCredential? || (op.UpdateCredential? && op.newSecret)) && !op.cipherOk
      case CredentialNotFound =>
        if op.UpdateBinding? || op.MarkSync?
        then op.binding in s.bindings && s.bindings[op.binding].credential !in s.credentials
        else (op.UpdateCredential? || op.DeleteCredential? || op.CreateBinding?) && op.credential !in s.credentials
      case BindingNotFound => (op.UpdateBinding? || op.MarkSync? || op.DeleteBinding?) && op.binding !in s.bindings
      case RevisionConflict =>
        if op.UpdateCredential? || op.DeleteCredential?
        then op.credential in s.credentials && s.credentials[op.credential].version != op.expectedVersion
        else !SeesCurrent(s, op) && (op.UpdateBinding? || op.MarkSync? || op.DeleteBinding?) && op.binding in s.bindings
      case PersonalGrantDenied => op.UpdateCredential? && op.shares && s.credentials[op.credential].scope == Personal
      case RemoteCleanupRequired => !NothingInUse(s, op) && !op.CreateBinding?
      case SessionCleanupRequired => !NothingInUse(s, op) && (op.DeleteCredential? || op.DeleteBinding?)
      case InvalidContract => (op.CreateBinding? || op.UpdateBinding?) && !ValidContract(op.contract)
      case AdapterTargetConflict => op.CreateBinding? && op.server in s.targets && s.targets[op.server] != op.target
      case BindingExists => op.CreateBinding? && !Admissible(s, op)
      case CredentialDisabled => op.MarkSync? && op.status == Synced && !Admissible(s, op)
  {
  }

  /** What becomes of one credential, and of the markers and sessions. */
  lemma CredentialAfter(s: Store, op: Op, c: string)
    requires Apply(s, op).Ok?
    ensures var after := Apply(s, op).value;
      && after.openSessions == s.openSessions
      && after.targets == (if op.CreateBinding? then s.targets[op.server := op.target] else s.targets)
      && (if op.CreateCredential? && op.credential == c then
            c in after.credentials && after.credentials[c] == Credential(op.scope, op.enabled, 1)
          else if op.DeleteCredential? && op.credential == c then c !in after.credentials
          else if op.UpdateCredential? && op.credential == c then
            c in s.credentials && c in after.credentials
            && after.credentials[c] == Credential(s.credentials[c].scope, op.enabled, s.credentials[c].version + 1)
          else (c in after.credentials <==> c in s.credentials)
               && (c in s.credentials ==> after.credentials[c] == s.credentials[c]))
  {
  }

  /** Which bindings there are after an operation. */
  lemma BindingsAfter(s: Store, op: Op, b: string)
    requires Apply(s, op).Ok?
    ensures b in Apply(s, op).value.bindings <==>
      || (op.CreateBinding? && op.binding == b)
      || (b in s.bindings && !(op.DeleteBinding? && op.binding == b)
          && !(op.DeleteCredential? && op.credential == s.bindings[b].credential))
    ensures op.CreateBinding? ==>
      var row := Apply(s, op).value.bindings[op.binding];
      && row.credential == op.credential && row.server == op.server && row.target == op.target
      && row.contract == op.contract && row.enabled == op.enabled && row.revision == 1
      && row.syncedVersion == None && row.status == Pending && !row.remotePossible
  {
  }

  /** A binding that stays, field by field: which operation changes what. */
  lemma BindingAfter(s: Store, op: Op, b: string)
    requires Apply(s, op).Ok? && b in s.bindings && b in Apply(s, op).value.bindings
    requires !(op.CreateBinding? && op.binding == b)
    ensures FieldsAfter(s, op, b, s.bindings[b], Apply(s, op).value.bindings[b])
  {
    if op.UpdateCredential? {
      RotatedFields(s, op, b);
    } else if op.UpdateBinding? || op.MarkSync? {
      WrittenFields(s, op, b);
    }
  }

  predicate FieldsAfter(s: Store, op: Op, b: string, row: Binding, after: Binding)
    requires op.MarkSync? && op.binding == b ==> row.credential in s.credentials
  {
    var rotated := op.UpdateCredential? && op.credential == row.credential;
    var edited := op.UpdateBinding? && op.binding == b;
    var receipt := op.MarkSync? && op.binding == b;
    && after.credential == row.credential && after.server == row.server && after.target == row.target
    && after.contract == (if edited then op.contract else row.contract)
    && after.enabled == (if edited then op.enabled else row.enabled)
    && after.revision == row.revision + (if rotated || edited || receipt then 1 else 0)
    && after.status == (if rotated || (edited && op.contract != row.contract) then Pending
                        else if receipt then op.status else row.status)
    && after.syncedVersion == (if receipt && op.status == Synced then Some(s.credentials[row.credential].version)
                               else if receipt && op.status == Deleted then None else row.syncedVersion)
    && (after.remotePossible <==>
          if receipt && op.status in {Synced, Unknown} then true
          else if receipt && op.status == Deleted then false else row.remotePossible)
  }

  lemma RotatedFields(s: Store, op: Op, b: string)
    requires op.UpdateCredential? && Apply(s, op).Ok? && b in s.bindings
    ensures b in Apply(s, op).value.bindings && FieldsAfter(s, op, b, s.bindings[b], Apply(s, op).value.bindings[b])
  {
  }

  lemma WrittenFields(s: Store, op: Op, b: string)
    requires (op.UpdateBinding? || op.MarkSync?) && Apply(s, op).Ok? && b in s.bindings
    ensures b in Apply(s, op).value.bindings && FieldsAfter(s, op, b, s.bindings[b], Apply(s, op).value.bindings[b])
  {
  }

  /** The accepted contracts, by length and code points. */
  lemma ContractShape(c: Contract)
    ensures ValidContract(c) <==>
      && |c.tools| <= 128 && "save" in c.tools && "login" in c.tools && "delete" in c.tools && "open" in c.tools
      && HexText(c.manifest) && forall key :: key in c.tools ==> KeyText(key) && HexText(c.tools[key])
  {
    forall s: string ensures IsToolKey(s) <==> KeyText(s) {
      KeyTexts(s);
    }
    forall s: string ensures IsDigest(s) <==> HexText(s) {
    }
  }

  lemma KeyTexts(s: string)
    ensures IsToolKey(s) <==> KeyText(s)
  {
    forall i | 0 <= i < |s| ensures s[i] in "_.:-" <==> s[i] as int in {45, 46, 58, 95} {
      assert "_.:-" == ['_', '.', ':', '-'];
    }
  }

  predicate HexText(s: string) {
    |s| == 64 && forall i :: 0 <= i < |s| ==> 48 <= s[i] as int <= 57 || 97 <= s[i] as int <= 102
  }

  predicate Letter(code: int) { 65 <= code <= 90 || 97 <= code <= 122 }

  predicate KeyText(s: string) {
    && 0 < |s| < 129 && Letter(s[0] as int)
    && forall i :: 0 <= i < |s| ==>
         Letter(s[i] as int) || 48 <= s[i] as int <= 57 || s[i] as int in {45, 46, 58, 95}
  }

  // ---------------------------------------------------------------------------
  // The store object
  // ---------------------------------------------------------------------------

  /** The operation answered and wrote what the specification says; a refusal writes nothing. */
  predicate Did(before: Store, op: Op, after: Store, result: Result<()>) {
    match Apply(before, op)
    case Ok(expected) => result == Ok(()) && after == expected
    case Err(e) => result == Err(e) && after == before
  }

  class CredentialStore {
    var credentials: map<string, Credential>
    var bindings: map<string, Binding>
    var targets: map<string, Target>
    var openSessions: set<BrowserSession>

    function State(): Store reads this { Store(credentials, bindings, targets, openSessions) }

    method CreateCredential(op: Op) returns (result: Result<()>)
      requires op.CreateCredential? && op.credential !in credentials
      modifies this
      ensures Did(old(State()), op, State(), result)
    {
      if !op.ownerExists {
        return Err(OwnerUnavailable);
      }
      if !op.cipherOk {
        return Err(CredentialUnavailable);
      }
      credentials := credentials[op.credential := Credential(op.scope, op.enabled, 1)];
      return Ok(());
    }

    method UpdateCredential(op: Op) returns (result: Result<()>)
      requires op.UpdateCredential?
      modifies this
      ensures Did(old(State()), op, State(), result)
    {
      if op.credential !in credentials {
        return Err(CredentialNotFound);
      }
      var row := credentials[op.credential];
      if row.version != op.expectedVersion {
        return Err(RevisionConflict);
      }
      if row.scope == Personal && op.shares {
        return Err(PersonalGrantDenied);
      }
      if op.newSecret && !op.cipherOk {
        return Err(CredentialUnavailable);
      }
      credentials := credentials[op.credential := row.(enabled := op.enabled, version := row.version + 1)];
      bindings := map b | b in bindings ::
        if bindings[b].credential == op.credential
        then bindings[b].(status := Pending, revision := bindings[b].revision + 1)
        else bindings[b];
      return Ok(());
    }

    method DeleteCredential(op: Op) returns (result: Result<()>)
      requires op.DeleteCredential?
      modifies this
      ensures Did(old(State()), op, State(), result)
    {
      if op.credential !in credentials {
        return Err(CredentialNotFound);
      }
      if credentials[op.credential].version != op.expectedVersion {
        return Err(RevisionConflict);
      }
      if exists b :: b in bindings && bindings[b].credential == op.credential && bindings[b].remotePossible {
        return Err(RemoteCleanupRequired);
      }
      if exists session :: session in openSessions && session.credential == op.credential {
        return Err(SessionCleanupRequired);
      }
      bindings := map b | b in bindings && bindings[b].credential != op.credential :: bindings[b];
      credentials := credentials - {op.credential};
      return Ok(());
    }

    method CreateBinding(op: Op) returns (result: Result<()>)
      requires op.CreateBinding? && op.binding !in bindings
      modifies this
      ensures Did(old(State()), op, State(), result)
    {
      if !ValidContract(op.contract) {
        return Err(InvalidContract);
      }
      if op.credential !in credentials {
        return Err(CredentialNotFound);
      }
      if op.server in targets && targets[op.server] != op.target {
        return Err(AdapterTargetConflict);
      }
      if exists b :: b in bindings && bindings[b].credential == op.credential && bindings[b].server == op.server {
        return Err(BindingExists);
      }
      if op.server !in targets {
        targets := targets[op.server := op.target];
      }
      bindings := bindings[op.binding :=
        Binding(op.credential, op.server, op.target, op.contract, op.enabled, 1, None, Pending, false)];
      return Ok(());
    }

    method UpdateBinding(op: Op) returns (result: Result<()>)
      requires op.UpdateBinding?
      modifies this
      ensures Did(old(State()), op, State(), result)
    {
      if !ValidContract(op.contract) {
        return Err(InvalidContract);
      }
      var found := Current(State(), op.binding, op.expectedRevision, op.expectedVersion);
      if found.Err? {
        return Err(found.error);
      }
      var row := found.value;
      var changed := op.contract != row.contract;
      if changed && row.remotePossible {
        return Err(RemoteCleanupRequired);
      }
      bindings := bindings[op.binding := row.(enabled := op.enabled, contract := op.contract,
        revision := row.revision + 1, status := if changed then Pending else row.status)];
      return Ok(());
    }

    method MarkSync(op: Op) returns (result: Result<()>)
      requires op.MarkSync?
      modifies this
      ensures Did(old(State()), op, State(), result)
    {
      var found := Current(State(), op.binding, op.expectedRevision, op.expectedVersion);
      if found.Err? {
        return Err(found.error);
      }
      var row := found.value;
      if op.status == Synced && (!row.enabled || !credentials[row.credential].enabled) {
        return Err(CredentialDisabled);
      }
      var synced := row.syncedVersion;
      var remote := row.remotePossible;
      match op.status {
        case Synced => synced, remote := Some(op.expectedVersion), true;
        case Deleted => synced, remote := None, false;
        case Unknown => remote := true;
        case Pending =>
        case Failed =>
      }
      bindings := bindings[op.binding :=
        row.(status := op.status, syncedVersion := synced, remotePossible := remote, revision := row.revision + 1)];
      return Ok(());
    }

    method DeleteBinding(op: Op) returns (result: Result<()>)
      requires op.DeleteBinding?
      modifies this
      ensures Did(old(State()), op, State(), result)
    {
      if op.binding !in bindings {
        return Err(BindingNotFound);
      }
      if bindings[op.binding].revision != op.expectedRevision {
        return Err(RevisionConflict);
      }
      if bindings[op.binding].remotePossible {
        return Err(RemoteCleanupRequired);
      }
      if exists session :: session in openSessions && session.binding == op.binding {
        return Err(SessionCleanupRequired);
      }
      bindings := bindings - {op.binding};
      return Ok(());
    }
  }

  // ---------------------------------------------------------------------------
  // Runs: the store, the saves on their way, and the remote copies
  // ---------------------------------------------------------------------------

  /** A save of one binding's profile under the contract it was dispatched for. */
  datatype Copy = Copy(binding: string, contract: Contract)

  datatype World = World(store: Store, inFlight: set<Copy>, copies: set<Copy>, used: set<string>)

  datatype Event =
    | Call(op: Op)
    /** The dispatch guard: the binding still carries the revision its accepted "unknown" mark returned. */
    | Dispatch(binding: string, revision: nat)
    | Land(copy: Copy)
    | Lose(copy: Copy)
    | RemoteDelete(copy: Copy)
    | Sessions(open: set<BrowserSession>)

  function FreshIds(op: Op): set<string> {
    match op
    case CreateCredential(_, _, c, _, _) => {c}
    case CreateBinding(b, _, _, _, _, _) => {b}
    case _ => {}
  }

  predicate Holds(copies: set<Copy>, b: string) {
    exists copy :: copy in copies && copy.binding == b
  }

  /**
   What the environment may do: new rows get identifiers never used before, a save is dispatched only
   under the guard, and a "deleted" receipt is only reported once nothing is left or on its way.
   */
  ghost predicate Enabled(w: World, e: Event) {
    match e
    case Call(op) =>
      && FreshIds(op) !! w.used
      && (op.MarkSync? && op.status == Deleted ==> !Holds(w.copies, op.binding) && !Holds(w.inFlight, op.binding))
    case Dispatch(b, revision) =>
      b in w.store.bindings && w.store.bindings[b].revision == revision && w.store.bindings[b].status == Unknown
    case Land(copy) => copy in w.inFlight
    case Lose(copy) => copy in w.inFlight
    case RemoteDelete(_) => true
    case Sessions(_) => true
  }

  function Next(w: World, e: Event): World {
    match e
    case Call(op) =>
      (match Apply(w.store, op)
       case Ok(after) => w.(store := after, used := w.used + FreshIds(op))
       case Err(_) => w)
    case Dispatch(b, _) =>
      if b in w.store.bindings then w.(inFlight := w.inFlight + {Copy(b, w.store.bindings[b].contract)}) else w
    case Land(copy) => w.(inFlight := w.inFlight - {copy}, copies := w.copies + {copy})
    case Lose(copy) => w.(inFlight := w.inFlight - {copy})
    case RemoteDelete(copy) => w.(copies := w.copies - {copy})
    case Sessions(open) => w.(store := w.store.(openSessions := open))
  }

  ghost predicate IsRun(w: World, events: seq<Event>)
    decreases |events|
  {
    events == [] || (Enabled(w, events[0]) && IsRun(Next(w, events[0]), events[1..]))
  }

  function After(w: World, events: seq<Event>): World
    decreases |events|
  {
    if events == [] then w else After(Next(w, events[0]), events[1..])
  }

  /** A run is its events in order. */
  lemma {:induction false} AfterLast(w: World, events: seq<Event>, e: Event)
    ensures After(w, events + [e]) == Next(After(w, events), e)
    decreases |events|
  {
    if events == [] {
      assert [] + [e] == [e] && [e][1..] == [];
    } else {
      assert (events + [e])[1..] == events[1..] + [e];
      AfterLast(Next(w, events[0]), events[1..], e);
    }
  }

  /** What an event does to the copies and the saves on their way, copy by copy. */
  lemma CopiesAfter(w: World, e: Event, copy: Copy)
    ensures copy in Next(w, e).copies <==> (copy in w.copies && e != RemoteDelete(copy)) || e == Land(copy)
    ensures copy in Next(w, e).inFlight <==>
      || (copy in w.inFlight && e != Land(copy) && e != Lose(copy))
      || (e.Dispatch? && e.binding == copy.binding && e.binding in w.store.bindings
          && copy.contract == w.store.bindings[e.binding].contract)
    ensures e.Sessions? ==> Next(w, e).store == w.store.(openSessions := e.open)
    ensures !e.Call? && !e.Sessions? ==> Next(w, e).store == w.store
    ensures e.Call? && Apply(w.store, e.op).Ok? ==> Next(w, e).store == Apply(w.store, e.op).value
    ensures e.Call? && Apply(w.store, e.op).Err? ==> Next(w, e) == w
  {
  }

  const EMPTY := World(Store(map[], map[], map[], {}), {}, {}, {})

  // ---------------------------------------------------------------------------
  // Invariants
  // ---------------------------------------------------------------------------

  ghost predicate BindingOk(s: Store, b: string)
    requires b in s.bindings
  {
    var row := s.bindings[b];
    && row.credential in s.credentials
    && row.server in s.targets && s.targets[row.server] == row.target
    && (row.status == Synced ==> row.syncedVersion == Some(s.credentials[row.credential].version))
    && (row.status == Unknown || row.syncedVersion.Some? ==> row.remotePossible)
  }

  ghost predicate StoreOk(s: Store) {
    && (forall b :: b in s.bindings ==> BindingOk(s, b))
    && (forall b, c :: b in s.bindings && c in s.bindings && b != c ==>
          s.bindings[b].credential != s.bindings[c].credential || s.bindings[b].server != s.bindings[c].server)
  }

  /** A copy, or a save that may become one, always has a live, flagged row with its contract. */
  ghost predicate Tracked(w: World, copy: Copy) {
    && copy.binding in w.store.bindings
    && w.store.bindings[copy.binding].remotePossible
    && w.store.bindings[copy.binding].contract == copy.contract
  }

  ghost predicate WorldOk(w: World) {
    && StoreOk(w.store)
    && (forall copy :: copy in w.copies || copy in w.inFlight ==> Tracked(w, copy))
    && w.store.credentials.Keys <= w.used && w.store.bindings.Keys <= w.used
  }

  /** Rewriting one row without moving it keeps the bindings distinct. */
  lemma RowWriteKeeps(s: Store, b: string, row: Binding)
    requires StoreOk(s) && b in s.bindings
    requires row.credential == s.bindings[b].credential && row.server == s.bindings[b].server
      && row.target == s.bindings[b].target
    requires row.status == Synced ==> row.syncedVersion == Some(s.credentials[row.credential].version)
    requires row.status == Unknown || row.syncedVersion.Some? ==> row.remotePossible
    ensures StoreOk(s.(bindings := s.bindings[b := row]))
  {
  }

  lemma UpdateCredentialKeeps(s: Store, op: Op)
    requires StoreOk(s) && op.UpdateCredential? && Apply(s, op).Ok?
    ensures StoreOk(Apply(s, op).value)
  {
  }

  lemma RemovalKeeps(s: Store, t: Store)
    requires StoreOk(s) && t.targets == s.targets
    requires forall b :: b in t.bindings ==> b in s.bindings && t.bindings[b] == s.bindings[b]
    requires forall b :: b in t.bindings ==> t.bindings[b].credential in t.credentials
    requires forall c :: c in t.credentials ==> c in s.credentials && t.credentials[c] == s.credentials[c]
    ensures StoreOk(t)
  {
  }

  lemma CreateBindingKeeps(s: Store, op: Op)
    requires StoreOk(s) && op.CreateBinding? && Apply(s, op).Ok? && op.binding !in s.bindings
    ensures StoreOk(Apply(s, op).value)
  {
    var t := Apply(s, op).value;
    forall b | b in t.bindings
      ensures BindingOk(t, b)
    {
      assert b != op.binding ==> BindingOk(s, b);
    }
  }

  lemma ApplyKeepsStore(s: Store, op: Op)
    requires StoreOk(s) && Apply(s, op).Ok?
    requires FreshIds(op) !! s.credentials.Keys && FreshIds(op) !! s.bindings.Keys
    ensures StoreOk(Apply(s, op).value)
  {
    var t := Apply(s, op).value;
    match op {
      case CreateCredential(_, _, _, _, _) =>
        assert forall b :: b in s.bindings ==> BindingOk(s, b) && BindingOk(t, b);
      case UpdateCredential(_, _, _, _, _, _) => UpdateCredentialKeeps(s, op);
      case DeleteCredential(_, _) => RemovalKeeps(s, t);
      case CreateBinding(_, _, _, _, _, _) => CreateBindingKeeps(s, op);
      case UpdateBinding(b, _, _, _, _) =>
        assert BindingOk(s, b);
        RowWriteKeeps(s, b, t.bindings[b]);
      case MarkSync(b, _, _, _) =>
        assert BindingOk(s, b);
        RowWriteKeeps(s, b, t.bindings[b]);
      case DeleteBinding(_, _) => RemovalKeeps(s, t);
    }
  }

  lemma ApplyKeepsCopy(w: World, op: Op, copy: Copy)
    requires Tracked(w, copy) && StoreOk(w.store) && Apply(w.store, op).Ok?
    requires FreshIds(op) !! w.store.bindings.Keys
    requires op.MarkSync? && op.status == Deleted ==> op.binding != copy.binding
    ensures Tracked(Next(w, Call(op)), copy)
  {
  }

  lemma ApplyKeepsUsed(w: World, op: Op)
    requires WorldOk(w) && Apply(w.store, op).Ok?
    ensures var t := Apply(w.store, op).value;
            t.credentials.Keys <= w.used + FreshIds(op) && t.bindings.Keys <= w.used + FreshIds(op)
  {
  }

  lemma CallKeepsWorld(w: World, op: Op)
    requires WorldOk(w) && Enabled(w, Call(op)) && Apply(w.store, op).Ok?
    ensures WorldOk(Next(w, Call(op)))
  {
    ApplyKeepsStore(w.store, op);
    ApplyKeepsUsed(w, op);
    forall copy | copy in w.copies || copy in w.inFlight
      ensures Tracked(Next(w, Call(op)), copy)
    {
      ApplyKeepsCopy(w, op, copy);
    }
  }

  lemma StepKeepsWorld(w: World, e: Event)
    requires WorldOk(w) && Enabled(w, e)
    ensures WorldOk(Next(w, e))
  {
    match e {
      case Call(op) =>
        if Apply(w.store, op).Ok? {
          CallKeepsWorld(w, op);
        }
      case Dispatch(b, _) =>
        assert BindingOk(w.store, b);
        assert forall copy :: copy in w.copies || copy in w.inFlight ==> Tracked(w, copy);
      case Sessions(open) =>
        assert forall b :: b in w.store.bindings ==> BindingOk(w.store, b);
        RemovalKeeps(w.store, w.store.(openSessions := open));
      case _ =>
    }
  }

  /**
   Over every run, no update, edit or deletion loses track of a remote copy, and no row claims to be
   synchronised with anything but the current version of its credential.
   */
  lemma {:induction false} NoUntrackedCopy(w: World, events: seq<Event>)
    requires WorldOk(w) && IsRun(w, events)
    ensures WorldOk(After(w, events))
    decreases |events|
  {
    if events != [] {
      StepKeepsWorld(w, events[0]);
      NoUntrackedCopy(Next(w, events[0]), events[1..]);
    }
  }

  lemma ReachableWorld(events: seq<Event>)
    requires IsRun(EMPTY, events)
    ensures WorldOk(After(EMPTY, events))
  {
    NoUntrackedCopy(EMPTY, events);
  }

  /** The truthfulness of "deleted" receipts is exactly what the tracking needs. */
  lemma DeletedReceiptMustBeTrue(w: World, op: Op)
    requires WorldOk(w) && op.MarkSync? && op.status == Deleted && Apply(w.store, op).Ok?
    ensures WorldOk(Next(w, Call(op))) <==> !Holds(w.copies, op.binding) && !Holds(w.inFlight, op.binding)
  {
  }

  lemma ApplyKeepsTarget(s: Store, op: Op, server: string)
    requires server in s.targets && Apply(s, op).Ok?
    ensures var after := Apply(s, op).value; server in after.targets && after.targets[server] == s.targets[server]
  {
    match op
    case CreateBinding(_, _, _, _, _, _) => assert CreateBindingSpec(s, op).Ok?;
    case UpdateBinding(_, _, _, _, _) => assert UpdateBindingSpec(s, op).Ok?;
    case MarkSync(_, _, _, _) => assert MarkSyncSpec(s, op).Ok?;
    case _ =>
  }

  lemma TargetStays(w: World, e: Event, server: string)
    requires server in w.store.targets
    ensures server in Next(w, e).store.targets && Next(w, e).store.targets[server] == w.store.targets[server]
  {
    if e.Call? && Apply(w.store, e.op).Ok? {
      ApplyKeepsTarget(w.store, e.op, server);
    }
  }

  /** A server's target marker is permanent. */
  lemma {:induction false} TargetsArePermanent(w: World, events: seq<Event>, server: string)
    requires server in w.store.targets
    ensures server in After(w, events).store.targets
      && After(w, events).store.targets[server] == w.store.targets[server]
    decreases |events|
  {
    if events != [] {
      TargetStays(w, events[0], server);
      TargetsArePermanent(Next(w, events[0]), events[1..], server);
    }
  }

  // ---------------------------------------------------------------------------
  // Stale receipts
  // ---------------------------------------------------------------------------

  /** What a caller has read before it starts a synchronisation: both rows, or nothing. */
  function View(s: Store, b: string): Option<(Binding, Option<Credential>)> {
    if b !in s.bindings then None
    else
      var c := s.bindings[b].credential;
      Some((s.bindings[b], if c in s.credentials then Some(s.credentials[c]) else None))
  }

  /** Two views differ exactly when the binding or its credential was written, replaced or removed. */
  lemma SameView(s: Store, t: Store, b: string)
    ensures View(s, b) == View(t, b) <==>
      if b in s.bindings && b in t.bindings then
        && s.bindings[b] == t.bindings[b]
        && var c := s.bindings[b].credential;
        && (c in s.credentials <==> c in t.credentials)
        && (c in s.credentials && c in t.credentials ==> s.credentials[c] == t.credentials[c])
      else b !in s.bindings && b !in t.bindings
  {
  }

  ghost predicate Outdated(w: World, b: string, revision: nat, version: nat) {
    && b in w.used
    && (b in w.store.bindings ==>
          var row := w.store.bindings[b];
          row.revision > revision || row.credential !in w.store.credentials
            || w.store.credentials[row.credential].version > version)
  }

  /** A row that survives an operation keeps its credential, and its counters never fall back. */
  ghost predicate Advances(s: Store, t: Store, b: string)
    requires b in s.bindings && s.bindings[b].credential in s.credentials && b in t.bindings
  {
    var c := s.bindings[b].credential;
    && t.bindings[b].credential == c && c in t.credentials
    && t.bindings[b].revision >= s.bindings[b].revision
    && t.credentials[c].version >= s.credentials[c].version
    && (t.bindings[b].revision == s.bindings[b].revision && t.credentials[c].version == s.credentials[c].version ==>
          View(t, b) == View(s, b))
  }

  lemma ApplyAdvances(s: Store, op: Op, b: string)
    requires StoreOk(s) && b in s.bindings && Apply(s, op).Ok?
    requires FreshIds(op) !! s.credentials.Keys && FreshIds(op) !! s.bindings.Keys
    ensures BindingOk(s, b)
    ensures b in Apply(s, op).value.bindings ==> Advances(s, Apply(s, op).value, b)
  {
    assert BindingOk(s, b);
    if op.UpdateBinding? || op.MarkSync? {
      WriteAdvances(s, op, b);
    } else if op.CreateBinding? || op.DeleteBinding? {
      OthersAdvance(s, op, b);
    } else {
      CredentialAdvances(s, op, b);
    }
  }

  lemma WriteAdvances(s: Store, op: Op, b: string)
    requires b in s.bindings && BindingOk(s, b) && Apply(s, op).Ok? && (op.UpdateBinding? || op.MarkSync?)
    ensures b in Apply(s, op).value.bindings && Advances(s, Apply(s, op).value, b)
  {
  }

  lemma OthersAdvance(s: Store, op: Op, b: string)
    requires b in s.bindings && BindingOk(s, b) && Apply(s, op).Ok? && (op.CreateBinding? || op.DeleteBinding?)
    requires FreshIds(op) !! s.bindings.Keys
    ensures b in Apply(s, op).value.bindings ==> Advances(s, Apply(s, op).value, b)
  {
  }

  lemma CredentialAdvances(s: Store, op: Op, b: string)
    requires b in s.bindings && BindingOk(s, b) && Apply(s, op).Ok?
    requires op.CreateCredential? || op.UpdateCredential? || op.DeleteCredential?
    requires FreshIds(op) !! s.credentials.Keys
    ensures b in Apply(s, op).value.bindings ==> Advances(s, Apply(s, op).value, b)
  {
  }

  lemma WriteOutdates(w: World, e: Event, b: string)
    requires WorldOk(w) && Enabled(w, e) && b in w.store.bindings
    requires View(Next(w, e).store, b) != View(w.store, b)
    ensures Outdated(Next(w, e), b, w.store.bindings[b].revision,
      w.store.credentials[w.store.bindings[b].credential].version)
  {
    if e.Call? && Apply(w.store, e.op).Ok? {
      ApplyAdvances(w.store, e.op, b);
    }
  }

  lemma StaysOutdated(w: World, e: Event, b: string, revision: nat, version: nat)
    requires WorldOk(w) && Enabled(w, e) && Outdated(w, b, revision, version)
    ensures Outdated(Next(w, e), b, revision, version)
  {
    if e.Call? && Apply(w.store, e.op).Ok? {
      if b in w.store.bindings {
        ApplyAdvances(w.store, e.op, b);
      } else {
        NoRevival(w.store, e.op, b);
      }
    }
  }

  lemma NoRevival(s: Store, op: Op, b: string)
    requires b !in s.bindings && b !in FreshIds(op) && Apply(s, op).Ok?
    ensures b !in Apply(s, op).value.bindings
  {
  }

  lemma {:induction false} OutdatedForever(w: World, events: seq<Event>, b: string, revision: nat, version: nat)
    requires WorldOk(w) && IsRun(w, events) && Outdated(w, b, revision, version)
    ensures Outdated(After(w, events), b, revision, version)
    decreases |events|
  {
    if events != [] {
      StepKeepsWorld(w, events[0]);
      StaysOutdated(w, events[0], b, revision, version);
      OutdatedForever(Next(w, events[0]), events[1..], b, revision, version);
    }
  }

  /** Once a later write has changed what a caller read, it is outdated for the rest of the run. */
  lemma {:induction false} ChangedIsOutdated(w: World, events: seq<Event>, k: nat, b: string)
    requires WorldOk(w) && IsRun(w, events) && k <= |events| && b in w.store.bindings
    requires View(After(w, events[..k]).store, b) != View(w.store, b)
    ensures Outdated(After(w, events), b, w.store.bindings[b].revision,
      w.store.credentials[w.store.bindings[b].credential].version)
    decreases |events|
  {
    if k > 0 {
      var next := Next(w, events[0]);
      StepKeepsWorld(w, events[0]);
      assert events[..k][1..] == events[1..][..k - 1];
      if View(next.store, b) == View(w.store, b) {
        ChangedIsOutdated(next, events[1..], k - 1, b);
      } else {
        var row := w.store.bindings[b];
        WriteOutdates(w, events[0], b);
        OutdatedForever(next, events[1..], b, row.revision, w.store.credentials[row.credential].version);
      }
    }
  }

  /**
   A receipt for work started before any later write to its binding or credential, including their
   deletion, is never accepted, however the run goes on.
   */
  lemma StaleReceiptRefused(w: World, events: seq<Event>, k: nat, b: string, status: SyncStatus)
    requires WorldOk(w) && IsRun(w, events) && k <= |events| && b in w.store.bindings
    requires View(After(w, events[..k]).store, b) != View(w.store, b)
    ensures var row := w.store.bindings[b];
            Apply(After(w, events).store,
              MarkSync(b, row.revision, w.store.credentials[row.credential].version, status)).Err?
  {
    ChangedIsOutdated(w, events, k, b);
  }
}
