/**
 Grants and the catalogue search. The batched lookup and the memoised search closure
 resolve grants in different ways and from different extracts of the grant table; both
 are proved to give `EffectiveAccess`, and the closure to give the evaluator's answer.
 */
module CatalogAuthorizer {
  import opened Common
  import opened AccessPolicy

  datatype Subject = User(userId: string) | Role(roleId: string)

  datatype GrantKey = GrantKey(subject: Subject, server: string, tool: string)

  /** A grant row joined with its permission type. */
  datatype GrantRow = GrantRow(level: Level, typeEnabled: bool, expiresAt: Expiry)

  /** The levels a permission type may have. */
  type Level = a: Access | a != Unknown witness NoAccess

  type GrantTable = map<GrantKey, GrantRow>

  datatype ToolKey = ToolKey(server: string, tool: string)

  // ---------------------------------------------------------------------------
  // Specification: user over role, tool over server, the best role wins
  // ---------------------------------------------------------------------------

  predicate Live(table: GrantTable, now: int, key: GrantKey) {
    key in table && table[key].typeEnabled && !Expired(table[key].expiresAt, now)
  }

  /** The level a subject holds on a tool: its tool grant if it has one, else its server grant. */
  function SubjectLevel(table: GrantTable, now: int, subject: Subject, key: ToolKey): Option<Level> {
    var exact, whole := GrantKey(subject, key.server, key.tool), GrantKey(subject, key.server, "");
    if Live(table, now, exact) then Some(table[exact].level)
    else if Live(table, now, whole) then Some(table[whole].level)
    else None
  }

  predicate SomeRoleHas(table: GrantTable, now: int, roles: set<string>, key: ToolKey, level: Level) {
    exists role :: role in roles && SubjectLevel(table, now, Role(role), key) == Some(level)
  }

  /** `roles` are the enabled roles of user `id`. */
  function EffectiveAccess(table: GrantTable, now: int, id: string, roles: set<string>, key: ToolKey): Level {
    match SubjectLevel(table, now, User(id), key)
    case Some(level) => level
    case None =>
      if SomeRoleHas(table, now, roles, key, Write) then Write
      else if SomeRoleHas(table, now, roles, key, Read) then Read
      else NoAccess
  }

  /** What the batched map holds for a principal: administrators are never looked up. */
  function MapAccess(table: GrantTable, now: int, p: Principal, roles: set<string>, key: ToolKey): Level {
    if IsAdmin(p) then Write else EffectiveAccess(table, now, p.id, roles, key)
  }

  // ---------------------------------------------------------------------------
  // What the rows of the table say
  // ---------------------------------------------------------------------------

  /** A row counts while its permission type is enabled and until it expires. */
  predicate Counts(table: GrantTable, now: int, key: GrantKey) {
    && key in table && table[key].typeEnabled
    && (table[key].expiresAt == Never || (table[key].expiresAt.At? && now < table[key].expiresAt.instant))
  }

  /** The row that speaks for a subject: its row for the tool, which hides its row for the server. */
  predicate Speaks(table: GrantTable, now: int, subject: Subject, key: ToolKey, row: GrantKey) {
    && row.subject == subject && row.server == key.server && Counts(table, now, row)
    && (row.tool == key.tool || (row.tool == "" && !Counts(table, now, GrantKey(subject, key.server, key.tool))))
  }

  lemma SpeaksIs(table: GrantTable, now: int, subject: Subject, key: ToolKey, row: GrantKey)
    ensures Speaks(table, now, subject, key, row) ==> SubjectLevel(table, now, subject, key) == Some(table[row].level)
    ensures SubjectLevel(table, now, subject, key).Some? ==>
      || Speaks(table, now, subject, key, GrantKey(subject, key.server, key.tool))
      || Speaks(table, now, subject, key, GrantKey(subject, key.server, ""))
  {
  }

  /**
   A row of the user decides, whatever else the table holds; without one the answer is the highest
   level among the rows that speak for the user's roles, and none if there is no such row.
   */
  lemma GrantPrecedence(table: GrantTable, now: int, id: string, roles: set<string>, key: ToolKey)
    ensures var level := EffectiveAccess(table, now, id, roles, key);
      && (forall row :: Speaks(table, now, User(id), key, row) ==> level == table[row].level)
      && ((forall row :: !Speaks(table, now, User(id), key, row)) ==>
            && (forall role, row :: role in roles && Speaks(table, now, Role(role), key, row) ==>
                  Rank(table[row].level) <= Rank(level))
            && (level == NoAccess || exists role, row :: role in roles && Speaks(table, now, Role(role), key, row)
                                                         && table[row].level == level))
  {
    var level := EffectiveAccess(table, now, id, roles, key);
    forall subject, row ensures Speaks(table, now, subject, key, row) ==>
                                SubjectLevel(table, now, subject, key) == Some(table[row].level)
    {
      SpeaksIs(table, now, subject, key, row);
    }
    SpeaksIs(table, now, User(id), key, GrantKey(User(id), key.server, ""));
    if SubjectLevel(table, now, User(id), key).None? && level != NoAccess {
      var role :| role in roles && SubjectLevel(table, now, Role(role), key) == Some(level);
      SpeaksIs(table, now, Role(role), key, GrantKey(Role(role), key.server, ""));
    }
  }

  /** The rows that count. */
  function Counting(table: GrantTable, now: int): GrantTable {
    map key | key in table && Counts(table, now, key) :: table[key]
  }

  /** Removing every expired row and every row of a disabled type changes no answer. */
  lemma DeadRowsAreSilent(table: GrantTable, now: int, id: string, roles: set<string>, key: ToolKey)
    ensures EffectiveAccess(Counting(table, now), now, id, roles, key) == EffectiveAccess(table, now, id, roles, key)
  {
    forall subject
      ensures SubjectLevel(Counting(table, now), now, subject, key) == SubjectLevel(table, now, subject, key)
    {
      assert forall row :: Live(Counting(table, now), now, row) <==> Live(table, now, row);
    }
  }

  // ---------------------------------------------------------------------------
  // The two extracts of the grant table
  // ---------------------------------------------------------------------------

  predicate Selected(subject: Subject, id: string, roles: set<string>) {
    match subject case User(u) => u == id case Role(r) => r in roles
  }

  /** Live grants of the user and of the user's roles on the given servers. */
  function Extract(table: GrantTable, now: int, id: string, roles: set<string>,
                   servers: set<string>): map<GrantKey, Level> {
    map key | key in table && key.server in servers && Selected(key.subject, id, roles) && Live(table, now, key)
      :: table[key].level
  }

  /** The closure reads the grants of all servers at once. */
  function ExtractAll(table: GrantTable, now: int, id: string, roles: set<string>): map<GrantKey, Level> {
    map key | key in table && Selected(key.subject, id, roles) && Live(table, now, key) :: table[key].level
  }

  function RolesIn(grants: map<GrantKey, Level>): set<string> {
    set key | key in grants && key.subject.Role? :: key.subject.roleId
  }

  function Lookup(grants: map<GrantKey, Level>, subject: Subject, key: ToolKey): Option<Level> {
    var exact, whole := GrantKey(subject, key.server, key.tool), GrantKey(subject, key.server, "");
    if exact in grants then Some(grants[exact])
    else if whole in grants then Some(grants[whole])
    else None
  }

  /** An extract answers like the table for everything it covers. */
  ghost predicate Covers(grants: map<GrantKey, Level>, table: GrantTable, now: int, id: string, roles: set<string>,
                         key: ToolKey) {
    && Lookup(grants, User(id), key) == SubjectLevel(table, now, User(id), key)
    && (forall role :: role in roles ==> Lookup(grants, Role(role), key) == SubjectLevel(table, now, Role(role), key))
    && RolesIn(grants) <= roles
    && (forall role :: role in roles && SubjectLevel(table, now, Role(role), key).Some? ==> role in RolesIn(grants))
  }

  lemma ExtractCovers(grants: map<GrantKey, Level>, table: GrantTable, now: int, id: string, roles: set<string>,
                      key: ToolKey)
    requires forall k :: k in grants ==> Selected(k.subject, id, roles)
    requires forall k: GrantKey {:trigger k in grants} :: k.server == key.server && Selected(k.subject, id, roles) ==>
               (k in grants <==> Live(table, now, k))
    requires forall k :: k in grants && k in table ==> grants[k] == table[k].level
    ensures Covers(grants, table, now, id, roles, key)
  {
  }

  // ---------------------------------------------------------------------------
  // Resolving one key
  // ---------------------------------------------------------------------------

  /** The highest level, or none at all from an empty list. */
  function Highest(levels: seq<Level>): (best: Level)
    ensures forall l :: l in levels ==> Rank(l) <= Rank(best)
    ensures if levels == [] then best == NoAccess else best in levels
  {
    if levels == [] then NoAccess
    else if |levels| == 1 then levels[0]
    else
      var rest := Highest(levels[1..]);
      if Rank(levels[0]) >= Rank(rest) then levels[0] else rest
  }

  /** These levels are the ones the roles hold, perhaps padded with the lowest level. */
  ghost predicate LevelsOf(levels: seq<Level>, table: GrantTable, now: int, roles: set<string>, key: ToolKey) {
    && (forall role :: role in roles && SubjectLevel(table, now, Role(role), key).Some? ==>
          SubjectLevel(table, now, Role(role), key).value in levels)
    && (forall l :: l in levels ==> l == NoAccess || SomeRoleHas(table, now, roles, key, l))
  }

  lemma HighestIsEffective(levels: seq<Level>, table: GrantTable, now: int, id: string, some: set<string>,
                           roles: set<string>, key: ToolKey)
    requires SubjectLevel(table, now, User(id), key).None?
    requires LevelsOf(levels, table, now, some, key) && some <= roles
    requires forall role :: role in roles && SubjectLevel(table, now, Role(role), key).Some? ==> role in some
    ensures Highest(levels) == EffectiveAccess(table, now, id, roles, key)
  {
  }

  lemma LevelsExtend(levels: seq<Level>, table: GrantTable, now: int, roles: set<string>, key: ToolKey, role: string,
                     more: seq<Level>)
    requires LevelsOf(levels, table, now, roles, key)
    requires var found := SubjectLevel(table, now, Role(role), key);
             more == (if found.Some? then [found.value] else [])
               || more == [if found.Some? then found.value else NoAccess]
    ensures LevelsOf(levels + more, table, now, roles + {role}, key)
  {
  }

  /** The listing form: only the roles that hold a level contribute one. */
  method ResolveListed(grants: map<GrantKey, Level>, id: string, key: ToolKey,
                       ghost table: GrantTable, ghost now: int, ghost roles: set<string>) returns (level: Level)
    requires Covers(grants, table, now, id, roles, key)
    ensures level == EffectiveAccess(table, now, id, roles, key)
  {
    var direct := Lookup(grants, User(id), key);
    if direct.Some? {
      return direct.value;
    }
    var pending, levels: seq<Level> := RolesIn(grants), [];
    ghost var seen := {};
    while pending != {}
      invariant pending !! seen && pending + seen == RolesIn(grants)
      invariant LevelsOf(levels, table, now, seen, key)
      decreases pending
    {
      var role :| role in pending;
      pending := pending - {role};
      var found := Lookup(grants, Role(role), key);
      LevelsExtend(levels, table, now, seen, key, role, if found.Some? then [found.value] else []);
      if found.Some? {
        levels := levels + [found.value];
      }
      seen := seen + {role};
      assert levels + [] == levels;
    }
    HighestIsEffective(levels, table, now, id, seen, roles, key);
    level := if levels == [] then NoAccess else Highest(levels);
  }

  /** The search form: every known role contributes a level, none when it holds nothing here. */
  method ResolveSearched(grants: map<GrantKey, Level>, roleIds: set<string>, id: string, key: ToolKey,
                         ghost table: GrantTable, ghost now: int, ghost roles: set<string>) returns (level: Level)
    requires Covers(grants, table, now, id, roles, key) && roleIds == RolesIn(grants)
    ensures level == EffectiveAccess(table, now, id, roles, key)
  {
    var direct := Lookup(grants, User(id), key);
    if direct.Some? {
      return direct.value;
    }
    var pending, levels: seq<Level> := roleIds, [];
    ghost var seen := {};
    while pending != {}
      invariant pending !! seen && pending + seen == roleIds
      invariant LevelsOf(levels, table, now, seen, key)
      decreases pending
    {
      var role :| role in pending;
      pending := pending - {role};
      var found := Lookup(grants, Role(role), key);
      var contributed: Level := if found.Some? then found.value else NoAccess;
      LevelsExtend(levels, table, now, seen, key, role, [contributed]);
      levels := levels + [contributed];
      seen := seen + {role};
    }
    HighestIsEffective(levels, table, now, id, seen, roles, key);
    level := if levels == [] then NoAccess else Highest(levels);
  }

  // ---------------------------------------------------------------------------
  // The batched map
  // ---------------------------------------------------------------------------

  const BATCH: nat := 250

  function ServersOf(keys: seq<ToolKey>): set<string> {
    set k | k in keys :: k.server
  }

  /** The grants on many servers, read in batches of server ids. */
  method ReadInBatches(table: GrantTable, now: int, id: string, roles: set<string>, servers: seq<string>)
    returns (grants: map<GrantKey, Level>)
    ensures grants == Extract(table, now, id, roles, set s | s in servers)
  {
    grants := map[];
    var offset := 0;
    while offset < |servers|
      invariant offset <= |servers|
      invariant grants == Extract(table, now, id, roles, set s | s in servers[..offset])
    {
      var next := if offset + BATCH < |servers| then offset + BATCH else |servers|;
      var batch := set s | s in servers[offset..next];
      assert servers[..next] == servers[..offset] + servers[offset..next];
      assert (set s | s in servers[..next]) == (set s | s in servers[..offset]) + batch;
      grants := grants + Extract(table, now, id, roles, batch);
      offset := next;
    }
    assert servers[..offset] == servers;
  }

  method DistinctServers(keys: seq<ToolKey>) returns (servers: seq<string>)
    ensures (set s | s in servers) == ServersOf(keys)
  {
    servers := [];
    for i := 0 to |keys|
      invariant forall k :: k in keys[..i] ==> k.server in servers
      invariant forall s :: s in servers ==> s in ServersOf(keys)
    {
      if keys[i].server !in servers {
        servers := servers + [keys[i].server];
      }
      assert keys[..i + 1] == keys[..i] + [keys[i]];
    }
    assert keys[..|keys|] == keys;
  }

  method EffectiveAccessMap(table: GrantTable, now: int, p: Principal, roles: set<string>, keys: seq<ToolKey>)
    returns (access: map<ToolKey, Level>)
    ensures access.Keys == set k | k in keys
    ensures forall k :: k in keys ==>
      access[k] == if Administers(p) then Write else EffectiveAccess(table, now, p.id, roles, k)
  {
    if IsAdmin(p) {
      return map k | k in keys :: Write;
    }
    var servers := DistinctServers(keys);
    var grants := ReadInBatches(table, now, p.id, roles, servers);
    access := map[];
    for i := 0 to |keys|
      invariant access.Keys == set k | k in keys[..i]
      invariant forall k :: k in keys[..i] ==> access[k] == MapAccess(table, now, p, roles, k)
    {
      assert keys[i].server in ServersOf(keys);
      ExtractCovers(grants, table, now, p.id, roles, keys[i]);
      var level := ResolveListed(grants, p.id, keys[i], table, now, roles);
      access := access[keys[i] := level];
      assert keys[..i + 1] == keys[..i] + [keys[i]];
    }
    assert keys[..|keys|] == keys;
  }

  // ---------------------------------------------------------------------------
  // The search closure
  // ---------------------------------------------------------------------------

  /** One candidate row of the catalogue search. */
  datatype Row = Row(tool: string, server: string, source: string, permission: string, policy: string,
                     effective: Access, status: Option<Status>)

  /** The memo key; only built-in tools keep their id in it. */
  datatype CacheKey = CacheKey(server: string, source: string, permission: string, policy: string,
                               effective: Access, status: Option<Status>, granted: Level, tool: Option<string>)

  type Stored = map<ToolKey, Classification>

  function RebuiltDefinition(g: Gate, tool: string, server: string, source: string, permission: string,
                             policy: string): Definition {
    Definition(tool, source, permission, g.policyMetadata(policy).(serverId := server))
  }

  function DefinitionOf(g: Gate, row: Row): Definition {
    RebuiltDefinition(g, row.tool, row.server, row.source, row.permission, row.policy)
  }

  function RowClassification(effective: Access, status: Option<Status>): Option<Classification> {
    if status.Some? then Some(Classification(status.value, effective)) else None
  }

  /** Snapshot tokens compare against the complete stored row, everyone else against the search row. */
  function ClassificationFor(p: Principal, stored: Stored, row: Row): Option<Classification> {
    var key := ToolKey(row.server, row.tool);
    if IndependentToken(p) && row.tool in p.toolSnapshots then
      if key in stored then Some(stored[key]) else None
    else RowClassification(row.effective, row.status)
  }

  /** The key under which every caller of the evaluator looks up grants and classifications. */
  function EvaluatorKey(d: Definition): ToolKey {
    ToolKey(ServerId(d), d.id)
  }

  /** The evaluator's answer for the rebuilt definition, with grants from the batched map. */
  predicate EvaluatorAllows(g: Gate, p: Principal, table: GrantTable, roles: set<string>, stored: Stored, row: Row) {
    var d := DefinitionOf(g, row);
    Evaluate(g, p, d, ClassificationFor(p, stored, row), MapAccess(table, g.now, p, roles, EvaluatorKey(d)))
  }

  /** The single lookup: the stored classification and the grant, both under the evaluator's key. */
  predicate LookupAllows(g: Gate, p: Principal, table: GrantTable, roles: set<string>, stored: Stored, d: Definition) {
    var key := EvaluatorKey(d);
    Evaluate(g, p, d, if key in stored then Some(stored[key]) else None, MapAccess(table, g.now, p, roles, key))
  }

  /** A row as the search query joins it: its classification is the stored one, if there is one. */
  predicate Joined(stored: Stored, row: Row) {
    var key := ToolKey(row.server, row.tool);
    RowClassification(row.effective, row.status) == if key in stored then Some(stored[key]) else None
  }

  /** What the closure answers: OAuth screens first, then the evaluator with grants under the row's own server id. */
  predicate SearchAllows(g: Gate, p: Principal, table: GrantTable, roles: set<string>, stored: Stored, row: Row) {
    && !ManagementResource(p)
    && (p.authType == OAuth ==> row.server in p.externalServerIds)
    && Evaluate(g, p, DefinitionOf(g, row), ClassificationFor(p, stored, row),
         MapAccess(table, g.now, p, roles, ToolKey(row.server, row.tool)))
  }

  lemma AdminIgnoresGrant(g: Gate, p: Principal, d: Definition, c: Option<Classification>, a: Access, b: Access)
    requires IsAdmin(p)
    ensures Evaluate(g, p, d, c, a) == Evaluate(g, p, d, c, b)
  {
  }

  /** Without OAuth lists or an independent token policy, only built-in tools are known by id. */
  lemma ToolIdIrrelevant(g: Gate, p: Principal, d: Definition, id: string, c: Option<Classification>, a: Access)
    requires p.authType != OAuth && !IndependentToken(p) && d.source != "builtin"
    ensures Evaluate(g, p, d, c, a) == Evaluate(g, p, d.(id := id), c, a)
  {
  }

  /** The evaluator knows the row's server by the id that the row carries. */
  predicate SameServer(g: Gate, row: Row) {
    ServerId(DefinitionOf(g, row)) == row.server
  }

  /**
   For every principal and grant table: the closure agrees with the evaluator on rows whose server
   id stripping leaves alone, except that it always refuses the management resource.
   */
  lemma SearchAgreesWithEvaluator(g: Gate, p: Principal, table: GrantTable, roles: set<string>, stored: Stored,
                                  row: Row)
    ensures ManagementResource(p) ==> !SearchAllows(g, p, table, roles, stored, row)
    ensures !ManagementResource(p) && SameServer(g, row) ==>
      SearchAllows(g, p, table, roles, stored, row) == EvaluatorAllows(g, p, table, roles, stored, row)
    ensures !ManagementResource(p) && SameServer(g, row) && Joined(stored, row) ==>
      SearchAllows(g, p, table, roles, stored, row) == LookupAllows(g, p, table, roles, stored, DefinitionOf(g, row))
  {
  }

  /** A snapshot token is judged by the stored classification, every other principal by the row's own. */
  lemma WhichClassification(g: Gate, p: Principal, table: GrantTable, roles: set<string>, stored: Stored, row: Row,
                            other: Stored, effective: Access, status: Option<Status>)
    ensures p.authType == Token && p.independent && row.tool in p.toolSnapshots ==>
      SearchAllows(g, p, table, roles, stored, row)
        == SearchAllows(g, p, table, roles, stored, row.(effective := effective, status := status))
    ensures !(p.authType == Token && p.independent && row.tool in p.toolSnapshots) ==>
      SearchAllows(g, p, table, roles, stored, row) == SearchAllows(g, p, table, roles, other, row)
  {
  }

  /** The rows of MCP tools carry manifest ids, so there the agreement has no exception. */
  lemma ManifestRowsAgree(g: Gate, p: Principal, table: GrantTable, roles: set<string>, stored: Stored, row: Row)
    requires ManifestId(row.server) && Joined(stored, row) && !ManagementResource(p)
    ensures SearchAllows(g, p, table, roles, stored, row) == EvaluatorAllows(g, p, table, roles, stored, row)
    ensures SearchAllows(g, p, table, roles, stored, row)
         == LookupAllows(g, p, table, roles, stored, DefinitionOf(g, row))
  {
    ManifestIdIsStripped(row.server);
    SearchAgreesWithEvaluator(g, p, table, roles, stored, row);
  }

  /** A server id that stripping leaves alone and that is not blank. */
  predicate Unpadded(server: string) { server != "" && Strip(server) == server }

  /** A gate without built-in tools, OAuth configuration or tool metadata. */
  function BareGate(): Gate {
    Gate(0, {}, {}, {}, {}, {}, OAuthConfig(false, "", ""), false, x => x, d => "", x => None, (d, c) => None,
      x => Metadata("", "", false, false))
  }

  function PlainPrincipal(authType: AuthType, scopes: set<string>, servers: set<string>): Principal {
    Principal("u", "user", {"user"}, {"tools.read"}, authType, scopes, None, false, [], map[], map[],
      "grant", servers, {"t"}, {Read}, At(1), false, "", "", "", "", map[])
  }

  /** One user grant of read access to tool `t` on a server. */
  function ReadGrant(server: string): GrantTable {
    map[GrantKey(User("u"), server, "t") := GrantRow(Read, true, Never)]
  }

  lemma OneGrant(granted: string, asked: string)
    ensures EffectiveAccess(ReadGrant(granted), 0, "u", {}, ToolKey(asked, "t")) == if granted == asked then Read
      else NoAccess
  {
    assert "t" != "";
  }

  /** A plain caller of a published read tool needs read access, and nothing else. */
  lemma PlainDecision(p: Principal, d: Definition, granted: Access)
    requires p == PlainPrincipal(Session, {}, {}) || p == PlainPrincipal(OAuth, {"*"}, {ServerId(d)})
    requires d == Definition("t", "mcp", "read", Metadata(d.metadata.serverId, "", false, false))
    ensures !IsAdmin(p) && !ManagementResource(p)
    ensures Evaluate(BareGate(), p, d, Some(Classification(Published, Read)), granted) <==> Rank(granted) >= Rank(Read)
  {
    assert "user"[0] != "admin"[0] && "mcp"[0] != "builtin"[0];
  }

  /**
   On arbitrary rows the condition is needed. For every blank or padded server id and every kind of
   caller there is a disagreement: a session with a grant under the stripped id is allowed by the
   evaluator and refused by the closure, one with a grant under the raw id the other way round,
   and an OAuth grant that lists the stripped id is refused by the closure.
   */
  lemma PaddedServerIdDisagrees(server: string)
    returns (g: Gate, row: Row, known: string, session: Principal, oauth: Principal)
    requires !Unpadded(server)
    ensures row.server == server && session.authType == Session && oauth.authType == OAuth
    ensures !ManagementResource(session) && !ManagementResource(oauth)
    ensures EvaluatorAllows(g, session, ReadGrant(known), {}, map[], row)
         && !SearchAllows(g, session, ReadGrant(known), {}, map[], row)
    ensures !EvaluatorAllows(g, session, ReadGrant(server), {}, map[], row)
         && SearchAllows(g, session, ReadGrant(server), {}, map[], row)
    ensures EvaluatorAllows(g, oauth, ReadGrant(known), {}, map[], row)
         && !SearchAllows(g, oauth, ReadGrant(known), {}, map[], row)
  {
    known := if Strip(server) != "" then Strip(server) else "mcp";
    assert Strip("mcp") == "mcp";
    assert known != server;
    g, row := BareGate(), Row("t", server, "mcp", "read", "{}", Read, Some(Published));
    session, oauth := PlainPrincipal(Session, {}, {}), PlainPrincipal(OAuth, {"*"}, {known});
    var d := DefinitionOf(g, row);
    assert ServerId(d) == known;
    PlainDecision(session, d, Read);
    PlainDecision(session, d, NoAccess);
    PlainDecision(oauth, d, Read);
    OneGrant(known, known);
    OneGrant(known, server);
    OneGrant(server, known);
    OneGrant(server, server);
  }

  class Authorizer {
    const gate: Gate
    const principal: Principal
    const stored: Stored
    const grants: map<GrantKey, Level>
    const roleIds: set<string>
    var decisions: map<CacheKey, bool>
    ghost const table: GrantTable
    ghost const roles: set<string>

    predicate Memoised() { principal.authType != OAuth && !IndependentToken(principal) }

    /** The evaluator's answer for a memo key; a missing tool id stands for any id. */
    predicate KeyDecision(key: CacheKey) {
      var tool := if key.tool.Some? then key.tool.value else "";
      Evaluate(gate, principal, RebuiltDefinition(gate, tool, key.server, key.source, key.permission, key.policy),
        RowClassification(key.effective, key.status), key.granted)
    }

    ghost predicate Valid()
      reads this
    {
      && grants == ExtractAll(table, gate.now, principal.id, roles)
      && roleIds == RolesIn(grants)
      && (forall key :: key in decisions ==> decisions[key] == KeyDecision(key))
    }

    constructor (gate: Gate, principal: Principal, stored: Stored, table: GrantTable, roles: set<string>)
      ensures Valid() && decisions == map[]
      ensures this.gate == gate && this.principal == principal && this.stored == stored
      ensures this.table == table && this.roles == roles
    {
      this.gate, this.principal, this.stored, this.table, this.roles := gate, principal, stored, table, roles;
      this.grants := ExtractAll(table, gate.now, principal.id, roles);
      this.roleIds := RolesIn(ExtractAll(table, gate.now, principal.id, roles));
      this.decisions := map[];
    }

    method Authorize(row: Row) returns (allowed: bool)
      requires Valid()
      modifies this`decisions
      ensures Valid()
      ensures allowed == SearchAllows(gate, principal, table, roles, stored, row)
    {
      var key := ToolKey(row.server, row.tool);
      if ManagementResource(principal) {
        return false;
      }
      if principal.authType == OAuth
         && (row.source != "mcp" || row.tool !in principal.externalToolIds
           || row.server !in principal.externalServerIds)
      {
        return false;
      }
      ExtractCovers(grants, table, gate.now, principal.id, roles, key);
      var granted := ResolveSearched(grants, roleIds, principal.id, key, table, gate.now, roles);
      AllowedByGrant(row, granted);
      var cacheKey := CacheKey(row.server, row.source, row.permission, row.policy, row.effective, row.status, granted,
        if row.source == "builtin" then Some(row.tool) else None);
      if Memoised() && cacheKey in decisions {
        return decisions[cacheKey];
      }
      allowed := Evaluate(gate, principal, DefinitionOf(gate, row), ClassificationFor(principal, stored, row), granted);
      if Memoised() {
        decisions := decisions[cacheKey := allowed];
      }
    }

    /** The closure's own grant and the memo key both lead to the answer for this row. */
    lemma AllowedByGrant(row: Row, granted: Level)
      requires granted == EffectiveAccess(table, gate.now, principal.id, roles, ToolKey(row.server, row.tool))
      ensures Evaluate(gate, principal, DefinitionOf(gate, row), ClassificationFor(principal, stored, row),
                MapAccess(table, gate.now, principal, roles, ToolKey(row.server, row.tool)))
              == Evaluate(gate, principal, DefinitionOf(gate, row), ClassificationFor(principal, stored, row), granted)
      ensures Memoised() ==>
                Evaluate(gate, principal, DefinitionOf(gate, row), ClassificationFor(principal, stored, row),
                  granted) ==
                KeyDecision(CacheKey(row.server, row.source, row.permission, row.policy, row.effective, row.status,
                  granted,
                  if row.source == "builtin" then Some(row.tool) else None))
    {
      var d, c := DefinitionOf(gate, row), ClassificationFor(principal, stored, row);
      if IsAdmin(principal) {
        AdminIgnoresGrant(gate, principal, d, c, granted, Write);
      }
      if Memoised() && row.source != "builtin" {
        ToolIdIrrelevant(gate, principal, d, "", c, granted);
      }
    }
  }

  /** A whole search: any rows, in any order, with any repetition. */
  method Search(g: Gate, p: Principal, stored: Stored, table: GrantTable, roles: set<string>, rows: seq<Row>)
    returns (answers: seq<bool>)
    ensures |answers| == |rows|
    ensures forall i :: 0 <= i < |rows| ==> answers[i] == SearchAllows(g, p, table, roles, stored, rows[i])
    ensures forall i :: 0 <= i < |rows| && !ManagementResource(p) && SameServer(g, rows[i]) ==>
      answers[i] == EvaluatorAllows(g, p, table, roles, stored, rows[i])
  {
    var authorizer := new Authorizer(g, p, stored, table, roles);
    answers := [];
    for i := 0 to |rows|
      invariant authorizer.Valid() && fresh(authorizer)
      invariant authorizer.gate == g && authorizer.principal == p && authorizer.stored == stored
      invariant authorizer.table == table && authorizer.roles == roles
      invariant |answers| == i
      invariant forall j :: 0 <= j < i ==> answers[j] == SearchAllows(g, p, table, roles, stored, rows[j])
    {
      var allowed := authorizer.Authorize(rows[i]);
      answers := answers + [allowed];
    }
    RowsAgree(g, p, table, roles, stored, rows);
  }

  lemma RowsAgree(g: Gate, p: Principal, table: GrantTable, roles: set<string>, stored: Stored, rows: seq<Row>)
    ensures forall i :: 0 <= i < |rows| && !ManagementResource(p) && SameServer(g, rows[i]) ==>
      SearchAllows(g, p, table, roles, stored, rows[i]) == EvaluatorAllows(g, p, table, roles, stored, rows[i])
  {
    forall i | 0 <= i < |rows| && !ManagementResource(p) && SameServer(g, rows[i])
      ensures SearchAllows(g, p, table, roles, stored, rows[i]) == EvaluatorAllows(g, p, table, roles, stored, rows[i])
    {
      SearchAgreesWithEvaluator(g, p, table, roles, stored, rows[i]);
    }
  }
}
