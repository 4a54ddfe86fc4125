/**
 The one policy evaluator of the gateway, reached by single lookups, batched listings
 and the catalogue search, and what its token and OAuth ceilings guarantee.
 */
module AccessPolicy {
  import opened Common

  datatype Access = NoAccess | Read | Write | Unknown

  function Rank(a: Access): int {
    match a case Unknown => -1 case NoAccess => 0 case Read => 1 case Write => 2
  }

  predicate Decided(a: Access) { a == Read || a == Write }

  datatype AuthType = Session | Token | OAuth | Disabled

  /** An expiry column: absent, not a timestamp, or an instant. */
  datatype Expiry = Never | Unreadable | At(instant: int)

  predicate Expired(e: Expiry, now: int) {
    match e case Never => false case Unreadable => true case At(t) => t <= now
  }

  datatype Principal = Principal(
    id: string,
    role: string,
    roles: set<string>,
    permissions: set<string>,
    authType: AuthType,
    scopes: set<string>,
    delegatedScopes: Option<set<string>>,
    independent: bool,
    serverPolicies: seq<ServerPolicy>,
    toolSnapshots: map<string, string>,
    toolBindings: map<string, string>,
    externalGrantId: string,
    externalServerIds: set<string>,
    externalToolIds: set<string>,
    externalAccess: set<Access>,
    externalExpiresAt: Expiry,
    oauthBuiltin: bool,
    oauthResource: string,
    oauthIssuer: string,
    oauthClientId: string,
    oauthFamilyId: string,
    oauthToolSnapshots: map<string, string>)

  /** One server of an independently authorised token, pinned to a server binding. */
  datatype ServerPolicy = ServerPolicy(server: string, binding: string, access: Access)

  datatype Status = Pending | Published | Stale

  datatype Classification = Classification(status: Status, effective: Access)

  datatype Metadata = Metadata(
    serverId: string,
    requiredControl: string,
    classificationControlPlane: bool,
    groupControlPlane: bool)

  datatype Definition = Definition(id: string, source: string, permission: string, metadata: Metadata)

  datatype OAuthConfig = OAuthConfig(enabled: bool, resource: string, issuer: string)

  /** Everything else a decision reads: tool id tables, stored configuration, digests and the clock. */
  datatype Gate = Gate(
    now: int,
    httpTools: set<string>,
    credentialTools: set<string>,
    managementTools: set<string>,
    managementReadTools: set<string>,
    groupTools: set<string>,
    oauthConfig: OAuthConfig,
    managementEnabled: bool,
    managementResource: string -> string,
    managementSnapshot: Definition -> string,
    serverBinding: string -> Option<string>,
    toolSnapshot: (Definition, Classification) -> Option<string>,
    policyMetadata: string -> Metadata)

  // ---------------------------------------------------------------------------
  // Text helpers
  // ---------------------------------------------------------------------------

  predicate IsSpace(c: char) {
    || '\t' <= c <= '\r' || '\U{1C}' <= c <= ' ' || c == '\U{85}' || c == '\U{A0}' || c == '\U{1680}'
    || '\U{2000}' <= c <= '\U{200A}' || c == '\U{2028}' || c == '\U{2029}' || c == '\U{202F}'
    || c == '\U{205F}' || c == '\U{3000}'
  }

  function Strip(s: string): string {
    if s == "" then s
    else if IsSpace(s[0]) then Strip(s[1..])
    else if IsSpace(s[|s| - 1]) then Strip(s[..|s| - 1])
    else s
  }

  predicate Blank(s: string) { forall i :: 0 <= i < |s| ==> IsSpace(s[i]) }

  lemma BlankMore(s: string, c: char)
    requires Blank(s) && IsSpace(c)
    ensures Blank([c] + s) && Blank(s + [c])
  {
  }

  predicate Trimmed(s: string) { s != "" ==> !IsSpace(s[0]) && !IsSpace(s[|s| - 1]) }

  /** `middle` is the text without the blanks at its ends. */
  predicate IsMiddle(s: string, left: string, middle: string, right: string) {
    s == left + middle + right && Blank(left) && Blank(right) && Trimmed(middle)
  }

  lemma MiddleLeft(s: string, left: string, middle: string, right: string)
    requires s != "" && IsSpace(s[0]) && IsMiddle(s[1..], left, middle, right)
    ensures IsMiddle(s, [s[0]] + left, middle, right)
  {
    BlankMore(left, s[0]);
    assert s == [s[0]] + s[1..];
  }

  lemma MiddleRight(s: string, left: string, middle: string, right: string)
    requires s != "" && IsSpace(s[|s| - 1]) && IsMiddle(s[..|s| - 1], left, middle, right)
    ensures IsMiddle(s, left, middle, right + [s[|s| - 1]])
  {
    BlankMore(right, s[|s| - 1]);
    assert s == s[..|s| - 1] + [s[|s| - 1]];
  }

  /** Stripping takes the blanks off both ends and nothing else. */
  lemma {:induction false} StripIs(s: string) returns (left: string, right: string)
    ensures IsMiddle(s, left, Strip(s), right)
    decreases |s|
  {
    if s != "" && IsSpace(s[0]) {
      left, right := StripIs(s[1..]);
      MiddleLeft(s, left, Strip(s[1..]), right);
      left := [s[0]] + left;
    } else if s != "" && IsSpace(s[|s| - 1]) {
      left, right := StripIs(s[..|s| - 1]);
      MiddleRight(s, left, Strip(s[..|s| - 1]), right);
      right := right + [s[|s| - 1]];
    } else {
      left, right := "", "";
      assert s == "" + s + "";
    }
  }

  predicate EndsWith(s: string, suffix: string) {
    |suffix| <= |s| && s[|s| - |suffix|..] == suffix
  }

  // ---------------------------------------------------------------------------
  // Roles and ceilings
  // ---------------------------------------------------------------------------

  function RoleSet(p: Principal): set<string> {
    if p.roles == {} then {p.role} else p.roles
  }

  predicate IsAdmin(p: Principal) {
    p.role == "admin" || "admin" in RoleSet(p)
  }

  /** Every scope list that limits this principal. */
  function ScopeLimits(p: Principal): seq<set<string>> {
    (if p.authType == Token || p.authType == OAuth then [p.scopes] else [])
    + (if p.delegatedScopes.Some? then [p.delegatedScopes.value] else [])
  }

  predicate HasControl(p: Principal, permission: string) {
    && (IsAdmin(p) || permission in p.permissions)
    && forall limit :: limit in ScopeLimits(p) ==> "*" in limit || permission in limit
  }

  function AcceptedScopes(required: Access): set<string> {
    if required == Read then {"tools.read", "mcp.read", "mcp.write"} else {"tools.invoke", "mcp.write"}
  }

  predicate ScopeAllows(p: Principal, required: Access) {
    forall limit :: limit in ScopeLimits(p) ==> "*" in limit || limit * AcceptedScopes(required) != {}
  }

  predicate ControlAllows(p: Principal, permission: string) {
    IsAdmin(p) || "*" in p.permissions || permission in p.permissions
  }

  function ToolPermission(required: Access): string {
    if required == Read then "tools.read" else "tools.invoke"
  }

  // ---------------------------------------------------------------------------
  // The evaluator
  // ---------------------------------------------------------------------------

  function ServerId(d: Definition): string {
    var stripped := Strip(d.metadata.serverId);
    if stripped != "" then stripped else if d.source != "" then d.source else "builtin"
  }

  predicate IsPublished(c: Option<Classification>) {
    c.Some? && c.value.status == Published && Decided(c.value.effective)
  }

  /** The first policy that names the server decides; otherwise the tool must match its frozen snapshot. */
  predicate TokenPolicyAllows(g: Gate, p: Principal, d: Definition, c: Option<Classification>) {
    && IsPublished(c)
    && match FirstPolicy(p.serverPolicies, ServerId(d))
       case Some(policy) =>
         && g.serverBinding(ServerId(d)) == Some(policy.binding)
         && Rank(policy.access) >= Rank(c.value.effective)
       case None =>
         && d.id in p.toolSnapshots
         && d.id in p.toolBindings && p.toolBindings[d.id] != ""
         && g.serverBinding(ServerId(d)) == Some(p.toolBindings[d.id])
         && g.toolSnapshot(d, c.value) == Some(p.toolSnapshots[d.id])
  }

  function FirstPolicy(policies: seq<ServerPolicy>, server: string): Option<ServerPolicy> {
    if policies == [] then None
    else if policies[0].server == server then Some(policies[0])
    else FirstPolicy(policies[1..], server)
  }

  predicate ManagementResource(p: Principal) {
    EndsWith(p.oauthResource, "/mcp/manage")
  }

  function ManagementServer(g: Gate, tool: string): string {
    if tool in g.credentialTools then "gate_credentials" else "gate_mcp_configuration"
  }

  function ManagementPermissions(g: Gate, tool: string): set<string> {
    if tool in g.credentialTools then {"operations.manage", "credentials.manage.system"} else {"operations.manage"}
  }

  predicate ManagementGrantAllows(g: Gate, p: Principal, d: Definition) {
    && g.oauthConfig.enabled && g.managementEnabled
    && p.oauthResource == g.managementResource(g.oauthConfig.resource)
    && p.oauthIssuer == g.oauthConfig.issuer
    && "admin" in p.roles && "operations.manage" in p.permissions
    && p.externalGrantId != "" && p.oauthFamilyId != "" && p.oauthClientId != ""
    && p.externalExpiresAt != Never && !Expired(p.externalExpiresAt, g.now)
    && d.source == "builtin" && ServerId(d) == ManagementServer(g, d.id)
    && d.id in g.managementTools && d.id in p.externalToolIds
    && d.id in p.oauthToolSnapshots && p.oauthToolSnapshots[d.id] == g.managementSnapshot(d)
    && "operations.manage" in p.scopes
    && p.delegatedScopes.Some? && "operations.manage" in p.delegatedScopes.value
    && ManagementPermissions(g, d.id) <= p.scopes * p.delegatedScopes.value * p.permissions
    && (d.id in g.managementReadTools
        || ("tools.invoke" in p.scopes && "tools.invoke" in p.delegatedScopes.value && "tools.invoke" in p.permissions))
  }

  predicate ExternalGrantAllows(g: Gate, p: Principal, d: Definition, c: Option<Classification>) {
    && p.externalGrantId != ""
    && d.source == "mcp"
    && ServerId(d) in p.externalServerIds
    && d.id in p.externalToolIds
    && (if c.Some? then c.value.effective else Unknown) in p.externalAccess
    && p.externalExpiresAt != Never && !Expired(p.externalExpiresAt, g.now)
  }

  /** Administrator tools that answer only to API tokens. */
  predicate TokenOnlyTool(g: Gate, d: Definition) {
    && d.source == "builtin"
    && d.id in g.httpTools + g.credentialTools
    && ServerId(d) == ManagementServer(g, d.id)
  }

  predicate TokenOnlyAllows(g: Gate, p: Principal, d: Definition) {
    var permissions := {if d.id in g.credentialTools then "credentials.manage.system" else "operations.manage"}
                       + if d.id in g.managementReadTools then {} else {"tools.invoke"};
    && p.authType == Token && "admin" in RoleSet(p)
    && forall permission :: permission in permissions ==>
         (permission in p.permissions || "*" in p.permissions) && HasControl(p, permission)
  }

  predicate GroupTool(d: Definition) {
    d.source == "builtin" && ServerId(d) == "gate_mcp_groups" && d.metadata.groupControlPlane
  }

  predicate GroupAllows(g: Gate, p: Principal, d: Definition) {
    var required := if d.permission == "read" then Read else Write;
    && d.id in g.groupTools
    && (p.authType == Session || p.authType == Token)
    && "admin" in RoleSet(p)
    && HasControl(p, "operations.manage")
    && ScopeAllows(p, required)
    && (required == Read || HasControl(p, "tools.invoke"))
  }

  predicate ReviewTool(d: Definition) {
    d.metadata.classificationControlPlane && Strip(d.metadata.requiredControl) == "classifications.manage"
  }

  predicate ExtraControl(p: Principal, d: Definition) {
    Strip(d.metadata.requiredControl) == "" || HasControl(p, Strip(d.metadata.requiredControl))
  }

  /** The part of the decision after the token and OAuth gates. */
  predicate PolicyAllows(g: Gate, p: Principal, d: Definition, c: Option<Classification>, granted: Access) {
    if TokenOnlyTool(g, d) then TokenOnlyAllows(g, p, d)
    else if GroupTool(d) then GroupAllows(g, p, d)
    else if ReviewTool(d) then
      HasControl(p, "classifications.manage") && ScopeAllows(p, if "read" <= d.permission then Read else Write)
    else if (p.authType == OAuth || p.delegatedScopes.Some?) && !IsPublished(c) then false
    else if IsAdmin(p) then
      var required := if c.Some? && Decided(c.value.effective) then c.value.effective else Write;
      ControlAllows(p, ToolPermission(required)) && ScopeAllows(p, required) && ExtraControl(p, d)
    else if !IsPublished(c) then false
    else
      var required := c.value.effective;
      && ControlAllows(p, ToolPermission(required))
      && ScopeAllows(p, required)
      && ExtraControl(p, d)
      && Rank(granted) >= Rank(required)
  }

  predicate IndependentToken(p: Principal) { p.authType == Token && p.independent }

  /** The allow bit of one decision. */
  predicate Evaluate(g: Gate, p: Principal, d: Definition, c: Option<Classification>, granted: Access) {
    if IndependentToken(p) && d.source == "mcp" && !TokenPolicyAllows(g, p, d, c) then false
    else if p.authType == OAuth && p.oauthBuiltin && ManagementResource(p) then ManagementGrantAllows(g, p, d)
    else if p.authType == OAuth && !ExternalGrantAllows(g, p, d, c) then false
    else PolicyAllows(g, p, d, c, granted)
  }

  // ---------------------------------------------------------------------------
  // What a call needs
  // ---------------------------------------------------------------------------

  /** The account has the administrator role. */
  predicate Administers(p: Principal) { p.role == "admin" || "admin" in p.roles }

  /** Every scope list of the credential holds one of these. */
  predicate Holds(p: Principal, any: set<string>) {
    && (p.authType == Token || p.authType == OAuth ==> p.scopes * any != {})
    && (p.delegatedScopes.Some? ==> p.delegatedScopes.value * any != {})
  }

  /** The account may use tools of this kind and so may the credential. */
  predicate MayUse(p: Principal, access: Access) {
    if access == Read then
      && (Administers(p) || "*" in p.permissions || "tools.read" in p.permissions)
      && Holds(p, {"*", "tools.read", "mcp.read", "mcp.write"})
    else
      && (Administers(p) || "*" in p.permissions || "tools.invoke" in p.permissions)
      && Holds(p, {"*", "tools.invoke", "mcp.write"})
  }

  predicate Reaches(granted: Access, required: Access) {
    granted == Write || (granted == Read && required == Read)
  }

  /** An independent token: the first policy for the server, or without one the tool as it was frozen. */
  ghost predicate TokenOpens(g: Gate, p: Principal, d: Definition, required: Access, c: Classification) {
    var named := set i | 0 <= i < |p.serverPolicies| && p.serverPolicies[i].server == ServerId(d);
    if named != {} then
      exists i :: i in named && (forall j :: j in named ==> i <= j)
        && Reaches(p.serverPolicies[i].access, required)
        && g.serverBinding(ServerId(d)) == Some(p.serverPolicies[i].binding)
    else
      && d.id in p.toolSnapshots && g.toolSnapshot(d, c) == Some(p.toolSnapshots[d.id])
      && d.id in p.toolBindings && p.toolBindings[d.id] != ""
      && g.serverBinding(ServerId(d)) == Some(p.toolBindings[d.id])
  }

  /** An OAuth grant: explicit lists and an expiry in the future. */
  predicate GrantOpens(g: Gate, p: Principal, d: Definition, access: Access) {
    && p.externalGrantId != "" && p.externalExpiresAt.At? && g.now < p.externalExpiresAt.instant
    && ServerId(d) in p.externalServerIds && d.id in p.externalToolIds && access in p.externalAccess
  }

  /** What the credential itself opens, whatever its account may do. */
  ghost predicate CredentialOpens(g: Gate, p: Principal, d: Definition, c: Option<Classification>) {
    && (p.authType == Token && p.independent && d.source == "mcp" ==>
          c.Some? && IsReviewed(c) && TokenOpens(g, p, d, c.value.effective, c.value))
    && (p.authType == OAuth ==>
          d.source == "mcp" && GrantOpens(g, p, d, if c.Some? then c.value.effective else Unknown))
  }

  /** A published classification as read or write. */
  predicate IsReviewed(c: Option<Classification>) {
    c == Some(Classification(Published, Read)) || c == Some(Classification(Published, Write))
  }

  /** The kinds of tools that a decision tells apart. */
  datatype Family = Management | Groups | Review | Ordinary

  function FamilyOf(g: Gate, d: Definition): Family {
    if d.source == "builtin" && d.id in g.credentialTools && ServerId(d) == "gate_credentials" then Management
    else if d.source == "builtin" && d.id in g.httpTools - g.credentialTools && ServerId(d) == "gate_mcp_configuration"
    then Management
    else if d.source == "builtin" && ServerId(d) == "gate_mcp_groups" && d.metadata.groupControlPlane then Groups
    else if d.metadata.classificationControlPlane && Strip(d.metadata.requiredControl) == "classifications.manage"
    then Review
    else Ordinary
  }

  /** Administrator by the list of roles; the single role stands in for an empty list. */
  predicate ListedAdmin(p: Principal) { "admin" in p.roles || (p.roles == {} && p.role == "admin") }

  /** Management tools of an administrator's token. */
  predicate MayManage(g: Gate, p: Principal, d: Definition) {
    var needed := (if d.id in g.credentialTools then {"credentials.manage.system"} else {"operations.manage"})
                  + (if d.id in g.managementReadTools then {} else {"tools.invoke"});
    && p.authType == Token && ListedAdmin(p)
    && forall x :: x in needed ==> ("*" in p.permissions || x in p.permissions) && Holds(p, {"*", x})
  }

  predicate MayGroup(g: Gate, p: Principal, d: Definition) {
    && d.id in g.groupTools && p.authType != OAuth && p.authType != Disabled && ListedAdmin(p)
    && Holds(p, {"*", "operations.manage"})
    && (if d.permission == "read" then Holds(p, {"*", "tools.read", "mcp.read", "mcp.write"})
        else Holds(p, {"*", "tools.invoke"}))
  }

  predicate MayReview(p: Principal, d: Definition) {
    && (Administers(p) || "classifications.manage" in p.permissions) && Holds(p, {"*", "classifications.manage"})
    && (if |d.permission| >= 4 && d.permission[..4] == "read"
        then Holds(p, {"*", "tools.read", "mcp.read", "mcp.write"}) else Holds(p, {"*", "tools.invoke", "mcp.write"}))
  }

  /**
   Every other tool, MCP tools among them: the account and the credential may use tools of this kind,
   the tool is reviewed, and the grant reaches it. Administrators need no grant, and no review either
   unless they act through a delegation.
   */
  predicate MayUseTool(p: Principal, d: Definition, c: Option<Classification>, granted: Access) {
    var required := if c.Some? && c.value.effective == Read then Read else Write;
    var extra := Strip(d.metadata.requiredControl);
    && MayUse(p, required)
    && (IsReviewed(c) || (Administers(p) && p.authType != OAuth && p.delegatedScopes == None))
    && (Administers(p) || Reaches(granted, required))
    && (extra == "" || ((Administers(p) || extra in p.permissions) && Holds(p, {"*", extra})))
  }

  /** Which calls are allowed, requirement by requirement. */
  ghost predicate MayCall(g: Gate, p: Principal, d: Definition, c: Option<Classification>, granted: Access) {
    CredentialOpens(g, p, d, c) && FamilyAllows(g, p, d, c, granted)
  }

  predicate FamilyAllows(g: Gate, p: Principal, d: Definition, c: Option<Classification>, granted: Access) {
    match FamilyOf(g, d)
    case Management => MayManage(g, p, d)
    case Groups => MayGroup(g, p, d)
    case Review => MayReview(p, d)
    case Ordinary => MayUseTool(p, d, c, granted)
  }

  lemma FirstPolicyIs(policies: seq<ServerPolicy>, server: string, k: nat)
    requires k <= |policies| && forall j :: 0 <= j < k ==> policies[j].server != server
    requires k < |policies| ==> policies[k].server == server
    ensures FirstPolicy(policies, server) == if k < |policies| then Some(policies[k]) else None
  {
    if 0 < k {
      FirstPolicyIs(policies[1..], server, k - 1);
    }
  }

  /** The limits of a credential are its scopes and its delegated scopes. */
  lemma EveryLimit(p: Principal, any: set<string>)
    ensures (forall limit :: limit in ScopeLimits(p) ==> limit * any != {}) <==> Holds(p, any)
  {
    assert p.authType == Token || p.authType == OAuth ==> ScopeLimits(p)[0] == p.scopes;
    assert p.delegatedScopes.Some? ==> ScopeLimits(p)[|ScopeLimits(p)| - 1] == p.delegatedScopes.value;
  }

  lemma ScopesHold(p: Principal)
    ensures ScopeAllows(p, Read) <==> Holds(p, {"*", "tools.read", "mcp.read", "mcp.write"})
    ensures ScopeAllows(p, Write) <==> Holds(p, {"*", "tools.invoke", "mcp.write"})
  {
    var read, write := {"*", "tools.read", "mcp.read", "mcp.write"}, {"*", "tools.invoke", "mcp.write"};
    forall limit: set<string>
      ensures "*" in limit || limit * AcceptedScopes(Read) != {} <==> limit * read != {}
      ensures "*" in limit || limit * AcceptedScopes(Write) != {} <==> limit * write != {}
    {
      assert limit * read == limit * {"*"} + limit * AcceptedScopes(Read);
      assert limit * write == limit * {"*"} + limit * AcceptedScopes(Write);
      assert "*" in limit <==> "*" in limit * {"*"};
    }
    EveryLimit(p, read);
    EveryLimit(p, write);
  }

  lemma HoldsOne(p: Principal, permission: string)
    ensures HasControl(p, permission) <==>
      (Administers(p) || permission in p.permissions) && Holds(p, {"*", permission})
  {
    forall limit: set<string> ensures "*" in limit || permission in limit <==> limit * {"*", permission} != {} {
      assert "*" in limit ==> "*" in limit * {"*", permission};
      assert permission in limit ==> permission in limit * {"*", permission};
    }
    EveryLimit(p, {"*", permission});
  }

  lemma TokenPolicyIs(g: Gate, p: Principal, d: Definition, c: Option<Classification>)
    ensures TokenPolicyAllows(g, p, d, c) <==> IsReviewed(c) && TokenOpens(g, p, d, c.value.effective, c.value)
  {
    var policies, server := p.serverPolicies, ServerId(d);
    var k := 0;
    while k < |policies| && policies[k].server != server
      invariant k <= |policies| && forall j :: 0 <= j < k ==> policies[j].server != server
    {
      k := k + 1;
    }
    FirstPolicyIs(policies, server, k);
    var named := set i | 0 <= i < |policies| && policies[i].server == server;
    if k < |policies| {
      assert k in named && forall j :: j in named ==> k <= j;
    } else {
      assert named == {};
    }
  }

  lemma CredentialGate(g: Gate, p: Principal, d: Definition, c: Option<Classification>)
    ensures CredentialOpens(g, p, d, c) <==>
      && (IndependentToken(p) && d.source == "mcp" ==> TokenPolicyAllows(g, p, d, c))
      && (p.authType == OAuth ==> ExternalGrantAllows(g, p, d, c))
  {
    TokenPolicyIs(g, p, d, c);
  }

  lemma ManagementTools(g: Gate, p: Principal, d: Definition)
    ensures TokenOnlyAllows(g, p, d) <==> MayManage(g, p, d)
  {
    forall x: string
      ensures HasControl(p, x) <==> (Administers(p) || x in p.permissions) && Holds(p, {"*", x})
    {
      HoldsOne(p, x);
    }
  }

  lemma GroupTools(g: Gate, p: Principal, d: Definition)
    ensures GroupAllows(g, p, d) <==> MayGroup(g, p, d)
  {
    ScopesHold(p);
    HoldsOne(p, "operations.manage");
    HoldsOne(p, "tools.invoke");
    InvokeIsWrite(p);
  }

  lemma InvokeIsWrite(p: Principal)
    ensures Holds(p, {"*", "tools.invoke"}) ==> Holds(p, {"*", "tools.invoke", "mcp.write"})
  {
    forall limit: set<string> | limit * {"*", "tools.invoke"} != {}
      ensures limit * {"*", "tools.invoke", "mcp.write"} != {}
    {
      var x :| x in limit * {"*", "tools.invoke"};
      assert x in limit * {"*", "tools.invoke", "mcp.write"};
    }
  }

  lemma ReviewTools(p: Principal, d: Definition)
    ensures MayReview(p, d) <==>
      HasControl(p, "classifications.manage") && ScopeAllows(p, if "read" <= d.permission then Read else Write)
  {
    ScopesHold(p);
    HoldsOne(p, "classifications.manage");
  }

  lemma OrdinaryTools(p: Principal, d: Definition, c: Option<Classification>, granted: Access)
    ensures MayUseTool(p, d, c, granted) <==>
      var required := if c.Some? && Decided(c.value.effective) then c.value.effective else Write;
      && ControlAllows(p, ToolPermission(required)) && ScopeAllows(p, required) && ExtraControl(p, d)
      && (IsPublished(c) || (IsAdmin(p) && p.authType != OAuth && p.delegatedScopes.None?))
      && (IsAdmin(p) || Rank(granted) >= Rank(required))
  {
    ScopesHold(p);
    HoldsOne(p, Strip(d.metadata.requiredControl));
  }

  lemma PolicyIsFamily(g: Gate, p: Principal, d: Definition, c: Option<Classification>, granted: Access)
    ensures PolicyAllows(g, p, d, c, granted) <==> FamilyAllows(g, p, d, c, granted)
  {
    match FamilyOf(g, d)
    case Management => ManagementTools(g, p, d);
    case Groups => GroupTools(g, p, d);
    case Review => ReviewTools(p, d);
    case Ordinary => OrdinaryTools(p, d, c, granted);
  }

  /** The evaluator's order of checks decides exactly by these requirements; the management resource is apart. */
  lemma EvaluateIsMayCall(g: Gate, p: Principal, d: Definition, c: Option<Classification>, granted: Access)
    requires !(p.authType == OAuth && p.oauthBuiltin && ManagementResource(p))
    ensures Evaluate(g, p, d, c, granted) <==> MayCall(g, p, d, c, granted)
  {
    CredentialGate(g, p, d, c);
    PolicyIsFamily(g, p, d, c, granted);
  }

  /**
   The management resource: switched on and addressed to this gate, an administrator's unexpired
   grant that lists the tool as it was frozen, and every permission that the tool needs in the
   scopes, the delegated scopes and the account alike.
   */
  lemma ManagementCall(g: Gate, p: Principal, d: Definition, c: Option<Classification>, granted: Access)
    requires p.authType == OAuth && p.oauthBuiltin && ManagementResource(p)
    ensures Evaluate(g, p, d, c, granted) <==>
      && g.managementEnabled && g.oauthConfig.enabled && p.oauthIssuer == g.oauthConfig.issuer
      && p.oauthResource == g.managementResource(g.oauthConfig.resource)
      && "admin" in p.roles && p.delegatedScopes.Some?
      && NeededToManage(g, d) <= p.permissions * p.scopes * p.delegatedScopes.value
      && p.externalGrantId != "" && p.oauthFamilyId != "" && p.oauthClientId != ""
      && p.externalExpiresAt.At? && g.now < p.externalExpiresAt.instant
      && d.source == "builtin" && d.id in g.managementTools && d.id in p.externalToolIds
      && ServerId(d) == (if d.id in g.credentialTools then "gate_credentials" else "gate_mcp_configuration")
      && d.id in p.oauthToolSnapshots && g.managementSnapshot(d) == p.oauthToolSnapshots[d.id]
  {
    var needed := NeededToManage(g, d);
    if p.delegatedScopes.Some? {
      var all := p.permissions * p.scopes * p.delegatedScopes.value;
      assert all == p.scopes * p.delegatedScopes.value * p.permissions;
      assert needed <= all <==> (ManagementPermissions(g, d.id) <= all && "operations.manage" in all
                                 && (d.id in g.managementReadTools || "tools.invoke" in all));
    }
  }

  function NeededToManage(g: Gate, d: Definition): set<string> {
    {"operations.manage"}
    + (if d.id in g.credentialTools then {"credentials.manage.system"} else {})
    + (if d.id in g.managementReadTools then {} else {"tools.invoke"})
  }

  /** A plain user's session may call an MCP tool exactly when it is published, permitted and granted. */
  lemma SessionCalls(g: Gate, p: Principal, d: Definition, c: Option<Classification>, granted: Access)
    requires RuntimeDefinition(d) && p.authType == Session && p.delegatedScopes == None
    requires p.role != "admin" && "admin" !in p.roles
    ensures Evaluate(g, p, d, c, granted) <==>
      || (c == Some(Classification(Published, Read)) && (granted == Read || granted == Write)
          && ("tools.read" in p.permissions || "*" in p.permissions))
      || (c == Some(Classification(Published, Write)) && granted == Write
          && ("tools.invoke" in p.permissions || "*" in p.permissions))
  {
    RuntimeIsOrdinary(g, d);
    EvaluateIsMayCall(g, p, d, c, granted);
  }

  lemma RuntimeIsOrdinary(g: Gate, d: Definition)
    requires RuntimeDefinition(d)
    ensures FamilyOf(g, d) == Ordinary && Strip(d.metadata.requiredControl) == ""
  {
    assert "mcp"[0] != "builtin"[0];
  }

  /** No credential calls a writing MCP tool unless each of its scope lists opens writing, and its account may write. */
  lemma WritesNeedScopes(g: Gate, p: Principal, d: Definition, granted: Access, limit: set<string>)
    requires RuntimeDefinition(d) && Evaluate(g, p, d, Some(Classification(Published, Write)), granted)
    ensures p.role == "admin" || "admin" in p.roles || "*" in p.permissions || "tools.invoke" in p.permissions
    ensures (p.authType in {Token, OAuth} && limit == p.scopes) || p.delegatedScopes == Some(limit) ==>
      "*" in limit || "tools.invoke" in limit || "mcp.write" in limit
  {
    RuntimeIsOrdinary(g, d);
    assert "mcp"[0] != "builtin"[0];
    EvaluateIsMayCall(g, p, d, Some(Classification(Published, Write)), granted);
    if limit * {"*", "tools.invoke", "mcp.write"} != {} {
      var x :| x in limit * {"*", "tools.invoke", "mcp.write"};
    }
  }

  // ---------------------------------------------------------------------------
  // Ceilings: a credential never exceeds the account behind it
  // ---------------------------------------------------------------------------

  /** The plain browser session of the same account. */
  function SessionOf(p: Principal): Principal {
    p.(authType := Session, scopes := {}, delegatedScopes := None, independent := false)
  }

  lemma SessionDecision(g: Gate, p: Principal, d: Definition, c: Option<Classification>, granted: Access)
    ensures Evaluate(g, SessionOf(p), d, c, granted) == PolicyAllows(g, SessionOf(p), d, c, granted)
    ensures TokenOnlyTool(g, d) ==> !PolicyAllows(g, SessionOf(p), d, c, granted)
  {
  }

  lemma PolicyWithinAccount(g: Gate, p: Principal, d: Definition, c: Option<Classification>, granted: Access)
    requires PolicyAllows(g, p, d, c, granted) && !TokenOnlyTool(g, d)
    ensures PolicyAllows(g, SessionOf(p), d, c, granted)
  {
  }

  lemma AdminSessionAllowed(g: Gate, p: Principal, d: Definition, c: Option<Classification>, granted: Access)
    requires ManagementGrantAllows(g, p, d)
    ensures Evaluate(g, SessionOf(p), d, c, granted) <==> !TokenOnlyTool(g, d)
  {
  }

  /**
   Whatever any credential may call, a plain session of its account may call, with the
   administrator tools that answer only to API tokens as the one exception.
   */
  lemma CredentialWithinAccount(g: Gate, p: Principal, d: Definition, c: Option<Classification>, granted: Access)
    requires Evaluate(g, p, d, c, granted)
    ensures Evaluate(g, SessionOf(p), d, c, granted) <==> !TokenOnlyTool(g, d)
    ensures d.source == "mcp" ==> Evaluate(g, SessionOf(p), d, c, granted)
  {
    SessionDecision(g, p, d, c, granted);
    assert d.source == "mcp" ==> !TokenOnlyTool(g, d) by { assert "mcp"[0] != "builtin"[0]; }
    if p.authType == OAuth && p.oauthBuiltin && ManagementResource(p) {
      AdminSessionAllowed(g, p, d, c, granted);
    } else if !TokenOnlyTool(g, d) {
      PolicyWithinAccount(g, p, d, c, granted);
    }
  }

  /** An OAuth grant never reaches beyond its explicit lists. */
  lemma OAuthWithinGrant(g: Gate, p: Principal, d: Definition, c: Option<Classification>, granted: Access)
    requires p.authType == OAuth && d.source == "mcp"
    requires Evaluate(g, p, d, c, granted)
    ensures p.externalGrantId != "" && p.externalExpiresAt != Never && !Expired(p.externalExpiresAt, g.now)
    ensures ServerId(d) in p.externalServerIds && d.id in p.externalToolIds
    ensures (if c.Some? then c.value.effective else Unknown) in p.externalAccess
    ensures ReviewTool(d) || IsPublished(c)
  {
  }

  /** What the grant demands of a tool whatever its classification is. */
  predicate ListedByGrant(g: Gate, p: Principal, d: Definition) {
    && p.externalGrantId != ""
    && ServerId(d) in p.externalServerIds && d.id in p.externalToolIds
    && p.externalExpiresAt != Never && !Expired(p.externalExpiresAt, g.now)
  }

  /**
   For any definition at all, an OAuth call to an unpublished MCP tool is possible exactly when the
   definition carries the mark of the classification control plane, in the hands of an account and
   grant that may manage classifications.
   */
  lemma UnpublishedOAuthCall(g: Gate, p: Principal, d: Definition, granted: Access)
    requires p.authType == OAuth && d.source == "mcp"
    ensures (exists c: Option<Classification> :: !IsPublished(c) && Evaluate(g, p, d, c, granted))
            <==>
            && !(p.oauthBuiltin && ManagementResource(p))
            && ListedByGrant(g, p, d) && p.externalAccess != {}
            && ReviewTool(d) && HasControl(p, "classifications.manage")
            && ScopeAllows(p, if "read" <= d.permission then Read else Write)
  {
    if && !(p.oauthBuiltin && ManagementResource(p))
       && ListedByGrant(g, p, d) && p.externalAccess != {}
       && ReviewTool(d) && HasControl(p, "classifications.manage")
       && ScopeAllows(p, if "read" <= d.permission then Read else Write)
    {
      var access :| access in p.externalAccess;
      var c := Some(Classification(Pending, access));
      assert !IsPublished(c) && Evaluate(g, p, d, c, granted);
    }
  }

  /** One such call: the mark alone opens an unpublished MCP tool to the evaluator. */
  lemma UnpublishedOAuthWitness() returns (g: Gate, p: Principal, d: Definition, c: Option<Classification>)
    ensures p.authType == OAuth && d.source == "mcp" && d.metadata.classificationControlPlane
    ensures !IsPublished(c) && Evaluate(g, p, d, c, NoAccess)
  {
    g := Gate(0, {}, {}, {}, {}, {}, OAuthConfig(false, "", ""), false, x => x, d => "", x => None, (d, c) => None,
      x => Metadata("", "", false, false));
    p := Principal("u", "admin", {"admin"}, {}, OAuth, {"*"}, None, false, [], map[], map[],
      "grant", {"s"}, {"t"}, {Read}, At(1), false, "", "", "", "", map[]);
    d := Definition("t", "mcp", "read", Metadata("s", "classifications.manage", true, false));
    c := Some(Classification(Pending, Read));
    assert Strip("s") == "s" && Strip("classifications.manage") == "classifications.manage";
    assert "mcp"[0] != "builtin"[0];
  }

  // ---------------------------------------------------------------------------
  // Definitions as the runtime builds them
  // ---------------------------------------------------------------------------

  predicate IsIdCharacter(c: char) {
    'a' <= c <= 'z' || 'A' <= c <= 'Z' || '0' <= c <= '9' || c == '_' || c == '.' || c == '-'
  }

  /** The server ids that a manifest may have. */
  predicate ManifestId(id: string) {
    id != "" && forall i :: 0 <= i < |id| ==> IsIdCharacter(id[i])
  }

  /** An MCP tool: a server id from a manifest, and no control metadata of its own. */
  predicate RuntimeDefinition(d: Definition) {
    d.source == "mcp" && ManifestId(d.metadata.serverId)
    && d.metadata.requiredControl == "" && !d.metadata.classificationControlPlane && !d.metadata.groupControlPlane
  }

  lemma ManifestIdIsStripped(id: string)
    requires ManifestId(id)
    ensures Strip(id) == id
  {
    assert IsIdCharacter(id[0]) && IsIdCharacter(id[|id| - 1]);
  }

  /**
   For the definitions of MCP tools that the runtime builds, an OAuth allow implies a published read
   or write classification besides the grant's explicit lists, and the lists are about the server
   id as the manifest spells it.
   */
  lemma RuntimeOAuthIsPublished(g: Gate, p: Principal, d: Definition, c: Option<Classification>, granted: Access)
    requires p.authType == OAuth && RuntimeDefinition(d) && Evaluate(g, p, d, c, granted)
    ensures IsPublished(c) && c.value.effective in p.externalAccess
    ensures d.metadata.serverId in p.externalServerIds && d.id in p.externalToolIds
    ensures Evaluate(g, SessionOf(p), d, c, granted)
  {
    ManifestIdIsStripped(d.metadata.serverId);
    assert "mcp"[0] != "builtin"[0];
    CredentialWithinAccount(g, p, d, c, granted);
  }

  // ---------------------------------------------------------------------------
  // Giving more never takes anything away
  // ---------------------------------------------------------------------------

  /** The same credential with at least the same permissions, scopes and delegated scopes. */
  predicate Widens(p: Principal, q: Principal) {
    && q == p.(permissions := q.permissions, scopes := q.scopes, delegatedScopes := q.delegatedScopes)
    && p.permissions <= q.permissions
    && p.scopes <= q.scopes
    && (p.delegatedScopes.None? <==> q.delegatedScopes.None?)
    && (p.delegatedScopes.Some? ==> p.delegatedScopes.value <= q.delegatedScopes.value)
  }

  lemma ControlWidens(p: Principal, q: Principal, permission: string)
    requires Widens(p, q)
    ensures HasControl(p, permission) ==> HasControl(q, permission)
    ensures ControlAllows(p, permission) ==> ControlAllows(q, permission)
  {
  }

  lemma ScopeWidens(p: Principal, q: Principal, required: Access)
    requires Widens(p, q) && ScopeAllows(p, required)
    ensures ScopeAllows(q, required)
  {
  }

  lemma PolicyWidens(g: Gate, p: Principal, q: Principal, d: Definition, c: Option<Classification>, a: Access,
                     b: Access)
    requires Widens(p, q) && Rank(a) <= Rank(b) && PolicyAllows(g, p, d, c, a)
    ensures PolicyAllows(g, q, d, c, b)
  {
    forall permission ensures HasControl(p, permission) ==> HasControl(q, permission)
      ensures ControlAllows(p, permission) ==> ControlAllows(q, permission)
    {
      ControlWidens(p, q, permission);
    }
    forall required: Access | ScopeAllows(p, required) ensures ScopeAllows(q, required) {
      ScopeWidens(p, q, required);
    }
  }

  /** More permissions, wider scopes or a higher grant never turn an allow into a denial. */
  lemma EvaluateIsMonotone(g: Gate, p: Principal, q: Principal, d: Definition, c: Option<Classification>, a: Access,
                           b: Access)
    requires Widens(p, q) && Rank(a) <= Rank(b) && Evaluate(g, p, d, c, a)
    ensures Evaluate(g, q, d, c, b)
  {
    if !(p.authType == OAuth && p.oauthBuiltin && ManagementResource(p)) {
      PolicyWidens(g, p, q, d, c, a, b);
    }
  }
}
