/**
 API token scopes: what a caller may ask for, why tokens minted or rescoped one from another
 never gain a control permission or tool scope the first of them lacked, and what that means for
 the tools they may call.
 */
module TokenScopes {
  import opened Common
  import opened AccessPolicy

  datatype Result<+T> = Ok(value: T) | Err(error: ScopeError)

  datatype ScopeError = NoScope | ScopeExceedsPermissions | TokenNotFound | TokenRevoked | TokenExpired

  /** Scopes are compared after stripping; blank entries are dropped. */
  function Cleaned(scopes: seq<string>): set<string> {
    set s | s in scopes && Strip(s) != "" :: Strip(s)
  }

  /** What the account itself may hand out. */
  function AccountScopes(p: Principal): set<string> {
    p.permissions + if p.role == "admin" || "admin" in p.roles then {"*"} else {}
  }

  /**
   A scope may be requested if every limit on the caller admits it, and the account holds it;
   an account with the wildcard holds whatever a proper limit lists.
   */
  predicate MayRequest(p: Principal, scope: string) {
    && (forall limit :: limit in ScopeLimits(p) ==> "*" in limit || scope in limit)
    && (|| scope in AccountScopes(p)
        || ("*" in AccountScopes(p) && exists limit :: limit in ScopeLimits(p) && "*" !in limit))
  }

  function NormalizedScopes(p: Principal, scopes: seq<string>, allowDefault: bool): Result<set<string>> {
    var requested := if Cleaned(scopes) == {} && allowDefault then {"tools.read"} else Cleaned(scopes);
    if requested == {} then Err(NoScope)
    else if forall s :: s in requested ==> MayRequest(p, s) then Ok(requested)
    else Err(ScopeExceedsPermissions)
  }

  /** Narrow the account's scopes by one limit after another, as the store does. */
  method NarrowScopes(p: Principal) returns (allowed: set<string>)
    ensures forall s :: s in allowed <==> MayRequest(p, s)
  {
    allowed := AccountScopes(p);
    var limits := ScopeLimits(p);
    for i := 0 to |limits|
      invariant forall s :: s in allowed <==>
        && (forall j :: 0 <= j < i ==> "*" in limits[j] || s in limits[j])
        && (|| s in AccountScopes(p)
            || ("*" in AccountScopes(p) && exists j :: 0 <= j < i && "*" !in limits[j]))
    {
      var limit := limits[i];
      if "*" !in limit {
        if "*" in allowed {
          assert forall j :: 0 <= j < i ==> "*" in limits[j];
          allowed := limit;
        } else {
          assert "*" in AccountScopes(p) ==> exists j :: 0 <= j < i && "*" !in limits[j];
          allowed := allowed * limit;
        }
      }
    }
  }

  method Normalize(p: Principal, scopes: seq<string>, allowDefault: bool) returns (result: Result<set<string>>)
    ensures result == NormalizedScopes(p, scopes, allowDefault)
  {
    var requested := Cleaned(scopes);
    if requested == {} {
      if !allowDefault {
        return Err(NoScope);
      }
      requested := {"tools.read"};
    }
    var allowed := NarrowScopes(p);
    if requested - allowed != {} {
      return Err(ScopeExceedsPermissions);
    }
    assert forall s :: s in requested ==> s !in requested - allowed;
    return Ok(requested);
  }

  // ---------------------------------------------------------------------------
  // The token store
  // ---------------------------------------------------------------------------

  /** The stored authorization of a token: its mode, its server policies and its frozen tools. */
  datatype TokenPolicy = TokenPolicy(
    independent: bool,
    servers: seq<ServerPolicy>,
    snapshots: map<string, string>,
    bindings: map<string, string>)

  /** A token without a stored authorization is in account mode. */
  datatype TokenRow = TokenRow(
    userId: string,
    scopes: set<string>,
    revoked: bool,
    expiresAt: Expiry,
    policy: Option<TokenPolicy>)

  type Tokens = map<string, TokenRow>

  function Rescoped(tokens: Tokens, p: Principal, now: int, token: string, scopes: seq<string>): Result<Tokens> {
    if token !in tokens || tokens[token].userId != p.id then Err(TokenNotFound)
    else if tokens[token].revoked then Err(TokenRevoked)
    else if Expired(tokens[token].expiresAt, now) then Err(TokenExpired)
    else match NormalizedScopes(p, scopes, false)
      case Ok(granted) => Ok(tokens[token := tokens[token].(scopes := granted)])
      case Err(e) => Err(e)
  }

  function Minted(tokens: Tokens, p: Principal, token: string, scopes: seq<string>, expiresAt: Expiry): Result<Tokens> {
    match NormalizedScopes(p, scopes, true)
    case Ok(granted) => Ok(tokens[token := TokenRow(p.id, granted, false, expiresAt, None)])
    case Err(e) => Err(e)
  }

  class AuthStore {
    var tokens: Tokens

    /** `token` is the fresh identifier drawn for the new row. */
    method CreateApiToken(p: Principal, token: string, scopes: seq<string>, expiresAt: Expiry)
        returns (result: Result<()>)
      requires token !in tokens
      modifies this
      ensures match Minted(old(tokens), p, token, scopes, expiresAt)
              case Ok(after) => result == Ok(()) && tokens == after
              case Err(e) => result == Err(e) && tokens == old(tokens)
    {
      var granted := Normalize(p, scopes, true);
      if granted.Err? {
        return Err(granted.error);
      }
      tokens := tokens[token := TokenRow(p.id, granted.value, false, expiresAt, None)];
      return Ok(());
    }

    method UpdateApiTokenScopes(p: Principal, now: int, token: string, scopes: seq<string>) returns (result: Result<()>)
      modifies this
      ensures match Rescoped(old(tokens), p, now, token, scopes)
              case Ok(after) => result == Ok(()) && tokens == after
              case Err(e) => result == Err(e) && tokens == old(tokens)
    {
      if token !in tokens || tokens[token].userId != p.id {
        return Err(TokenNotFound);
      }
      if tokens[token].revoked {
        return Err(TokenRevoked);
      }
      if Expired(tokens[token].expiresAt, now) {
        return Err(TokenExpired);
      }
      var granted := Normalize(p, scopes, false);
      if granted.Err? {
        return Err(granted.error);
      }
      tokens := tokens[token := tokens[token].(scopes := granted.value)];
      return Ok(());
    }
  }

  // ---------------------------------------------------------------------------
  // What a request needs, and what it leaves
  // ---------------------------------------------------------------------------

  /** A scope list of the credential that is not the wildcard. */
  predicate Narrows(p: Principal, limit: set<string>) {
    && "*" !in limit
    && (((p.authType == Token || p.authType == OAuth) && limit == p.scopes) || p.delegatedScopes == Some(limit))
  }

  /**
   What may be requested. Without a narrowing scope list: the permissions of the account, and the
   wildcard for administrators. With one: what all of them list and the account holds, where an
   administrator or the wildcard permission holds everything.
   */
  lemma RequestableExactly(p: Principal, scope: string)
    ensures MayRequest(p, scope) <==>
      if forall limit :: !Narrows(p, limit) then scope in p.permissions || (scope == "*" && Administers(p))
      else
        && (forall limit :: Narrows(p, limit) ==> scope in limit)
        && (scope in p.permissions || "*" in p.permissions || Administers(p))
  {
    assert forall limit :: limit in ScopeLimits(p) && "*" !in limit <==> Narrows(p, limit) by {
      assert p.authType == Token || p.authType == OAuth ==> ScopeLimits(p)[0] == p.scopes;
      assert p.delegatedScopes.Some? ==> ScopeLimits(p)[|ScopeLimits(p)| - 1] == p.delegatedScopes.value;
    }
  }

  /** The scopes asked for, without white space and blanks; `tools.read` if none is and a default is allowed. */
  predicate AsksFor(scopes: seq<string>, allowDefault: bool, scope: string) {
    || (scope != "" && exists i :: 0 <= i < |scopes| && Strip(scopes[i]) == scope)
    || (allowDefault && scope == "tools.read" && forall i :: 0 <= i < |scopes| ==> Strip(scopes[i]) == "")
  }

  lemma AskedScopes(p: Principal, scopes: seq<string>, allowDefault: bool)
    ensures var r := NormalizedScopes(p, scopes, allowDefault);
      && (r == Err(NoScope) <==> !allowDefault && forall i :: 0 <= i < |scopes| ==> Strip(scopes[i]) == "")
      && (r.Ok? <==> r != Err(NoScope) && forall s :: AsksFor(scopes, allowDefault, s) ==> MayRequest(p, s))
      && (r.Ok? ==> forall s :: s in r.value <==> AsksFor(scopes, allowDefault, s))
      && (r.Err? ==> r.error in {NoScope, ScopeExceedsPermissions})
  {
    var requested := Cleaned(scopes);
    assert forall s :: s in requested <==> s != "" && exists i :: 0 <= i < |scopes| && Strip(scopes[i]) == s;
    assert requested == {} <==> forall i :: 0 <= i < |scopes| ==> Strip(scopes[i]) == "" by {
      forall i | 0 <= i < |scopes| && Strip(scopes[i]) != "" ensures Strip(scopes[i]) in requested {
      }
    }
  }

  /** Rescoping: accepted for an own token that is neither revoked nor expired, and nothing but its scopes changes. */
  lemma RescopeOutcome(tokens: Tokens, p: Principal, now: int, token: string, scopes: seq<string>)
    ensures var r, asked := Rescoped(tokens, p, now, token, scopes), NormalizedScopes(p, scopes, false);
      && (r.Ok? <==> && token in tokens && tokens[token].userId == p.id && !tokens[token].revoked
                     && (tokens[token].expiresAt == Never || Lasts(tokens[token].expiresAt, now)) && asked.Ok?)
      && (r.Ok? ==>
            && r.value.Keys == tokens.Keys && (forall t :: t in tokens && t != token ==> r.value[t] == tokens[t])
            && r.value[token] == TokenRow(p.id, asked.value, false, tokens[token].expiresAt, tokens[token].policy))
      && (r == Err(TokenNotFound) <==> !(token in tokens && tokens[token].userId == p.id))
      && (r == Err(TokenRevoked) ==> tokens[token].revoked)
      && (r == Err(TokenExpired) ==> tokens[token].expiresAt != Never && !Lasts(tokens[token].expiresAt, now))
  {
  }

  predicate Lasts(e: Expiry, now: int) { e.At? && now < e.instant }

  /** Minting: one new, live row of the account, without a stored authorization. */
  lemma MintOutcome(tokens: Tokens, p: Principal, token: string, scopes: seq<string>, expiresAt: Expiry)
    requires token !in tokens
    ensures var r, asked := Minted(tokens, p, token, scopes, expiresAt), NormalizedScopes(p, scopes, true);
      && (r.Ok? <==> asked.Ok?)
      && (r.Ok? ==> && r.value.Keys == tokens.Keys + {token} && (forall t :: t in tokens ==> r.value[t] == tokens[t])
                    && r.value[token].userId == p.id && r.value[token].scopes == asked.value
                    && !r.value[token].revoked && r.value[token].expiresAt == expiresAt
                    && r.value[token].policy == None)
  {
  }

  // ---------------------------------------------------------------------------
  // No escalation
  // ---------------------------------------------------------------------------

  /** The principal an API token of this account authenticates as. */
  function TokenPrincipal(account: Principal, scopes: set<string>, policy: Option<TokenPolicy>): Principal {
    var mode := if policy.Some? then policy.value else TokenPolicy(false, [], map[], map[]);
    account.(authType := Token, scopes := scopes, delegatedScopes := None, independent := mode.independent,
      serverPolicies := mode.servers, toolSnapshots := mode.snapshots, toolBindings := mode.bindings)
  }

  /** A token acts for its account with its own scopes and its stored authorization, and without a delegation. */
  lemma TokenActsAs(account: Principal, scopes: set<string>, policy: Option<TokenPolicy>)
    ensures var p := TokenPrincipal(account, scopes, policy);
      && p.authType == Token && p.scopes == scopes && p.delegatedScopes == None
      && p.id == account.id && p.role == account.role && p.roles == account.roles
      && p.permissions == account.permissions
      && (if policy.None? then !p.independent && p.serverPolicies == [] && p.toolSnapshots == map[] == p.toolBindings
          else p.independent == policy.value.independent && p.serverPolicies == policy.value.servers
               && p.toolSnapshots == policy.value.snapshots && p.toolBindings == policy.value.bindings)
  {
  }

  /** `a` can do nothing through control permissions or tool scopes that `b` cannot. */
  ghost predicate Within(a: Principal, b: Principal) {
    && (forall permission: string :: HasControl(a, permission) ==> HasControl(b, permission))
    && (forall required: Access :: ScopeAllows(a, required) ==> ScopeAllows(b, required))
  }

  /** Whoever mints or rescopes a token, the token stays within its author. */
  lemma GrantedWithinAuthor(p: Principal, scopes: seq<string>, allowDefault: bool)
    requires NormalizedScopes(p, scopes, allowDefault).Ok?
    ensures forall policy :: Within(TokenPrincipal(p, NormalizedScopes(p, scopes, allowDefault).value, policy), p)
  {
    var granted := NormalizedScopes(p, scopes, allowDefault).value;
    forall policy ensures Within(TokenPrincipal(p, granted, policy), p) {
      LimitedIsWithin(p, granted, policy);
    }
  }

  lemma LimitedIsWithin(p: Principal, granted: set<string>, policy: Option<TokenPolicy>)
    requires forall s :: s in granted ==> MayRequest(p, s)
    ensures Within(TokenPrincipal(p, granted, policy), p)
  {
    var t := TokenPrincipal(p, granted, policy);
    assert granted in ScopeLimits(t);
    forall limit | limit in ScopeLimits(p) && "*" !in limit
      ensures granted <= limit && "*" !in granted
    {
      forall s | s in granted
        ensures s in limit
      {
        assert MayRequest(p, s);
      }
    }
    forall required: Access | ScopeAllows(t, required)
      ensures ScopeAllows(p, required)
    {
      forall limit | limit in ScopeLimits(p) && "*" !in limit
        ensures limit * AcceptedScopes(required) != {}
      {
        var s :| s in granted * AcceptedScopes(required);
        assert s in limit * AcceptedScopes(required);
      }
    }
  }

  /** Two tokens of one account. */
  predicate SameAccount(a: Principal, b: Principal) {
    && a.authType == Token && a.delegatedScopes.None?
    && b == a.(scopes := b.scopes, independent := b.independent, serverPolicies := b.serverPolicies,
                toolSnapshots := b.toolSnapshots, toolBindings := b.toolBindings)
  }

  /**
   Control permissions and tool scopes carry over to the tools a token may call, with one exception:
   an independent token is also bound by its own policy for MCP tools, and another is not.
   */
  lemma EvaluateWithin(g: Gate, a: Principal, b: Principal, d: Definition, c: Option<Classification>, granted: Access)
    requires SameAccount(a, b) && Within(a, b) && Evaluate(g, a, d, c, granted)
    ensures Evaluate(g, b, d, c, granted) <==>
      !b.independent || d.source != "mcp" || TokenPolicyAllows(g, b, d, c)
  {
    PolicyWithin(g, a, b, d, c, granted);
  }

  lemma PolicyWithin(g: Gate, a: Principal, b: Principal, d: Definition, c: Option<Classification>, granted: Access)
    requires SameAccount(a, b) && Within(a, b) && PolicyAllows(g, a, d, c, granted)
    ensures PolicyAllows(g, b, d, c, granted)
  {
    if !TokenOnlyTool(g, d) && !GroupTool(d) && !ReviewTool(d) {
      GenericWithin(g, a, b, d, c, granted);
    }
  }

  lemma GenericWithin(g: Gate, a: Principal, b: Principal, d: Definition, c: Option<Classification>, granted: Access)
    requires SameAccount(a, b) && Within(a, b) && PolicyAllows(g, a, d, c, granted)
    requires !TokenOnlyTool(g, d) && !GroupTool(d) && !ReviewTool(d)
    ensures PolicyAllows(g, b, d, c, granted)
  {
    var required := if c.Some? && Decided(c.value.effective) then c.value.effective else Write;
    assert ScopeAllows(a, required) && ScopeAllows(b, required);
    assert ExtraControl(a, d) && ExtraControl(b, d);
  }

  /** The exception is real: an independent token without policies mints one that may call more. */
  lemma MintedLeavesPolicy() returns (g: Gate, author: Principal, minted: Principal, d: Definition, c: Classification)
    ensures author.authType == Token && author.independent && d.source == "mcp"
    ensures NormalizedScopes(author, ["tools.read"], true) == Ok({"tools.read"})
    ensures minted == TokenPrincipal(author, {"tools.read"}, None)
    ensures Evaluate(g, minted, d, Some(c), Read) && !Evaluate(g, author, d, Some(c), Read)
  {
    g := Gate(0, {}, {}, {}, {}, {}, OAuthConfig(false, "", ""), false, x => x, d => "", x => None, (d, c) => None,
      x => Metadata("", "", false, false));
    author := Principal("u", "user", {"user"}, {"tools.read"}, Token, {"tools.read"}, None, true, [], map[], map[],
      "", {}, {}, {}, Never, false, "", "", "", "", map[]);
    minted := TokenPrincipal(author, {"tools.read"}, None);
    d, c := Definition("t", "mcp", "read", Metadata("s", "", false, false)), Classification(Published, Read);
    assert Strip("s") == "s" && "mcp"[0] != "builtin"[0] && "user"[0] != "admin"[0];
    ReadScopeIsClean();
  }

  lemma ReadScopeIsClean()
    ensures Cleaned(["tools.read"]) == {"tools.read"}
  {
    var scope := "tools.read";
    assert Strip(scope) == scope;
    assert scope in ["tools.read"];
  }

  /** One request to the store, made with a token as the credential. */
  datatype Request =
    | Mint(actor: string, token: string, scopes: seq<string>, expiresAt: Expiry)
    | Rescope(actor: string, token: string, scopes: seq<string>, now: int)

  /** The store, and the tokens whose secrets or scopes came out of the run so far. */
  datatype World = World(tokens: Tokens, held: set<string>)

  function ActorOf(account: Principal, tokens: Tokens, actor: string): Principal
    requires actor in tokens
  {
    TokenPrincipal(account, tokens[actor].scopes, tokens[actor].policy)
  }

  /** A request counts only if its actor is a token the holder has; otherwise nothing changes. */
  function Step(account: Principal, w: World, r: Request): World {
    if r.actor !in w.held || r.actor !in w.tokens || (r.Mint? && r.token in w.tokens) then w
    else
      var actor := ActorOf(account, w.tokens, r.actor);
      var after := match r
        case Mint(_, token, scopes, expiresAt) => Minted(w.tokens, actor, token, scopes, expiresAt)
        case Rescope(_, token, scopes, now) => Rescoped(w.tokens, actor, now, token, scopes);
      if after.Ok? then World(after.value, w.held + {r.token}) else w
  }

  function Run(account: Principal, w: World, requests: seq<Request>): World {
    if requests == [] then w else Step(account, Run(account, w, requests[..|requests| - 1]), requests[|requests| - 1])
  }

  /** The steps of a run are calls of the store by tokens that the holder has. */
  method Play(store: AuthStore, account: Principal, held: set<string>, requests: seq<Request>)
      returns (after: set<string>)
    modifies store
    ensures World(store.tokens, after) == Run(account, World(old(store.tokens), held), requests)
  {
    after := held;
    for i := 0 to |requests|
      invariant World(store.tokens, after) == Run(account, World(old(store.tokens), held), requests[..i])
    {
      assert requests[..i + 1][..i] == requests[..i];
      after := PlayOne(store, account, after, requests[i]);
    }
    assert requests[..|requests|] == requests;
  }

  method PlayOne(store: AuthStore, account: Principal, held: set<string>, r: Request) returns (after: set<string>)
    modifies store
    ensures World(store.tokens, after) == Step(account, World(old(store.tokens), held), r)
  {
    if r.actor !in held || r.actor !in store.tokens {
      return held;
    }
    var actor := ActorOf(account, store.tokens, r.actor);
    var result: Result<()>;
    match r {
      case Mint(_, token, scopes, expiresAt) =>
        if token in store.tokens {
          return held;
        }
        result := store.CreateApiToken(actor, token, scopes, expiresAt);
      case Rescope(_, token, scopes, now) =>
        result := store.UpdateApiTokenScopes(actor, now, token, scopes);
    }
    after := if result.Ok? then held + {r.token} else held;
  }

  ghost predicate Confined(account: Principal, w: World, bound: Principal) {
    forall t :: t in w.held ==> t in w.tokens && Within(ActorOf(account, w.tokens, t), bound)
  }

  lemma StepConfined(account: Principal, w: World, r: Request, bound: Principal)
    requires Confined(account, w, bound)
    ensures Confined(account, Step(account, w, r), bound)
  {
    var next := Step(account, w, r);
    if next != w {
      var actor := ActorOf(account, w.tokens, r.actor);
      GrantedWithinAuthor(actor, r.scopes, r.Mint?);
      var granted := NormalizedScopes(actor, r.scopes, r.Mint?).value;
      assert next.tokens[r.token].scopes == granted;
      var policy := next.tokens[r.token].policy;
      assert TokenPrincipal(actor, granted, policy) == TokenPrincipal(account, granted, policy);
      assert Within(ActorOf(account, next.tokens, r.token), bound);
    }
  }

  /**
   Whoever starts with one token can only ever mint or rescope tokens whose control permissions and
   tool scopes are within those of that token at the start, whatever other tokens of the account
   the store holds.
   */
  lemma {:induction false} TokensNeverEscalate(account: Principal, tokens: Tokens, first: string,
                                               requests: seq<Request>)
    requires first in tokens
    ensures Confined(account, Run(account, World(tokens, {first}), requests), ActorOf(account, tokens, first))
    decreases |requests|
  {
    if requests != [] {
      var init := requests[..|requests| - 1];
      TokensNeverEscalate(account, tokens, first, init);
      StepConfined(account, Run(account, World(tokens, {first}), init), requests[|requests| - 1],
        ActorOf(account, tokens, first));
    }
  }

  /**
   So no tool becomes callable along a chain that the first token could not call, exactly unless the
   first token is independent, the tool is an MCP tool and the token's own policy refuses it.
   */
  lemma ChainsCallNothingNew(account: Principal, tokens: Tokens, first: string, requests: seq<Request>, t: string,
                             g: Gate, d: Definition, c: Option<Classification>, granted: Access)
    requires first in tokens
    requires var w := Run(account, World(tokens, {first}), requests);
      t in w.held && t in w.tokens && Evaluate(g, ActorOf(account, w.tokens, t), d, c, granted)
    ensures var origin := ActorOf(account, tokens, first);
      Evaluate(g, origin, d, c, granted) <==>
        !origin.independent || d.source != "mcp" || TokenPolicyAllows(g, origin, d, c)
  {
    var w := Run(account, World(tokens, {first}), requests);
    TokensNeverEscalate(account, tokens, first, requests);
    EvaluateWithin(g, ActorOf(account, w.tokens, t), ActorOf(account, tokens, first), d, c, granted);
  }
}
