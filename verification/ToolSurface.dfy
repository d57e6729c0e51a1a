/** Which MCP tools a request is shown and which it may call: two filters that must agree. */
module ToolSurface {
  import opened Options

  type Tool = string
  type Scope = string

  /** The ASGI request state the two gates read; whether a tenant has opted into headless launches is a parameter. */
  datatype Request = Request(authMethod: Option<string>, scopes: set<Scope>, declaredProfile: Option<string>,
                             tenantKey: Option<string>)

  /** What is fixed at boot: the registered tools in order, their scopes, the profiles, and the launch-gate tools. */
  datatype Server = Server(
    registered: seq<Tool>,
    toolScopes: map<Tool, Scope>,
    profiles: map<string, Option<set<Tool>>>,   // None: no restriction
    launchGate: set<Tool>)

  const SCOPE_AGENT := "mcp:agent"
  const PROFILE_ORCHESTRATOR := "orchestrator"
  const PROFILE_STANDARD := "standard"
  const PROFILE_FULL := "full"

  /** The four profiles, the full one unrestricted and the orchestrator one all mapped tools but the launch gate. */
  predicate WellConfigured(server: Server) {
    && PROFILE_FULL in server.profiles && server.profiles[PROFILE_FULL] == None
    && PROFILE_STANDARD in server.profiles && PROFILE_ORCHESTRATOR in server.profiles
    && server.profiles[PROFILE_ORCHESTRATOR] == Some(server.toolScopes.Keys - server.launchGate)
  }

  /** No scope filtering for an API key or outside HTTP. */
  function Scopes(request: Option<Request>): Option<set<Scope>> {
    if request.None? || request.value.authMethod == Some("api_key") then None else Some(request.value.scopes)
  }

  /** The profile's allow-set: declared wins, then the default of the authentication, then nothing at all. */
  function ProfileToolset(server: Server, request: Option<Request>): Option<set<Tool>>
    requires WellConfigured(server)
  {
    if request.None? then None
    else
      var r := request.value;
      if r.declaredProfile.Some? && r.declaredProfile.value in server.profiles
        then server.profiles[r.declaredProfile.value]
      else if r.authMethod == Some("jwt") then
        server.profiles[if SCOPE_AGENT in r.scopes then PROFILE_ORCHESTRATOR else PROFILE_STANDARD]
      else if r.authMethod == Some("api_key") then server.profiles[PROFILE_FULL]
      else Some({})
  }

  /** The human launch fence: a JWT session is blocked unless its tenant opted into headless launches. */
  predicate LaunchGateBlocked(request: Option<Request>, headless: string -> bool) {
    && request.Some? && request.value.authMethod == Some("jwt")
    && (request.value.tenantKey.None? || request.value.tenantKey.value == ""
      || !headless(request.value.tenantKey.value))
  }

  function Filter(tools: seq<Tool>, keep: Tool -> bool): seq<Tool> {
    if tools == [] then [] else (if keep(tools[0]) then [tools[0]] else []) + Filter(tools[1..], keep)
  }

  /** The advertised tools: each filter in turn, the fence only when a gated tool is still there. */
  function ListTools(server: Server, request: Option<Request>, headless: string -> bool): seq<Tool>
    requires WellConfigured(server)
  {
    var profiled := Profiled(server, request);
    if (exists t :: t in profiled && t in server.launchGate) && LaunchGateBlocked(request, headless)
    then Filter(profiled, t => t !in server.launchGate) else profiled
  }

  datatype Dispatch = Refused(reason: Refusal) | Forwarded
  datatype Refusal = Unmapped | OutOfScope | OutOfProfile | LaunchGated

  /** A call: refused at the first gate it fails. A name that is not registered is left to the SDK to refuse. */
  function CallTool(server: Server, request: Option<Request>, headless: string -> bool, name: Tool): Dispatch
    requires WellConfigured(server)
  {
    var scopes := Scopes(request);
    var toolset := ProfileToolset(server, request);
    if name in server.registered && name !in server.toolScopes then Refused(Unmapped)
    else if scopes.Some? && !(name in server.toolScopes && server.toolScopes[name] in scopes.value)
      then Refused(OutOfScope)
    else if toolset.Some? && name !in toolset.value then Refused(OutOfProfile)
    else if name in server.launchGate && LaunchGateBlocked(request, headless) then Refused(LaunchGated)
    else Forwarded
  }

  lemma {:induction false} FilterKeeps(tools: seq<Tool>, keep: Tool -> bool, t: Tool)
    ensures t in Filter(tools, keep) <==> t in tools && keep(t)
    decreases |tools|
  {
    if tools != [] {
      FilterKeeps(tools[1..], keep, t);
    }
  }

  /** The tools in scope, before profile and fence. */
  function Scoped(server: Server, request: Option<Request>): seq<Tool> {
    var mapped := Filter(server.registered, t => t in server.toolScopes);
    var scopes := Scopes(request);
    if scopes.Some? then Filter(mapped, t => t in server.toolScopes && server.toolScopes[t] in scopes.value) else mapped
  }

  lemma ScopedIff(server: Server, request: Option<Request>, t: Tool)
    ensures t in Scoped(server, request) <==>
            && t in server.registered && t in server.toolScopes
            && (Scopes(request).Some? ==> server.toolScopes[t] in Scopes(request).value)
  {
    var scopes := Scopes(request);
    FilterKeeps(server.registered, u => u in server.toolScopes, t);
    if scopes.Some? {
      FilterKeeps(Filter(server.registered, u => u in server.toolScopes),
                  u => u in server.toolScopes && server.toolScopes[u] in scopes.value, t);
    }
  }

  /** The tools in scope and profile, before the fence. */
  function Profiled(server: Server, request: Option<Request>): seq<Tool>
    requires WellConfigured(server)
  {
    var toolset := ProfileToolset(server, request);
    if toolset.Some? then Filter(Scoped(server, request), t => t in toolset.value) else Scoped(server, request)
  }

  lemma ProfiledIff(server: Server, request: Option<Request>, t: Tool)
    requires WellConfigured(server)
    ensures var toolset := ProfileToolset(server, request);
            t in Profiled(server, request) <==> t in Scoped(server, request) && (toolset.Some? ==> t in toolset.value)
  {
    var toolset := ProfileToolset(server, request);
    if toolset.Some? {
      FilterKeeps(Scoped(server, request), u => u in toolset.value, t);
    }
  }

  /** For every request, a registered tool is advertised if and only if calling it passes the gate. */
  lemma AdvertisedIffCallable(server: Server, request: Option<Request>, headless: string -> bool, t: Tool)
    requires WellConfigured(server)
    ensures t in ListTools(server, request, headless) <==>
            t in server.registered && CallTool(server, request, headless, t) == Forwarded
  {
    ScopedIff(server, request, t);
    ProfiledIff(server, request, t);
    FilterKeeps(Profiled(server, request), u => u !in server.launchGate, t);
  }

  // ------------------------------------------------ the surface, on the request's own fields

  /** The request's scopes cover the tool; an API key needs none. */
  predicate Covers(server: Server, r: Request, t: Tool) {
    r.authMethod == Some("api_key") || (t in server.toolScopes && server.toolScopes[t] in r.scopes)
  }

  predicate DeclaresKnown(server: Server, r: Request) {
    r.declaredProfile.Some? && r.declaredProfile.value in server.profiles
  }

  /** The profile holds the tool, or is unrestricted. */
  predicate ProfileHas(server: Server, profile: string, t: Tool) {
    profile in server.profiles && (server.profiles[profile].None? || t in server.profiles[profile].value)
  }

  /** The tenant's human step stands before a launch-gate tool. */
  predicate Fenced(server: Server, r: Request, headless: string -> bool, t: Tool) {
    && t in server.launchGate && r.authMethod == Some("jwt")
    && (r.tenantKey in {None, Some("")} || !headless(r.tenantKey.value))
  }

  predicate InProfile(server: Server, r: Request, t: Tool) {
    if DeclaresKnown(server, r) then ProfileHas(server, r.declaredProfile.value, t)
    else if r.authMethod == Some("jwt") then
      (if "mcp:agent" in r.scopes then t in server.toolScopes && t !in server.launchGate
       else ProfileHas(server, "standard", t))
    else r.authMethod == Some("api_key")
  }

  lemma ScopesCover(server: Server, r: Request, t: Tool)
    requires t in server.toolScopes
    ensures Covers(server, r, t) <==> (Scopes(Some(r)).Some? ==> server.toolScopes[t] in Scopes(Some(r)).value)
  {
  }

  lemma ToolsetIsProfile(server: Server, r: Request, t: Tool)
    requires WellConfigured(server)
    ensures var toolset := ProfileToolset(server, Some(r));
            InProfile(server, r, t) <==> (toolset.Some? ==> t in toolset.value)
  {
  }

  /** Why a call is refused, gate by gate, and when it is forwarded. */
  lemma DispatchIff(server: Server, r: Request, headless: string -> bool, t: Tool)
    requires WellConfigured(server)
    ensures var d := CallTool(server, Some(r), headless, t);
            var unmapped := t in server.registered && t !in server.toolScopes;
            && (d == Refused(Unmapped) <==> unmapped)
            && (d == Refused(OutOfScope) <==> !unmapped && !Covers(server, r, t))
            && (d == Refused(OutOfProfile) <==> !unmapped && Covers(server, r, t) && !InProfile(server, r, t))
            && (d == Refused(LaunchGated) <==>
                  !unmapped && Covers(server, r, t) && InProfile(server, r, t) && Fenced(server, r, headless, t))
            && (d == Forwarded <==>
                  !unmapped && Covers(server, r, t) && InProfile(server, r, t) && !Fenced(server, r, headless, t))
  {
    ToolsetIsProfile(server, r, t);
    if t in server.toolScopes {
      ScopesCover(server, r, t);
    }
  }

  /** What any other request than an API key's is shown or may call, whatever it declares, is in its token's scopes. */
  lemma TokensStayInScope(server: Server, r: Request, headless: string -> bool, t: Tool)
    requires WellConfigured(server) && r.authMethod != Some("api_key")
    requires t in ListTools(server, Some(r), headless) || CallTool(server, Some(r), headless, t) == Forwarded
    ensures t in server.toolScopes && server.toolScopes[t] in r.scopes
  {
    AdvertisedIffCallable(server, Some(r), headless, t);
    DispatchIff(server, r, headless, t);
  }

  /** An undeclared JWT with the agent scope is shown exactly the in-scope mapped tools outside the launch gate. */
  lemma AgentSurface(server: Server, r: Request, headless: string -> bool, t: Tool)
    requires WellConfigured(server) && r.authMethod == Some("jwt") && "mcp:agent" in r.scopes
    requires r.declaredProfile.Some? ==> r.declaredProfile.value !in server.profiles
    ensures t in ListTools(server, Some(r), headless) <==>
            && t in server.registered && t in server.toolScopes && server.toolScopes[t] in r.scopes
            && t !in server.launchGate
  {
    AdvertisedIffCallable(server, Some(r), headless, t);
    DispatchIff(server, r, headless, t);
  }

  /** An undeclared JWT without it is shown the in-scope tools of the standard profile, behind the fence. */
  lemma StandardSurface(server: Server, r: Request, headless: string -> bool, t: Tool)
    requires WellConfigured(server) && r.authMethod == Some("jwt") && "mcp:agent" !in r.scopes
    requires r.declaredProfile.Some? ==> r.declaredProfile.value !in server.profiles
    ensures t in ListTools(server, Some(r), headless) <==>
            && t in server.registered && t in server.toolScopes && server.toolScopes[t] in r.scopes
            && (server.profiles["standard"].Some? ==> t in server.profiles["standard"].value)
            && (t in server.launchGate ==> r.tenantKey.Some? && r.tenantKey.value != "" && headless(r.tenantKey.value))
  {
    AdvertisedIffCallable(server, Some(r), headless, t);
    DispatchIff(server, r, headless, t);
  }

  /** Whoever declares a known profile is shown its tools, in scope and fenced for a JWT, all for an API key. */
  lemma DeclaredSurface(server: Server, r: Request, headless: string -> bool, t: Tool)
    requires WellConfigured(server) && r.declaredProfile.Some? && r.declaredProfile.value in server.profiles
    ensures var profile := server.profiles[r.declaredProfile.value];
            t in ListTools(server, Some(r), headless) <==>
            && t in server.registered && t in server.toolScopes
            && (r.authMethod != Some("api_key") ==> server.toolScopes[t] in r.scopes)
            && (profile.Some? ==> t in profile.value)
            && (r.authMethod == Some("jwt") && t in server.launchGate ==>
                  r.tenantKey.Some? && r.tenantKey.value != "" && headless(r.tenantKey.value))
  {
    AdvertisedIffCallable(server, Some(r), headless, t);
    DispatchIff(server, r, headless, t);
  }

  /** The profiles by name: a JWT that declares the orchestrator one gets no launch-gate tool, the full one fences. */
  lemma NamedSurfaces(server: Server, r: Request, headless: string -> bool, t: Tool)
    requires WellConfigured(server) && r.authMethod == Some("jwt")
    requires r.declaredProfile in {Some("orchestrator"), Some("full")}
    ensures t in ListTools(server, Some(r), headless) <==>
            && t in server.registered && t in server.toolScopes && server.toolScopes[t] in r.scopes
            && (t in server.launchGate ==>
                  r.declaredProfile == Some("full")
                  && r.tenantKey.Some? && r.tenantKey.value != "" && headless(r.tenantKey.value))
  {
    DeclaredSurface(server, r, headless, t);
  }

  /** Outside HTTP everything mapped is shown. */
  lemma InMemorySurface(server: Server, headless: string -> bool, t: Tool)
    requires WellConfigured(server)
    ensures t in ListTools(server, None, headless) <==> t in server.registered && t in server.toolScopes
  {
    AdvertisedIffCallable(server, None, headless, t);
  }

  lemma {:induction false} FilterAppends(tools: seq<Tool>, keep: Tool -> bool, t: Tool)
    ensures Filter(tools + [t], keep) == Filter(tools, keep) + if keep(t) then [t] else []
    decreases |tools|
  {
    if tools == [] {
      assert [] + [t] == [t] && [t][1..] == [];
    } else {
      assert (tools + [t])[0] == tools[0] && (tools + [t])[1..] == tools[1..] + [t];
      FilterAppends(tools[1..], keep, t);
    }
  }

  lemma FilterFirst(t: Tool, rest: seq<Tool>, keep: Tool -> bool)
    ensures Filter([t] + rest, keep) == (if keep(t) then [t] else []) + Filter(rest, keep)
  {
    assert ([t] + rest)[1..] == rest;
  }

  lemma {:induction false} FilterTwice(tools: seq<Tool>, first: Tool -> bool, second: Tool -> bool, both: Tool -> bool)
    requires forall t :: t in tools ==> (both(t) <==> first(t) && second(t))
    ensures Filter(Filter(tools, first), second) == Filter(tools, both)
    decreases |tools|
  {
    if tools != [] {
      var t, rest := tools[0], Filter(tools[1..], first);
      FilterTwice(tools[1..], first, second, both);
      if first(t) {
        assert Filter(tools, first) == [t] + rest;
        FilterFirst(t, rest, second);
      } else {
        assert Filter(tools, first) == rest;
      }
    }
  }

  lemma {:induction false} FilterSame(tools: seq<Tool>, one: Tool -> bool, other: Tool -> bool)
    requires forall t :: t in tools ==> (one(t) <==> other(t))
    ensures Filter(tools, one) == Filter(tools, other)
    decreases |tools|
  {
    if tools != [] {
      FilterSame(tools[1..], one, other);
    }
  }

  lemma {:induction false} FilterAll(tools: seq<Tool>, keep: Tool -> bool)
    requires forall t :: t in tools ==> keep(t)
    ensures Filter(tools, keep) == tools
    decreases |tools|
  {
    if tools != [] {
      FilterAll(tools[1..], keep);
    }
  }

  lemma ScopedIsFiltered(server: Server, request: Option<Request>, keep: Tool -> bool)
    requires forall t ::
      keep(t) <==> (t in server.toolScopes && (Scopes(request).Some? ==> server.toolScopes[t] in Scopes(request).value))
    ensures Scoped(server, request) == Filter(server.registered, keep)
  {
    var scopes, isMapped := Scopes(request), (t: Tool) => t in server.toolScopes;
    if scopes.Some? {
      var inScope := (t: Tool) => t in server.toolScopes && server.toolScopes[t] in scopes.value;
      FilterTwice(server.registered, isMapped, inScope, keep);
    } else {
      FilterSame(server.registered, isMapped, keep);
    }
  }

  lemma ProfiledIsFiltered(server: Server, request: Option<Request>, scoped: Tool -> bool, keep: Tool -> bool)
    requires WellConfigured(server) && Scoped(server, request) == Filter(server.registered, scoped)
    requires var toolset := ProfileToolset(server, request);
             forall t :: keep(t) <==> scoped(t) && (toolset.Some? ==> t in toolset.value)
    ensures Profiled(server, request) == Filter(server.registered, keep)
  {
    var toolset := ProfileToolset(server, request);
    if toolset.Some? {
      FilterTwice(server.registered, scoped, t => t in toolset.value, keep);
    } else {
      FilterSame(server.registered, scoped, keep);
    }
  }

  /** The advertised list is the registered one, in its order, without exactly the tools whose call would be refused. */
  lemma ListedAreTheCallable(server: Server, request: Option<Request>, headless: string -> bool)
    requires WellConfigured(server)
    ensures ListTools(server, request, headless)
            == Filter(server.registered, t => CallTool(server, request, headless, t) == Forwarded)
  {
    var scopes, toolset := Scopes(request), ProfileToolset(server, request);
    var scoped := (t: Tool) => t in server.toolScopes && (scopes.Some? ==> server.toolScopes[t] in scopes.value);
    var profiled := (t: Tool) => scoped(t) && (toolset.Some? ==> t in toolset.value);
    var callable := (t: Tool) => CallTool(server, request, headless, t) == Forwarded;
    ScopedIsFiltered(server, request, scoped);
    ProfiledIsFiltered(server, request, scoped, profiled);
    if LaunchGateBlocked(request, headless) {
      FilterTwice(server.registered, profiled, t => t !in server.launchGate, callable);
      if forall t :: t in Profiled(server, request) ==> t !in server.launchGate {
        FilterAll(Profiled(server, request), t => t !in server.launchGate);
      }
    } else {
      FilterSame(server.registered, profiled, callable);
    }
  }

  /** A JWT session of a tenant that has not opted in can reach no launch-gate tool, whatever profile it declares. */
  lemma LaunchGateHolds(server: Server, request: Request, headless: string -> bool, t: Tool)
    requires WellConfigured(server) && t in server.launchGate && request.authMethod == Some("jwt")
    requires request.tenantKey.Some? ==> !headless(request.tenantKey.value)
    ensures t !in ListTools(server, Some(request), headless)
    ensures CallTool(server, Some(request), headless, t).Refused?
  {
    AdvertisedIffCallable(server, Some(request), headless, t);
  }

  /**
   A session whose authentication is neither of the two known ones sees and may call nothing, unless it
   declared a profile; and then still only what its scopes allow.
   */
  lemma UnknownAuthIsFailClosed(server: Server, request: Request, headless: string -> bool, t: Tool)
    requires WellConfigured(server) && request.authMethod != Some("jwt") && request.authMethod != Some("api_key")
    requires t in ListTools(server, Some(request), headless)
    ensures request.declaredProfile.Some? && request.declaredProfile.value in server.profiles
    ensures t in server.toolScopes && server.toolScopes[t] in request.scopes
  {
    AdvertisedIffCallable(server, Some(request), headless, t);
  }

  /** The boot check: registered and mapped tools are the same. */
  predicate ScopesComplete(server: Server) {
    (forall t :: t in server.registered ==> t in server.toolScopes)
      && (forall t :: t in server.toolScopes ==> t in server.registered)
  }

  /** Once the server has booted, an API key is shown and may call every registered and every mapped tool. */
  lemma ApiKeySeesEverything(server: Server, request: Request, headless: string -> bool, t: Tool)
    requires WellConfigured(server) && ScopesComplete(server)
    requires request.authMethod == Some("api_key") && request.declaredProfile.None?
    requires t in server.registered || t in server.toolScopes
    ensures t in ListTools(server, Some(request), headless)
  {
    AdvertisedIffCallable(server, Some(request), headless, t);
  }
}
