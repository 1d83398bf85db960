/** Routing settings, the preference lists they stand for, and the walk a configuration must pass to boot. */
module RoutingConfig {
  import opened Wrappers
  import opened Seqs
  import opened UsageMeter

  // ---------------------------------------------------------------- preference lists

  /** The agent session types; `Master` has no routing key of its own. */
  datatype AgentType = Impl | Review | Fix | AutoMode | Master

  const TYPES: seq<AgentType> := [Impl, Review, Fix, AutoMode]

  /** One entry, its provider defaulting to the global one, or an ordered list. */
  datatype Flat = Single(provider: Option<Provider>) | Ordered(entries: seq<Provider>)

  /** The same for every phase, or a base with overrides per review phase. */
  datatype Routing = Plain(flat: Flat) | Phased(base: Flat, phase1: Option<Flat>, phase2: Option<Flat>)

  datatype Phase = NoPhase | Gate | First | Second

  datatype Tier = T1 | T2 | T3

  /** `tiers` holds the tiers whose profile declares routes. */
  datatype Agent = Agent(provider: Provider, types: map<AgentType, Routing>, tiers: map<Tier, Flat>)

  function Normalise(flat: Option<Flat>, default: Provider): seq<Provider> {
    match flat
    case None => [default]
    case Some(Single(None)) => [default]
    case Some(Single(Some(p))) => [p]
    case Some(Ordered(entries)) => entries
  }

  function Effective(routing: Option<Routing>, phase: Phase): Option<Flat> {
    match routing
    case None => None
    case Some(Plain(flat)) => Some(flat)
    case Some(Phased(base, phase1, phase2)) =>
      if phase.First? && phase1.Some? then phase1
      else if phase.Second? && phase2.Some? then phase2
      else Some(base)
  }

  /** Tier 1 governs every lane, the others the implementing lanes only. */
  predicate TierGoverns(t: AgentType, tier: Option<Tier>) {
    tier.Some? && (t.Impl? || t.Master? || tier.value.T1?)
  }

  function Configured(agent: Agent, t: AgentType): Option<Routing> {
    if !t.Master? && t in agent.types then Some(agent.types[t]) else None
  }

  /** What a dispatch of this type, phase and tier may be routed to, in order. */
  function PreferenceList(agent: Agent, t: AgentType, phase: Phase, tier: Option<Tier>): seq<Provider> {
    if TierGoverns(t, tier) && tier.value in agent.tiers then Normalise(Some(agent.tiers[tier.value]), agent.provider)
    else Normalise(Effective(Configured(agent, t), phase), agent.provider)
  }

  function TierRoutes(agent: Agent, t: AgentType, tier: Tier): seq<Provider> {
    if TierGoverns(t, Some(tier)) && tier in agent.tiers then PreferenceList(agent, t, NoPhase, Some(tier)) else []
  }

  function PhaseOverride(agent: Agent, flat: Option<Flat>): seq<Provider> {
    if flat.Some? then Normalise(flat, agent.provider) else []
  }

  /** The lists load-time validation walks. */
  function AllPreferenceLists(agent: Agent, t: AgentType): seq<Provider> {
    var routing := Configured(agent, t);
    PreferenceList(agent, t, NoPhase, None)
    + (if routing.Some? && routing.value.Phased?
       then PhaseOverride(agent, routing.value.phase1) + PhaseOverride(agent, routing.value.phase2)
       else [])
    + (TierRoutes(agent, t, T1) + TierRoutes(agent, t, T2) + TierRoutes(agent, t, T3))
  }

  /** The list a routing entry stands for: its entries in order, or its one provider, or the global one. */
  predicate StandsFor(flat: Option<Flat>, default: Provider, list: seq<Provider>) {
    match flat
    case Some(Ordered(entries)) => list == entries
    case Some(Single(Some(p))) => list == [p]
    case _ => list == [default]
  }

  /**
   * What a dispatch reads: its tier's routes where the tier governs its type and declares some; else the
   * override of its review phase where the type's routing has one; else the type's base list; else the
   * global provider.
   */
  lemma DispatchReads(agent: Agent, t: AgentType, phase: Phase, tier: Option<Tier>)
    ensures var list := PreferenceList(agent, t, phase, tier);
            var governed := tier.Some? && tier.value in agent.tiers && (t == Impl || t == Master || tier.value == T1);
            var routing: Option<Routing> := if t in agent.types && t != Master then Some(agent.types[t]) else None;
            if governed then StandsFor(Some(agent.tiers[tier.value]), agent.provider, list)
            else
              match routing
              case None => list == [agent.provider]
              case Some(Plain(flat)) => StandsFor(Some(flat), agent.provider, list)
              case Some(Phased(base, phase1, phase2)) =>
                && (phase == First && phase1.Some? ==> StandsFor(phase1, agent.provider, list))
                && (phase == Second && phase2.Some? ==> StandsFor(phase2, agent.provider, list))
                && (!(phase == First && phase1.Some?) && !(phase == Second && phase2.Some?) ==> StandsFor(Some(base), agent.provider, list))
  {
  }

  lemma TierListed(agent: Agent, t: AgentType, tier: Tier, p: Provider)
    requires p in TierRoutes(agent, t, tier)
    ensures p in AllPreferenceLists(agent, t)
  {
    match tier
    case T1 =>
    case T2 =>
    case T3 =>
  }

  /** Validation walks every entry some dispatch can select, and none that no dispatch can. */
  lemma WalkIsComplete(agent: Agent, t: AgentType, p: Provider)
    ensures p in AllPreferenceLists(agent, t) <==> exists phase, tier :: p in PreferenceList(agent, t, phase, tier)
  {
    if phase, tier :| p in PreferenceList(agent, t, phase, tier) {
      if TierGoverns(t, tier) && tier.value in agent.tiers {
        assert p in TierRoutes(agent, t, tier.value);
        TierListed(agent, t, tier.value, p);
      }
    }
    if p in AllPreferenceLists(agent, t) {
      var routing := Configured(agent, t);
      if p in PreferenceList(agent, t, NoPhase, None) {
      } else if p in TierRoutes(agent, t, T1) {
        assert p in PreferenceList(agent, t, NoPhase, Some(T1));
      } else if p in TierRoutes(agent, t, T2) {
        assert p in PreferenceList(agent, t, NoPhase, Some(T2));
      } else if p in TierRoutes(agent, t, T3) {
        assert p in PreferenceList(agent, t, NoPhase, Some(T3));
      } else if p in PhaseOverride(agent, routing.value.phase1) {
        assert p in PreferenceList(agent, t, First, None);
      } else {
        assert p in PreferenceList(agent, t, Second, None);
      }
    }
  }

  /** A tier's routes, which are a master's only ones, are validated as implementing routes. */
  lemma MasterRoutesAreWalked(agent: Agent, tier: Tier, p: Provider)
    requires tier in agent.tiers && p in PreferenceList(agent, Master, NoPhase, Some(tier))
    ensures p in AllPreferenceLists(agent, Impl)
  {
    assert p in PreferenceList(agent, Impl, NoPhase, Some(tier));
    WalkIsComplete(agent, Impl, p);
  }

  /** The dispatches there are: the configured types at any tier, and masters on a tier that declares routes. */
  predicate Dispatchable(agent: Agent, t: AgentType, tier: Option<Tier>) {
    t in TYPES || (t.Master? && tier.Some? && tier.value in agent.tiers)
  }

  /** The type under which validation walks a dispatch's routes; a master's are walked as implementing ones. */
  function WalkedAs(t: AgentType): AgentType { if t.Master? then Impl else t }

  /** Whatever may be selected at a dispatch, a master's included, load-time validation has walked. */
  lemma DispatchIsWalked(agent: Agent, t: AgentType, phase: Phase, tier: Option<Tier>, p: Provider)
    requires Dispatchable(agent, t, tier) && p in PreferenceList(agent, t, phase, tier)
    ensures WalkedAs(t) in TYPES && p in AllPreferenceLists(agent, WalkedAs(t))
  {
    assert TYPES[0] == Impl;
    if t.Master? {
      MasterRoutesAreWalked(agent, tier.value, p);
    } else {
      WalkIsComplete(agent, t, p);
    }
  }

  // ---------------------------------------------------------------- the configuration

  /** A provider's connection block; `credential` is the back-compatible single account. */
  datatype Block = Block(toolsCapable: Option<bool>, credential: Option<string>)

  datatype AgentPatch = AgentPatch(provider: Option<Provider>, types: Option<map<AgentType, Routing>>, tiers: Option<map<Tier, Flat>>)

  datatype TargetSpec = TargetSpec(repo: string, clone: Option<string>, worktrees: Option<string>, patch: AgentPatch)

  datatype Config = Config(
    agent: Agent,
    providers: map<Provider, Block>,
    accounts: seq<Account>,
    subscriptions: seq<Account>,
    disabled: seq<string>,
    targets: seq<TargetSpec>)

  /** The environment variables that are set and non-empty, and how a path is made absolute. */
  datatype Env = Env(isSet: string -> bool, absolute: string -> string)

  datatype Target = Target(repo: string, clone: string, worktrees: string, agent: Agent, providers: map<Provider, Block>)

  const OPENAI_ACCOUNT := "openai"
  const ZAI_ACCOUNT := "zai"

  function FoldedAccount(config: Config, p: Provider, id: string): seq<Account> {
    if p in config.providers && config.providers[p].credential.Some?
    then [Account(id, p, config.providers[p].credential.value)] else []
  }

  /** Explicit accounts, then the slices folded from the legacy blocks. */
  function Pool(config: Config): seq<Account> {
    config.accounts + config.subscriptions
    + FoldedAccount(config, OpenAi, OPENAI_ACCOUNT) + FoldedAccount(config, Zai, ZAI_ACCOUNT)
  }

  function PoolIds(config: Config): seq<string> { Map(Pool(config), (a: Account) => a.id) }

  predicate ToolsCapable(providers: map<Provider, Block>, p: Provider) {
    if p in providers && providers[p].toolsCapable.Some? then providers[p].toolsCapable.value else !p.OpenAi?
  }

  /** A type that calls back into the host needs a provider whose sessions can. */
  predicate CapabilityOk(t: AgentType, p: Provider, providers: map<Provider, Block>) {
    (t.Impl? || t.Master?) ==> ToolsCapable(providers, p)
  }

  function IsEnabled(config: Config): Account -> bool { (a: Account) => a.id !in config.disabled }

  function EnabledOf(config: Config, p: Provider): seq<Account> { Filter(Slice(Pool(config), p), IsEnabled(config)) }

  function Merged(agent: Agent, patch: AgentPatch): Agent {
    Agent(if patch.provider.Some? then patch.provider.value else agent.provider,
          if patch.types.Some? then patch.types.value else agent.types,
          if patch.tiers.Some? then patch.tiers.value else agent.tiers)
  }

  function Dashed(slug: string): (r: string)
    ensures |r| == |slug| && forall i | 0 <= i < |slug| :: r[i] == if slug[i] == '/' then '-' else slug[i]
  {
    if slug == "" then "" else [if slug[0] == '/' then '-' else slug[0]] + Dashed(slug[1..])
  }

  function TargetOf(config: Config, spec: TargetSpec): Target {
    Target(spec.repo,
           match spec.clone case Some(path) => path case None => ".target-repo/" + Dashed(spec.repo),
           match spec.worktrees case Some(path) => path case None => ".wt/" + Dashed(spec.repo),
           Merged(config.agent, spec.patch),
           config.providers)
  }

  function Targets(config: Config): seq<Target> { Map(config.targets, (spec: TargetSpec) => TargetOf(config, spec)) }

  // ---------------------------------------------------------------- booting

  datatype Why = NotToolsCapable | NotConfigured | NoAccount | AllDisabled | MissingKey

  datatype ConfigError =
    | UnknownDisabledId(id: string)
    | Unroutable(repo: string, agentType: AgentType, provider: Provider, why: Why)
    | Duplicate(what: string, value: string)

  /** What is wrong with routing this type to this provider, most fundamental first. */
  function Problem(config: Config, env: Env, t: AgentType, p: Provider): Option<Why> {
    if !CapabilityOk(t, p, config.providers) then Some(NotToolsCapable)
    else
      var accounts, enabled := Slice(Pool(config), p), EnabledOf(config, p);
      match p
      case Claude => if accounts != [] && enabled == [] then Some(AllDisabled) else None
      case OpenAi =>
        if OpenAi !in config.providers then Some(NotConfigured)
        else if accounts == [] then Some(NoAccount)
        else if enabled == [] then Some(AllDisabled)
        else None
      case Zai =>
        if Zai !in config.providers then Some(NotConfigured)
        else if accounts == [] then Some(NoAccount)
        else if enabled == [] then Some(AllDisabled)
        else if exists a | a in enabled :: !env.isSet(a.credential) then Some(MissingKey)
        else None
  }

  /** The pool keeps the explicit accounts in order, and adds one account for each endpoint block with a credential of its own. */
  lemma PoolMeaning(config: Config, a: Account)
    ensures config.accounts + config.subscriptions <= Pool(config)
    ensures a in Pool(config) <==>
              || a in config.accounts || a in config.subscriptions
              || (a.provider != Claude && a.id == (if a.provider == OpenAi then "openai" else "zai")
                  && a.provider in config.providers && config.providers[a.provider].credential == Some(a.credential))
  {
    var explicit := config.accounts + config.subscriptions;
    var openai, zai := FoldedAccount(config, OpenAi, OPENAI_ACCOUNT), FoldedAccount(config, Zai, ZAI_ACCOUNT);
    assert Pool(config) == explicit + (openai + zai);
    assert a in explicit <==> a in config.accounts || a in config.subscriptions;
    assert a in openai + zai <==> a in openai || a in zai;
  }

  lemma {:induction false} SliceProvider(accounts: seq<Account>, p: Provider)
    ensures forall a :: a in Slice(accounts, p) <==> a in accounts && a.provider == p
  {
    if accounts != [] {
      var n := |accounts| - 1;
      SliceProvider(accounts[..n], p);
      assert accounts == accounts[..n] + [accounts[n]];
    }
  }

  /** Whether the pool holds an account of the provider, and whether one is enabled. */
  ghost predicate Held(config: Config, p: Provider) { exists a | a in Pool(config) :: a.provider == p }

  ghost predicate Usable(config: Config, p: Provider) {
    exists a | a in Pool(config) :: a.provider == p && a.id !in config.disabled
  }

  lemma AccountsHeld(config: Config, p: Provider)
    ensures Slice(Pool(config), p) != [] <==> Held(config, p)
    ensures EnabledOf(config, p) != [] <==> Usable(config, p)
    ensures forall a :: a in EnabledOf(config, p) <==> a in Pool(config) && a.provider == p && a.id !in config.disabled
  {
    var slice := Slice(Pool(config), p);
    SliceProvider(Pool(config), p);
    FilterMembers(slice, IsEnabled(config));
    assert slice != [] ==> slice[0] in slice;
    assert EnabledOf(config, p) != [] ==> EnabledOf(config, p)[0] in EnabledOf(config, p);
  }

  /**
   * What stands against routing a type to a provider, reason by reason: implementing and master sessions
   * need tools, which openai has only when declared so; an endpoint provider needs its block and an account;
   * every provider with accounts needs an enabled one; and zai needs the keys of those.
   */
  lemma ProblemMeaning(config: Config, env: Env, t: AgentType, p: Provider)
    ensures var why := Problem(config, env, t, p);
            var declared := if p in config.providers then config.providers[p].toolsCapable else None;
            var capable := t in {Impl, Master} ==> declared == Some(true) || (declared == None && p != OpenAi);
            var configured := p == Claude || p in config.providers;
            var keyed := p == Zai ==> forall a | a in Pool(config) && a.provider == Zai && a.id !in config.disabled :: env.isSet(a.credential);
            && (why == Some(NotToolsCapable) <==> !capable)
            && (why == Some(NotConfigured) <==> capable && !configured)
            && (why == Some(NoAccount) <==> capable && configured && p != Claude && !Held(config, p))
            && (why == Some(AllDisabled) <==> capable && configured && Held(config, p) && !Usable(config, p))
            && (why == Some(MissingKey) <==> capable && configured && Usable(config, p) && !keyed)
  {
    AccountsHeld(config, p);
    if p.Zai? {
      assert forall a :: a in EnabledOf(config, Zai) <==> a in Pool(config) && a.provider == Zai && a.id !in config.disabled;
    }
  }

  ghost predicate Unique(values: seq<string>) { forall i, j | 0 <= i < j < |values| :: values[i] != values[j] }

  function Repos(config: Config): seq<string> { Map(Targets(config), (t: Target) => t.repo) }

  function Clones(config: Config, env: Env): seq<string> { Map(Targets(config), (t: Target) => env.absolute(t.clone)) }

  function Worktrees(config: Config, env: Env): seq<string> { Map(Targets(config), (t: Target) => env.absolute(t.worktrees)) }

  ghost predicate KnownDisabled(config: Config) { forall id | id in config.disabled :: id in PoolIds(config) }

  ghost predicate Routable(config: Config, env: Env, target: Target, t: AgentType) {
    forall p | p in AllPreferenceLists(target.agent, t) :: Problem(config, env, t, p) == None
  }

  ghost predicate TargetRoutable(config: Config, env: Env, target: Target) {
    forall t | t in TYPES :: Routable(config, env, target, t)
  }

  /** A configuration the daemon boots on. */
  ghost predicate Bootable(config: Config, env: Env) {
    && KnownDisabled(config)
    && (forall i | 0 <= i < |Targets(config)| :: TargetRoutable(config, env, Targets(config)[i]))
    && Unique(Repos(config)) && Unique(Clones(config, env)) && Unique(Worktrees(config, env))
  }

  ghost predicate ExplainsTarget(config: Config, env: Env, target: Target, e: ConfigError) {
    && e.Unroutable? && e.repo == target.repo && e.agentType in TYPES
    && e.provider in AllPreferenceLists(target.agent, e.agentType)
    && Problem(config, env, e.agentType, e.provider) == Some(e.why)
  }

  /** The error names something that is really wrong. */
  ghost predicate Explains(config: Config, env: Env, e: ConfigError) {
    match e
    case UnknownDisabledId(id) => id in config.disabled && id !in PoolIds(config)
    case Unroutable(_, _, _, _) => exists target | target in Targets(config) :: ExplainsTarget(config, env, target, e)
    case Duplicate(_, value) =>
      exists values | values in {Repos(config), Clones(config, env), Worktrees(config, env)} :: !Unique(values) && value in values
  }

  /** The first value that repeats an earlier one. */
  method AssertUnique(values: seq<string>) returns (dup: Option<string>)
    ensures dup.None? <==> Unique(values)
    ensures dup.Some? ==> dup.value in values
  {
    var seen: set<string> := {};
    for i := 0 to |values|
      invariant Unique(values[..i]) && forall v :: v in seen <==> v in values[..i]
    {
      assert values[..i + 1] == values[..i] + [values[i]];
      if values[i] in seen {
        var k :| 0 <= k < i && values[k] == values[i];
        return Some(values[i]);
      }
      seen := seen + {values[i]};
    }
    assert values[..|values|] == values;
    dup := None;
  }

  /** Walk one target's entries for every type. */
  method CheckTarget(config: Config, env: Env, target: Target) returns (e: Option<ConfigError>)
    ensures e.None? <==> TargetRoutable(config, env, target)
    ensures e.Some? ==> ExplainsTarget(config, env, target, e.value)
  {
    for i := 0 to |TYPES|
      invariant forall k | 0 <= k < i :: Routable(config, env, target, TYPES[k])
    {
      var t := TYPES[i];
      var entries := AllPreferenceLists(target.agent, t);
      for j := 0 to |entries|
        invariant forall k | 0 <= k < j :: Problem(config, env, t, entries[k]) == None
      {
        var why := Problem(config, env, t, entries[j]);
        if why.Some? {
          assert !Routable(config, env, target, t);
          return Some(Unroutable(target.repo, t, entries[j], why.value));
        }
      }
    }
    e := None;
  }

  method CheckDisabled(config: Config) returns (e: Option<ConfigError>)
    ensures e.None? <==> KnownDisabled(config)
    ensures e.Some? ==> e.value.UnknownDisabledId? && e.value.id in config.disabled && e.value.id !in PoolIds(config)
  {
    var ids := PoolIds(config);
    for i := 0 to |config.disabled|
      invariant forall k | 0 <= k < i :: config.disabled[k] in ids
    {
      if config.disabled[i] !in ids {
        return Some(UnknownDisabledId(config.disabled[i]));
      }
    }
    e := None;
  }

  lemma NotRoutable(config: Config, env: Env, target: Target, e: ConfigError)
    requires ExplainsTarget(config, env, target, e)
    ensures !TargetRoutable(config, env, target)
  {
    assert !Routable(config, env, target, e.agentType);
  }

  /** Walk the targets in order; `at` is where the walk stopped. */
  method CheckRoutes(config: Config, env: Env, resolved: seq<Target>) returns (e: Option<ConfigError>, ghost at: nat)
    ensures e.None? ==> forall i | 0 <= i < |resolved| :: TargetRoutable(config, env, resolved[i])
    ensures e.Some? ==> at < |resolved| && ExplainsTarget(config, env, resolved[at], e.value)
  {
    at := 0;
    for i := 0 to |resolved|
      invariant forall k | 0 <= k < i :: TargetRoutable(config, env, resolved[k])
    {
      e := CheckTarget(config, env, resolved[i]);
      if e.Some? {
        at := i;
        return;
      }
    }
    e := None;
  }

  method CheckUnique(config: Config, env: Env) returns (e: Option<ConfigError>)
    ensures e.None? <==> Unique(Repos(config)) && Unique(Clones(config, env)) && Unique(Worktrees(config, env))
    ensures e.Some? ==> Explains(config, env, e.value)
  {
    var repo := AssertUnique(Repos(config));
    if repo.Some? {
      return Some(Duplicate("duplicate target repo", repo.value));
    }
    var clone := AssertUnique(Clones(config, env));
    if clone.Some? {
      return Some(Duplicate("two targets share a clone path (paths.targetClone)", clone.value));
    }
    var worktrees := AssertUnique(Worktrees(config, env));
    if worktrees.Some? {
      return Some(Duplicate("two targets share a worktree root (paths.worktreeRoot)", worktrees.value));
    }
    e := None;
  }

  /** The validation walk: it accepts exactly the bootable configurations, and its error is a true one. */
  method ResolveTargets(config: Config, env: Env) returns (r: Result<seq<Target>, ConfigError>)
    ensures r.Ok? <==> Bootable(config, env)
    ensures r.Ok? ==> r.value == Targets(config)
    ensures r.Err? ==> Explains(config, env, r.error)
  {
    var resolved := Targets(config);
    var e := CheckDisabled(config);
    if e.Some? {
      return Err(e.value);
    }
    ghost var at: nat;
    e, at := CheckRoutes(config, env, resolved);
    if e.Some? {
      NotRoutable(config, env, resolved[at], e.value);
      assert resolved[at] in Targets(config);
      return Err(e.value);
    }
    e := CheckUnique(config, env);
    if e.Some? {
      return Err(e.value);
    }
    r := Ok(resolved);
  }

  // ---------------------------------------------------------------- what booting guarantees a dispatch

  /** Whatever type, phase and tier is dispatched, an endpoint provider it may select has an enabled account with its key. */
  lemma BootableDispatches(config: Config, env: Env, target: Target, t: AgentType, phase: Phase, tier: Option<Tier>, p: Provider)
    requires Bootable(config, env) && target in Targets(config) && Dispatchable(target.agent, t, tier)
    requires p in PreferenceList(target.agent, t, phase, tier) && !p.Claude?
    ensures p in config.providers && CapabilityOk(t, p, config.providers)
    ensures EnabledOf(config, p) != []
    ensures forall a | a in EnabledOf(config, p) ::
              a in Pool(config) && a.provider == p && a.id !in config.disabled && (p.Zai? ==> env.isSet(a.credential))
  {
    DispatchIsWalked(target.agent, t, phase, tier, p);
    var i :| 0 <= i < |Targets(config)| && Targets(config)[i] == target;
    assert TargetRoutable(config, env, Targets(config)[i]) && Routable(config, env, target, WalkedAs(t));
    SliceProvider(Pool(config), p);
    FilterMembers(Slice(Pool(config), p), IsEnabled(config));
  }

  /** A target that may select claude over pool accounts keeps an enabled one: the box login is never fallen back to. */
  lemma ClaudeNeverFallsBack(config: Config, env: Env, target: Target, t: AgentType)
    requires Bootable(config, env) && target in Targets(config) && t in TYPES
    requires Claude in AllPreferenceLists(target.agent, t)
    ensures Slice(Pool(config), Claude) != [] ==> EnabledOf(config, Claude) != []
  {
    var i :| 0 <= i < |Targets(config)| && Targets(config)[i] == target;
    assert TargetRoutable(config, env, Targets(config)[i]) && Routable(config, env, target, t);
  }

  /** No implementing route reaches openai unless its block declares it tools-capable. */
  lemma ImplementingNeedsTools(config: Config, env: Env, target: Target, phase: Phase, tier: Option<Tier>)
    requires Bootable(config, env) && target in Targets(config)
    requires OpenAi in PreferenceList(target.agent, Impl, phase, tier)
    ensures OpenAi in config.providers && config.providers[OpenAi].toolsCapable == Some(true)
  {
    assert TYPES[0] == Impl;
    BootableDispatches(config, env, target, Impl, phase, tier, OpenAi);
  }

  /** A target that declares its own routing keeps it whatever the global routing is; one that declares none inherits it whole. */
  lemma OverridesReplaceWhole(config: Config, spec: TargetSpec, types: map<AgentType, Routing>)
    ensures var edited := config.(agent := config.agent.(types := types));
            TargetOf(edited, spec).agent.types == (if spec.patch.types.Some? then spec.patch.types.value else types)
            && TargetOf(edited, spec) == TargetOf(config, spec).(agent := TargetOf(edited, spec).agent)
            && TargetOf(edited, spec).agent.provider == TargetOf(config, spec).agent.provider
            && TargetOf(edited, spec).agent.tiers == TargetOf(config, spec).agent.tiers
  {
  }

  /** A target reads each of its own settings where it declares one and the global one where it does not, and its checkouts where it says or by its repo's name. */
  lemma OverridesReplaceEach(config: Config, spec: TargetSpec)
    ensures var t := TargetOf(config, spec);
            && t.repo == spec.repo && t.providers == config.providers
            && (if spec.patch.provider.Some? then Some(t.agent.provider) == spec.patch.provider else t.agent.provider == config.agent.provider)
            && (if spec.patch.types.Some? then Some(t.agent.types) == spec.patch.types else t.agent.types == config.agent.types)
            && (if spec.patch.tiers.Some? then Some(t.agent.tiers) == spec.patch.tiers else t.agent.tiers == config.agent.tiers)
            && (if spec.clone.Some? then Some(t.clone) == spec.clone
                else ".target-repo/" <= t.clone && |t.clone| == |spec.repo| + 13 && forall i | 0 <= i < |spec.repo| :: t.clone[13 + i] == if spec.repo[i] == '/' then '-' else spec.repo[i])
            && (if spec.worktrees.Some? then Some(t.worktrees) == spec.worktrees
                else ".wt/" <= t.worktrees && |t.worktrees| == |spec.repo| + 4 && forall i | 0 <= i < |spec.repo| :: t.worktrees[4 + i] == if spec.repo[i] == '/' then '-' else spec.repo[i])
  {
  }
}
