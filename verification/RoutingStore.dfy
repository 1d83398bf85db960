/** The runtime routing overlay: edits that are validated, persisted and only then committed. */
module RoutingStore {
  import opened Wrappers
  import opened Seqs
  import opened UsageMeter
  import opened RoutingConfig

  datatype Edit =
    | TypeEdit(agentType: AgentType, routing: Option<Routing>)
    | AccountEdit(id: string, enabled: bool)

  datatype Rejection = NotCapable(provider: Provider) | UnknownAccount(id: string) | Invalid(error: ConfigError) | NotPersisted

  datatype Outcome = Applied(cleared: bool) | Rejected(why: Rejection)

  /** The ids parked after an account edit; parking twice is parking once. */
  function Parked(disabled: seq<string>, id: string, enabled: bool): seq<string> {
    if enabled then Filter(disabled, (d: string) => d != id)
    else if id in disabled then disabled
    else disabled + [id]
  }

  /** The configuration an edit asks for. */
  function Candidate(config: Config, edit: Edit): Config {
    match edit
    case TypeEdit(t, Some(routing)) => config.(agent := config.agent.(types := config.agent.types[t := routing]))
    case TypeEdit(t, None) => config.(agent := config.agent.(types := config.agent.types - {t}))
    case AccountEdit(id, enabled) => config.(disabled := Parked(config.disabled, id, enabled))
  }

  predicate SameRouting(t: AgentType, a: Agent, b: Agent) {
    && (t in a.types <==> t in b.types)
    && (t in a.types && t in b.types ==> a.types[t] == b.types[t])
  }

  /** Whether an edit rewrites what this target routes a type by: its own routings shield it from every type edit. */
  predicate Reaches(spec: TargetSpec, edit: Edit) { edit.TypeEdit? && spec.patch.types.None? }

  /** What the configuration an edit asks for is: the edited account or type as asked, and everything else as it was. */
  lemma EditMeaning(config: Config, edit: Edit)
    ensures var c := Candidate(config, edit);
            match edit
            case AccountEdit(id, enabled) =>
              && (id in c.disabled <==> !enabled)
              && (forall x | x != id :: x in c.disabled <==> x in config.disabled)
              && c == config.(disabled := c.disabled) && Targets(c) == Targets(config)
              && ((id in config.disabled <==> !enabled) ==> c == config)
            case TypeEdit(t, routing) =>
              && (t in c.agent.types <==> routing.Some?)
              && (routing.Some? ==> c.agent.types[t] == routing.value)
              && (forall u | u != t :: SameRouting(u, c.agent, config.agent))
              && c == config.(agent := config.agent.(types := c.agent.types))
              && (forall i | 0 <= i < |config.targets| ::
                    Targets(c)[i] == Targets(config)[i].(agent :=
                      if Reaches(config.targets[i], edit)
                      then Targets(config)[i].agent.(types := c.agent.types) else Targets(config)[i].agent))
  {
    match edit
    case AccountEdit(id, enabled) =>
      ParkedMembers(config.disabled, id, enabled);
      if enabled && id !in config.disabled {
        FilterAll(config.disabled, (d: string) => d != id);
      }
      SameTargets(config, Candidate(config, edit));
    case TypeEdit(t, routing) =>
      forall i | 0 <= i < |config.targets|
        ensures var c := Candidate(config, edit);
                Targets(c)[i] == Targets(config)[i].(agent :=
                  if Reaches(config.targets[i], edit)
                  then Targets(config)[i].agent.(types := c.agent.types) else Targets(config)[i].agent)
      {
      }
  }

  lemma ParkedMembers(disabled: seq<string>, id: string, enabled: bool)
    ensures forall x :: x in Parked(disabled, id, enabled) <==> if x == id then !enabled else x in disabled
  {
    FilterMembers(disabled, (d: string) => d != id);
  }

  lemma SameTargets(config: Config, parked: Config)
    requires parked.targets == config.targets && parked.agent == config.agent && parked.providers == config.providers
    ensures Targets(parked) == Targets(config)
  {
  }

  /** The checks made before the full validation: the edited base list's capability, or that the account exists. */
  ghost predicate EdgeOk(config: Config, edit: Edit) {
    match edit
    case TypeEdit(t, Some(_)) =>
      forall p | p in PreferenceList(Candidate(config, edit).agent, t, NoPhase, None) :: CapabilityOk(t, p, config.providers)
    case TypeEdit(_, None) => true
    case AccountEdit(id, _) => id in PoolIds(config)
  }

  ghost predicate Accepted(config: Config, env: Env, edit: Edit, persists: bool) {
    EdgeOk(config, edit) && Bootable(Candidate(config, edit), env) && persists
  }

  ghost function After(config: Config, env: Env, edit: Edit, persists: bool): Config {
    if Accepted(config, env, edit, persists) then Candidate(config, edit) else config
  }

  function ByRepo(targets: seq<Target>): map<string, Target> {
    if targets == [] then map[]
    else ByRepo(targets[..|targets| - 1])[targets[|targets| - 1].repo := targets[|targets| - 1]]
  }

  /** A value in the configuration document; edits only ever write routings and account ids. */
  datatype Node = Routes(types: map<AgentType, Routing>) | Parks(ids: seq<string>) | Text(text: string)

  /** The document by the paths of its keys. */
  type Doc = map<seq<string>, Node>

  const TYPES_KEY := ["agent", "types"]
  const DISABLED_KEY := ["disabledAccounts"]

  /** What a restart reads from the two keys that edits own; an absent key is an empty one. */
  function TypesOf(doc: Doc): map<AgentType, Routing> {
    if TYPES_KEY in doc && doc[TYPES_KEY].Routes? then doc[TYPES_KEY].types else map[]
  }

  function DisabledOf(doc: Doc): seq<string> {
    if DISABLED_KEY in doc && doc[DISABLED_KEY].Parks? then doc[DISABLED_KEY].ids else []
  }

  /** The key an edit owns is rewritten, an emptied list of parked accounts deleted. */
  function Edited(doc: Doc, candidate: Config, edit: Edit): Doc {
    if edit.TypeEdit? then doc[TYPES_KEY := Routes(candidate.agent.types)]
    else if candidate.disabled != [] then doc[DISABLED_KEY := Parks(candidate.disabled)]
    else doc - {DISABLED_KEY}
  }

  /** A restart reads the edited key back as it was meant and the other as it was, and every other line survives. */
  lemma EditReadsBack(doc: Doc, candidate: Config, edit: Edit)
    ensures var after := Edited(doc, candidate, edit);
            && TypesOf(after) == (if edit.TypeEdit? then candidate.agent.types else TypesOf(doc))
            && DisabledOf(after) == (if edit.TypeEdit? then DisabledOf(doc) else candidate.disabled)
            && forall path | path != (if edit.TypeEdit? then TYPES_KEY else DISABLED_KEY) ::
                 (path in after <==> path in doc) && (path in doc ==> after[path] == doc[path])
  {
    assert |TYPES_KEY| != |DISABLED_KEY|;
  }

  /** The configuration file. */
  class ConfigFile {
    var doc: Doc

    constructor (doc: Doc)
      ensures this.doc == doc
    {
      this.doc := doc;
    }

    /** Rewrite the key the edit owns; a failing read or write changes nothing. */
    method WriteThrough(candidate: Config, edit: Edit, persists: bool)
      modifies this
      ensures doc == if persists then Edited(old(doc), candidate, edit) else old(doc)
    {
      if persists {
        if edit.TypeEdit? {
          doc := doc[TYPES_KEY := Routes(candidate.agent.types)];
        } else if |candidate.disabled| > 0 {
          doc := doc[DISABLED_KEY := Parks(candidate.disabled)];
        } else {
          doc := doc - {DISABLED_KEY};
        }
      }
    }
  }

  class Store {
    const env: Env
    const file: ConfigFile?
    var config: Config
    var targetByRepo: map<string, Target>

    /** The cached targets are what the overlay resolves to, and the file reads back as the overlay on both edited keys. */
    ghost predicate Synced()
      reads this, file
    {
      && targetByRepo == ByRepo(Targets(config))
      && (file != null ==> TypesOf(file.doc) == config.agent.types && DisabledOf(file.doc) == config.disabled)
    }

    /** Besides, the overlay would boot. */
    ghost predicate Valid()
      reads this, file
    {
      Synced() && Bootable(config, env)
    }

    ghost function Footprint(): set<object> {
      {this} + if file == null then {} else {file}
    }

    constructor (config: Config, env: Env, file: ConfigFile?)
      requires Bootable(config, env)
      requires file != null ==> TypesOf(file.doc) == config.agent.types && DisabledOf(file.doc) == config.disabled
      ensures Valid() && this.config == config && this.env == env && this.file == file
    {
      this.config, this.env, this.file := config, env, file;
      targetByRepo := ByRepo(Targets(config));
    }

    /** Write the edited key through, where a file is wired. */
    method Persist(candidate: Config, edit: Edit, persists: bool) returns (ok: bool)
      modifies if file == null then {} else {file}
      ensures ok <==> persists || file == null
      ensures file != null ==> file.doc == if ok then Edited(old(file.doc), candidate, edit) else old(file.doc)
    {
      ok := true;
      if file != null {
        file.WriteThrough(candidate, edit, persists);
        ok := persists;
      }
    }

    /** Write through first, then commit: the overlay moves only once the file has. */
    method Commit(candidate: Config, targets: seq<Target>, edit: Edit, persists: bool) returns (ok: bool)
      requires Synced() && candidate == Candidate(config, edit) && targets == Targets(candidate)
      modifies Footprint()
      ensures Synced()
      ensures ok <==> persists || file == null
      ensures config == if ok then candidate else old(config)
      ensures !ok ==> targetByRepo == old(targetByRepo)
      ensures file != null ==> file.doc == if ok then Edited(old(file.doc), candidate, edit) else old(file.doc)
    {
      if file != null {
        EditReadsBack(file.doc, candidate, edit);
      }
      ok := Persist(candidate, edit, persists);
      if ok {
        config := candidate;
        targetByRepo := ByRepo(targets);
      }
    }

    /** Validate, write through, then commit; a failure on the way leaves everything as it was. */
    method ValidateAndCommit(candidate: Config, edit: Edit, persists: bool) returns (r: Outcome)
      requires Synced() && candidate == Candidate(config, edit)
      modifies Footprint()
      ensures Synced()
      ensures r.Applied? <==> Bootable(candidate, env) && (persists || file == null)
      ensures config == if r.Applied? then candidate else old(config)
      ensures r.Rejected? ==> targetByRepo == old(targetByRepo)
      ensures file != null ==> file.doc == if r.Applied? then Edited(old(file.doc), Candidate(old(config), edit), edit) else old(file.doc)
      ensures r.Rejected? ==> (r.why.Invalid? && Explains(candidate, env, r.why.error)) || r.why.NotPersisted?
    {
      var targets := ResolveTargets(candidate, env);
      if targets.Err? {
        return Rejected(Invalid(targets.error));
      }
      var ok := Commit(candidate, targets.value, edit, persists);
      r := if ok then Applied(false) else Rejected(NotPersisted);
    }

    /** The first provider of the edited base list that the type may not use. */
    method FirstIncapable(t: AgentType, entries: seq<Provider>, providers: map<Provider, Block>) returns (p: Option<Provider>)
      ensures p.None? <==> forall q | q in entries :: CapabilityOk(t, q, providers)
      ensures p.Some? ==> p.value in entries && !CapabilityOk(t, p.value, providers)
    {
      for i := 0 to |entries|
        invariant forall k | 0 <= k < i :: CapabilityOk(t, entries[k], providers)
      {
        if !CapabilityOk(t, entries[i], providers) {
          return Some(entries[i]);
        }
      }
      p := None;
    }

    /** An edit is applied exactly when it is acceptable and can be persisted; a rejected edit changes nothing. */
    method ApplyEdit(edit: Edit, persists: bool) returns (r: Outcome)
      requires Valid()
      modifies Footprint()
      ensures Valid()
      ensures r.Applied? <==> Accepted(old(config), env, edit, persists || file == null)
      ensures r.Applied? ==> r.cleared == (edit.TypeEdit? && edit.routing.None?)
      ensures config == After(old(config), env, edit, persists || file == null)
      ensures r.Applied? && edit.AccountEdit? ==>
                && (edit.id in config.disabled <==> !edit.enabled)
                && (forall id | id != edit.id :: id in config.disabled <==> id in old(config).disabled)
                && config == old(config).(disabled := config.disabled) && targetByRepo == old(targetByRepo)
      ensures r.Applied? && edit.TypeEdit? ==>
                && (edit.agentType in config.agent.types <==> edit.routing.Some?)
                && (edit.routing.Some? ==> config.agent.types[edit.agentType] == edit.routing.value)
                && (forall t | t != edit.agentType :: SameRouting(t, config.agent, old(config).agent))
                && config == old(config).(agent := old(config).agent.(types := config.agent.types))
      ensures r.Rejected? ==> targetByRepo == old(targetByRepo)
      ensures file != null ==> file.doc == if r.Applied? then Edited(old(file.doc), Candidate(old(config), edit), edit) else old(file.doc)
    {
      var candidate := Candidate(config, edit);
      match edit {
        case AccountEdit(id, _) =>
          if id !in PoolIds(config) {
            return Rejected(UnknownAccount(id));
          }
        case TypeEdit(t, Some(_)) =>
          var p := FirstIncapable(t, PreferenceList(candidate.agent, t, NoPhase, None), candidate.providers);
          if p.Some? {
            return Rejected(NotCapable(p.value));
          }
        case TypeEdit(_, None) =>
      }
      EditMeaning(config, edit);
      r := ValidateAndCommit(candidate, edit, persists);
      if r.Applied? {
        r := Applied(edit.TypeEdit? && edit.routing.None?);
      }
    }

    /** The live routing of a repo: its own target's, or the global one for a repo the store does not know. */
    method RoutingFor(repo: string) returns (agent: Agent)
      requires Valid()
      ensures forall t | t in Targets(config) && t.repo == repo :: agent == t.agent
      ensures (forall t | t in Targets(config) :: t.repo != repo) ==> agent == config.agent
    {
      ByRepoFinds(Targets(config));
      assert forall i | 0 <= i < |Targets(config)| :: Repos(config)[i] == Targets(config)[i].repo;
      agent := if repo in targetByRepo then targetByRepo[repo].agent else config.agent;
    }
  }

  lemma {:induction false} ByRepoFinds(targets: seq<Target>)
    ensures forall repo :: repo in ByRepo(targets) ==> ByRepo(targets)[repo] in targets && ByRepo(targets)[repo].repo == repo
    ensures forall t | t in targets :: t.repo in ByRepo(targets)
    ensures (forall i, j | 0 <= i < j < |targets| :: targets[i].repo != targets[j].repo) ==>
              forall t | t in targets :: ByRepo(targets)[t.repo] == t
  {
    if targets != [] {
      var front, last := targets[..|targets| - 1], targets[|targets| - 1];
      ByRepoFinds(front);
      assert targets == front + [last];
    }
  }

  // ---------------------------------------------------------------- over any sequence of edits

  /** Edits in turn, each with whether its write would succeed. */
  ghost function AfterAll(config: Config, env: Env, edits: seq<(Edit, bool)>): Config
    decreases edits
  {
    if edits == [] then config else AfterAll(After(config, env, edits[0].0, edits[0].1), env, edits[1..])
  }

  /** Whatever is edited and whatever fails to persist, the overlay would boot, and the account pool stands. */
  lemma {:induction false} EditsStayBootable(config: Config, env: Env, edits: seq<(Edit, bool)>)
    requires Bootable(config, env)
    ensures Bootable(AfterAll(config, env, edits), env)
    ensures Pool(AfterAll(config, env, edits)) == Pool(config)
    decreases edits
  {
    if edits != [] {
      EditsStayBootable(After(config, env, edits[0].0, edits[0].1), env, edits[1..]);
    }
  }

  /** Whether the last applied edit of an account enabled it, if any edit of it was applied. */
  ghost function LastApplied(config: Config, env: Env, edits: seq<(Edit, bool)>, id: string): Option<bool>
    decreases edits
  {
    if edits == [] then None
    else
      var (edit, persists) := edits[0];
      var later := LastApplied(After(config, env, edit, persists), env, edits[1..], id);
      if later.Some? then later
      else if edit.AccountEdit? && edit.id == id && Accepted(config, env, edit, persists) then Some(edit.enabled)
      else None
  }

  /** After any edits an account is parked exactly if the last applied edit of it parked it, or none was and it was parked at first. */
  lemma {:induction false} ParkedByLastEdit(config: Config, env: Env, edits: seq<(Edit, bool)>, id: string)
    ensures id in AfterAll(config, env, edits).disabled <==>
              match LastApplied(config, env, edits, id) case Some(enabled) => !enabled case None => id in config.disabled
    decreases edits
  {
    if edits != [] {
      var (edit, persists) := edits[0];
      EditMeaning(config, edit);
      ParkedByLastEdit(After(config, env, edit, persists), env, edits[1..], id);
    }
  }

  /** What the last applied edit of a type gave it, if any edit of it was applied. */
  ghost function LastRouting(config: Config, env: Env, edits: seq<(Edit, bool)>, t: AgentType): Option<Option<Routing>>
    decreases edits
  {
    if edits == [] then None
    else
      var (edit, persists) := edits[0];
      var later := LastRouting(After(config, env, edit, persists), env, edits[1..], t);
      if later.Some? then later
      else if edit.TypeEdit? && edit.agentType == t && Accepted(config, env, edit, persists) then Some(edit.routing)
      else None
  }

  function RoutingOf(agent: Agent, t: AgentType): Option<Routing> { if t in agent.types then Some(agent.types[t]) else None }

  /** After any edits a type reads what the last applied edit of it gave it, or what it read at first. */
  lemma {:induction false} RoutedByLastEdit(config: Config, env: Env, edits: seq<(Edit, bool)>, t: AgentType)
    ensures RoutingOf(AfterAll(config, env, edits).agent, t) ==
              match LastRouting(config, env, edits, t) case Some(routing) => routing case None => RoutingOf(config.agent, t)
    decreases edits
  {
    if edits != [] {
      var (edit, persists) := edits[0];
      EditMeaning(config, edit);
      RoutedByLastEdit(After(config, env, edit, persists), env, edits[1..], t);
    }
  }

  /** The pool account a dispatch is handed: the provider's first that is not parked right now. */
  function FirstEnabled(accounts: seq<Account>, disabled: string -> bool): Option<Account> {
    if accounts == [] then None
    else if !disabled(accounts[0].id) then Some(accounts[0])
    else FirstEnabled(accounts[1..], disabled)
  }

  /** The daemon's account source, built once from the pool it booted with. */
  class RouteWorld {
    const byProvider: map<Provider, seq<Account>>
    const meter: Meter

    constructor (pool: seq<Account>, meter: Meter)
      ensures this.meter == meter && forall p :: (if p in byProvider then byProvider[p] else []) == Slice(pool, p)
    {
      var grouped, _ := GroupByProvider(pool);
      byProvider, this.meter := grouped, meter;
    }

    /**
     * A claude dispatch is bound to the meter's login, one with headroom whenever an enabled one
     * has it, and fails exactly when every login is parked; any other to its first enabled account.
     */
    method AcquireAccount(p: Provider, disabled: string -> bool, now: int, admitBelow: real) returns (r: Option<Account>)
      requires meter.Valid()
      modifies if p.Claude? then {meter} else {}
      ensures meter.Valid() && meter.states == old(meter.states)
      ensures !p.Claude? ==> r == FirstEnabled(if p in byProvider then byProvider[p] else [], disabled)
      ensures p.Claude? ==> (r.None? <==> forall id | id in Ids(meter.tokens) :: disabled(id))
      ensures p.Claude? && r.Some? ==>
                && r.value.id in Ids(meter.tokens) && !disabled(r.value.id) && r.value.provider == Claude
                && (meter.HasHeadroom(r.value.id, now, admitBelow) <==> meter.SomeHeadroom(disabled, now, admitBelow))
    {
      if p.Claude? {
        UsageMeter.AllDisabled(Ids(meter.tokens), disabled);
        var token := meter.Acquire(disabled, now, admitBelow);
        if disabled(token.id) {
          return None;
        }
        return Some(Account(token.id, Claude, if token.configDir.Some? then token.configDir.value else ""));
      }
      var accounts := if p in byProvider then byProvider[p] else [];
      for i := 0 to |accounts|
        invariant FirstEnabled(accounts, disabled) == FirstEnabled(accounts[i..], disabled)
      {
        assert accounts[i..][1..] == accounts[i + 1..];
        if !disabled(accounts[i].id) {
          return Some(accounts[i]);
        }
      }
      assert accounts[|accounts|..] == [];
      r := None;
    }
  }

  lemma {:induction false} FirstEnabledIsFiltered(accounts: seq<Account>, keep: Account -> bool, disabled: string -> bool)
    requires forall a | a in accounts :: keep(a) == !disabled(a.id)
    ensures FirstEnabled(accounts, disabled) == if Filter(accounts, keep) == [] then None else Some(Filter(accounts, keep)[0])
  {
    if accounts != [] {
      assert accounts[0] in accounts;
      FirstEnabledIsFiltered(accounts[1..], keep, disabled);
    }
  }

  /**
   * After any sequence of edits, for every endpoint provider any list of any target can select at
   * dispatch, a master's included, the source built at boot hands out an enabled account of that provider.
   */
  lemma DispatchAfterEdits(config: Config, env: Env, edits: seq<(Edit, bool)>, target: Target, t: AgentType, phase: Phase, tier: Option<Tier>, p: Provider)
    requires Bootable(config, env)
    requires target in Targets(AfterAll(config, env, edits)) && Dispatchable(target.agent, t, tier) && !p.Claude?
    requires p in PreferenceList(target.agent, t, phase, tier)
    ensures var now := AfterAll(config, env, edits);
            var r := FirstEnabled(Slice(Pool(config), p), (id: string) => id in now.disabled);
            r.Some? && r.value in Pool(config) && r.value.provider == p && r.value.id !in now.disabled
  {
    var now := AfterAll(config, env, edits);
    EditsStayBootable(config, env, edits);
    BootableDispatches(now, env, target, t, phase, tier, p);
    FirstEnabledIsFiltered(Slice(Pool(now), p), IsEnabled(now), (id: string) => id in now.disabled);
    assert EnabledOf(now, p)[0] in EnabledOf(now, p);
  }

  /** No edit can park the last enabled account of an endpoint provider some target selects. */
  lemma LastAccountStays(config: Config, env: Env, id: string, persists: bool, target: Target, t: AgentType, p: Provider)
    requires target in Targets(config) && t in TYPES && p in AllPreferenceLists(target.agent, t) && !p.Claude?
    requires EnabledOf(Candidate(config, AccountEdit(id, false)), p) == []
    ensures !Accepted(config, env, AccountEdit(id, false), persists)
  {
    var candidate := Candidate(config, AccountEdit(id, false));
    SameTargets(config, candidate);
    if Bootable(candidate, env) {
      SelectedHasEnabled(candidate, env, target, t, p);
    }
  }

  lemma SelectedHasEnabled(config: Config, env: Env, target: Target, t: AgentType, p: Provider)
    requires Bootable(config, env) && target in Targets(config) && t in TYPES && !p.Claude?
    requires p in AllPreferenceLists(target.agent, t)
    ensures EnabledOf(config, p) != []
  {
    WalkIsComplete(target.agent, t, p);
    var phase, tier :| p in PreferenceList(target.agent, t, phase, tier);
    BootableDispatches(config, env, target, t, phase, tier, p);
  }
}
