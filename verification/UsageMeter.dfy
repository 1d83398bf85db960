/**
 * The stateful holders of usage: one meter over the logins of a pool, and one meter per
 * provider over the whole account pool. The clock and the live operator-disable predicate
 * are inputs, read afresh by each call.
 */
module UsageMeter {
  import opened Wrappers
  import opened Usage
  import opened Rotation

  datatype Subscription = Subscription(id: string, configDir: Option<string>)

  const DEFAULT_TOKEN := Subscription("default", None)

  function Ids(tokens: seq<Subscription>): (ids: seq<string>)
    ensures |ids| == |tokens| && forall i | 0 <= i < |ids| :: ids[i] == tokens[i].id
  {
    seq(|tokens|, i requires 0 <= i < |tokens| => tokens[i].id)
  }

  function Enabled(ids: seq<string>, disabled: string -> bool): seq<string> {
    if ids == [] then []
    else (if disabled(ids[0]) then [] else [ids[0]]) + Enabled(ids[1..], disabled)
  }

  lemma {:induction false} EnabledMembers(ids: seq<string>, disabled: string -> bool)
    requires Distinct(ids)
    ensures forall id :: id in Enabled(ids, disabled) <==> id in ids && !disabled(id)
    ensures Distinct(Enabled(ids, disabled))
  {
    if ids != [] {
      EnabledMembers(ids[1..], disabled);
      assert forall id :: id in ids[1..] ==> id != ids[0];
    }
  }

  class Meter {
    const tokens: seq<Subscription>
    const rotateEvery: Option<int>
    var states: Logins
    var activeId: string
    var lastRotate: int

    ghost predicate Valid()
      reads this
    {
      tokens != [] && Distinct(Ids(tokens)) && activeId in Ids(tokens)
    }

    /** The logins not parked by the operator right now. */
    ghost function Selectable(disabled: string -> bool): seq<string> {
      Enabled(Ids(tokens), disabled)
    }

    ghost predicate HasHeadroom(id: string, now: int, admitBelow: real)
      reads this
    {
      Admits(StateOf(states, id), now, admitBelow)
    }

    ghost predicate SomeHeadroom(disabled: string -> bool, now: int, admitBelow: real)
      reads this
    {
      exists id | id in Ids(tokens) && !disabled(id) :: HasHeadroom(id, now, admitBelow)
    }

    constructor (tokens: seq<Subscription>, rotateEvery: Option<int>, now: int)
      requires Distinct(Ids(tokens))
      ensures Valid() && states == map[] && lastRotate == now
      ensures this.tokens == (if tokens == [] then [DEFAULT_TOKEN] else tokens) && this.rotateEvery == rotateEvery
      ensures activeId == this.tokens[0].id
    {
      this.tokens := if tokens == [] then [DEFAULT_TOKEN] else tokens;
      this.rotateEvery := rotateEvery;
      states, lastRotate := map[], now;
      activeId := if tokens == [] then DEFAULT_TOKEN.id else tokens[0].id;
      new;
      assert Ids(this.tokens)[0] == activeId;
    }

    /**
     * Re-evaluate the active pointer. Whenever some login is enabled, the pointer ends on
     * an enabled one, and on a gated one only if every enabled login is gated.
     */
    method Select(disabled: string -> bool, now: int, admitBelow: real) returns (flip: Option<(string, string)>)
      requires Valid()
      modifies this`activeId, this`lastRotate
      ensures Valid()
      ensures var ids := Selectable(disabled);
              (activeId, lastRotate) ==
                if ids == [] then (old(activeId), old(lastRotate))
                else Picked(ids, GatedAt(states, now, admitBelow),
                            if old(activeId) in ids then old(activeId) else ids[0],
                            old(lastRotate), now, Policy(admitBelow, rotateEvery))
      ensures Selectable(disabled) != [] ==>
                !disabled(activeId) && (HasHeadroom(activeId, now, admitBelow) <==> SomeHeadroom(disabled, now, admitBelow))
      ensures var ids, active := Selectable(disabled), old(activeId);
              |ids| >= 2 && active in ids ==>
                var timeUp := rotateEvery.Some? && now - old(lastRotate) >= rotateEvery.value;
                var must := timeUp || !HasHeadroom(active, now, admitBelow);
                && (!must ==> activeId == active && lastRotate == old(lastRotate))
                && (must && (exists x | x in ids :: x != active && HasHeadroom(x, now, admitBelow)) ==>
                      NextOpen(ids, GatedAt(states, now, admitBelow), active, activeId) && lastRotate == now)
                && (must && (forall x | x in ids :: x == active || !HasHeadroom(x, now, admitBelow)) ==>
                      activeId == active && lastRotate == if timeUp then now else old(lastRotate))
      ensures flip == if activeId == old(activeId) then None else Some((old(activeId), activeId))
    {
      var ids := Enabled(Ids(tokens), disabled);
      if ids == [] {
        return None;
      }
      EnabledMembers(Ids(tokens), disabled);
      var policy := Policy(admitBelow, rotateEvery);
      var from := if activeId in ids then activeId else ids[0];
      var id, clock := PickActiveToken(ids, states, from, lastRotate, now, policy);
      PickFindsHeadroom(ids, GatedAt(states, now, admitBelow), from, lastRotate, now, policy);
      flip := if id == activeId then None else Some((activeId, id));
      activeId, lastRotate := id, clock;
    }

    /** The active login with its store. */
    method ActiveToken() returns (t: Subscription)
      requires Valid()
      ensures t in tokens && t.id == activeId
    {
      var i := 0;
      while tokens[i].id != activeId
        invariant 0 <= i < |tokens|
        invariant activeId !in Ids(tokens)[..i]
        decreases |tokens| - i
      {
        assert activeId in Ids(tokens)[i + 1..] by {
          assert Ids(tokens) == Ids(tokens)[..i] + [Ids(tokens)[i]] + Ids(tokens)[i + 1..];
        }
        i := i + 1;
      }
      t := tokens[i];
    }

    /** Bind a session to the active login, gated or not. */
    method Acquire(disabled: string -> bool, now: int, admitBelow: real) returns (t: Subscription)
      requires Valid()
      modifies this`activeId, this`lastRotate
      ensures Valid() && t in tokens && t.id == activeId
      ensures Selectable(disabled) != [] ==>
                !disabled(t.id) && (HasHeadroom(t.id, now, admitBelow) <==> SomeHeadroom(disabled, now, admitBelow))
    {
      var _ := Select(disabled, now, admitBelow);
      t := ActiveToken();
    }

    /**
     * May new agents launch? The selection and the gate read the clock separately; when both
     * readings agree, the pool pauses exactly when some login is enabled and all of those are gated.
     */
    method Gate(disabled: string -> bool, selectNow: int, gateNow: int, admitBelow: real) returns (r: GateResult)
      requires Valid()
      modifies this`activeId, this`lastRotate
      ensures Valid()
      ensures Selectable(disabled) == [] ==> r.Admit? && activeId == old(activeId)
      ensures Selectable(disabled) != [] ==>
                !disabled(activeId) && (r.Admit? <==> HasHeadroom(activeId, gateNow, admitBelow))
      ensures selectNow == gateNow ==>
                (r.Admit? <==> SomeHeadroom(disabled, gateNow, admitBelow) || Selectable(disabled) == [])
    {
      var _ := Select(disabled, selectNow, admitBelow);
      if Enabled(Ids(tokens), disabled) == [] {
        return Admit;
      }
      r := UsageGate(StateOf(states, activeId), gateNow, admitBelow);
    }

    /**
     * A usable login or nothing: with one clock reading it returns an enabled login with
     * headroom whenever there is one, and `None` exactly when there is none.
     */
    method AcquireIfHeadroom(disabled: string -> bool, selectNow: int, gateNow: int, admitBelow: real)
      returns (t: Option<Subscription>)
      requires Valid()
      modifies this`activeId, this`lastRotate
      ensures Valid()
      ensures t.Some? ==>
                t.value in tokens && t.value.id == activeId &&
                !disabled(t.value.id) && HasHeadroom(t.value.id, gateNow, admitBelow)
      ensures selectNow == gateNow ==> (t.Some? <==> SomeHeadroom(disabled, gateNow, admitBelow))
    {
      EnabledMembers(Ids(tokens), disabled);
      var g := Gate(disabled, selectNow, gateNow, admitBelow);
      if g.Refuse? {
        return None;
      }
      var token := ActiveToken();
      if disabled(token.id) {
        AllDisabled(Ids(tokens), disabled);
        return None;
      }
      assert activeId in Selectable(disabled);
      return Some(token);
    }

    /** Fold a signal into one login's state; every other login keeps its own. */
    method Record(signal: Signal, id: string, now: int)
      requires Valid()
      modifies this`states
      ensures Valid() && states == old(states)[id := RecordRateLimit(StateOf(old(states), id), signal, now)]
    {
      states := states[id := RecordRateLimit(StateOf(states, id), signal, now)];
    }

    method Trip(until: Option<int>, id: string, now: int)
      requires Valid()
      modifies this`states
      ensures Valid() && states == old(states)[id := TripCooldown(StateOf(old(states), id), until, now)]
    {
      states := states[id := TripCooldown(StateOf(states, id), until, now)];
    }
  }

  lemma {:induction false} AllDisabled(ids: seq<string>, disabled: string -> bool)
    ensures Enabled(ids, disabled) == [] <==> forall id | id in ids :: disabled(id)
  {
    if ids != [] {
      AllDisabled(ids[1..], disabled);
      assert ids == [ids[0]] + ids[1..];
    }
  }

  // ---------------------------------------------------------------- one isolated pool per provider

  datatype Provider = Claude | OpenAi | Zai

  /** A credential: its pool id, its provider, and the provider-shaped secret's location. */
  datatype Account = Account(id: string, provider: Provider, credential: string)

  ghost predicate DistinctAccounts(accounts: seq<Account>) {
    forall i, j | 0 <= i < j < |accounts| :: accounts[i].id != accounts[j].id
  }

  function Slice(accounts: seq<Account>, p: Provider): seq<Account> {
    if accounts == [] then []
    else
      var rest := Slice(accounts[..|accounts| - 1], p);
      var last := accounts[|accounts| - 1];
      if last.provider == p then rest + [last] else rest
  }

  lemma {:induction false} SliceMembers(accounts: seq<Account>, p: Provider)
    requires DistinctAccounts(accounts)
    ensures forall a :: a in Slice(accounts, p) <==> a in accounts && a.provider == p
    ensures DistinctAccounts(Slice(accounts, p))
  {
    if accounts != [] {
      var front, last := accounts[..|accounts| - 1], accounts[|accounts| - 1];
      SliceMembers(front, p);
      assert accounts == front + [last];
    }
  }

  function TokensOf(accounts: seq<Account>): (tokens: seq<Subscription>)
    ensures |tokens| == |accounts|
    ensures forall i | 0 <= i < |tokens| :: tokens[i] == Subscription(accounts[i].id, None)
  {
    seq(|accounts|, i requires 0 <= i < |accounts| => Subscription(accounts[i].id, None))
  }

  /** Each account under its id, a later one replacing an earlier one. */
  function ById(accounts: seq<Account>): map<string, Account> {
    if accounts == [] then map[]
    else ById(accounts[..|accounts| - 1])[accounts[|accounts| - 1].id := accounts[|accounts| - 1]]
  }

  lemma {:induction false} ByIdFacts(accounts: seq<Account>)
    requires DistinctAccounts(accounts)
    ensures forall id :: id in ById(accounts) ==> ById(accounts)[id] in accounts && ById(accounts)[id].id == id
    ensures forall a | a in accounts :: a.id in ById(accounts) && ById(accounts)[a.id] == a
  {
    if accounts != [] {
      var front, last := accounts[..|accounts| - 1], accounts[|accounts| - 1];
      ByIdFacts(front);
      assert accounts == front + [last];
      assert forall a | a in front :: a.id != last.id;
    }
  }

  /** Index a pool by id and by provider, keeping pool order within each provider. */
  method GroupByProvider(accounts: seq<Account>) returns (byProvider: map<Provider, seq<Account>>, byId: map<string, Account>)
    ensures byId == ById(accounts)
    ensures forall p :: p in byProvider <==> Slice(accounts, p) != []
    ensures forall p | p in byProvider :: byProvider[p] == Slice(accounts, p)
  {
    byProvider, byId := map[], map[];
    for i := 0 to |accounts|
      invariant byId == ById(accounts[..i])
      invariant forall p :: p in byProvider <==> Slice(accounts[..i], p) != []
      invariant forall p | p in byProvider :: byProvider[p] == Slice(accounts[..i], p)
    {
      var account := accounts[i];
      assert accounts[..i + 1][..i] == accounts[..i];
      byId := byId[account.id := account];
      var slice := if account.provider in byProvider then byProvider[account.provider] else [];
      byProvider := byProvider[account.provider := slice + [account]];
    }
    assert accounts[..|accounts|] == accounts;
  }

  /** A provider's login ids are those of its accounts. */
  lemma SlicedIds(accounts: seq<Account>, p: Provider)
    requires DistinctAccounts(accounts)
    ensures forall a | a in accounts && a.provider == p :: a.id in Ids(TokensOf(Slice(accounts, p)))
    ensures forall t | t in TokensOf(Slice(accounts, p)) :: exists a | a in accounts :: a.provider == p && a.id == t.id
    ensures Slice(accounts, p) == [] ==> forall a | a in accounts :: a.provider != p
  {
    SliceMembers(accounts, p);
    var slice := Slice(accounts, p);
    forall a | a in accounts && a.provider == p
      ensures a.id in Ids(TokensOf(slice))
    {
      var i :| 0 <= i < |slice| && slice[i] == a;
      assert Ids(TokensOf(slice))[i] == a.id;
    }
    forall t | t in TokensOf(slice)
      ensures exists a | a in accounts :: a.provider == p && a.id == t.id
    {
      var i :| 0 <= i < |slice| && TokensOf(slice)[i] == t;
      assert slice[i] in slice;
    }
  }

  /** The logins of each provider's slice, and the accounts by id. */
  method GroupLogins(accounts: seq<Account>) returns (logins: map<Provider, seq<Subscription>>, byId: map<string, Account>)
    requires DistinctAccounts(accounts)
    ensures byId == ById(accounts)
    ensures forall p :: p in logins <==> Slice(accounts, p) != []
    ensures forall p | p in logins :: logins[p] == TokensOf(Slice(accounts, p)) && logins[p] != [] && Distinct(Ids(logins[p]))
  {
    var byProvider, ids := GroupByProvider(accounts);
    byId := ids;
    logins := map p | p in byProvider :: TokensOf(byProvider[p]);
    forall p | p in logins
      ensures Distinct(Ids(logins[p]))
    {
      SliceMembers(accounts, p);
    }
  }

  lemma MembersHaveSlices(accounts: seq<Account>)
    requires DistinctAccounts(accounts)
    ensures forall a | a in accounts :: Slice(accounts, a.provider) != []
  {
    forall a | a in accounts
      ensures Slice(accounts, a.provider) != []
    {
      SliceMembers(accounts, a.provider);
      assert a in Slice(accounts, a.provider);
    }
  }

  /** One fresh meter per provider that has logins. */
  method BuildMeters(logins: map<Provider, seq<Subscription>>, rotateEvery: Option<int>, now: int)
    returns (meters: map<Provider, Meter>)
    requires forall p | p in logins :: logins[p] != [] && Distinct(Ids(logins[p]))
    ensures meters.Keys == logins.Keys
    ensures forall p | p in meters :: fresh(meters[p]) && meters[p].Valid() && meters[p].tokens == logins[p]
    ensures forall p, q | p in meters && q in meters && meters[p] == meters[q] :: p == q
  {
    meters := map[];
    var todo := logins.Keys;
    while todo != {}
      invariant todo <= logins.Keys && meters.Keys == logins.Keys - todo
      invariant forall p | p in meters :: fresh(meters[p]) && meters[p].Valid() && meters[p].tokens == logins[p]
      invariant forall p, q | p in meters && q in meters && meters[p] == meters[q] :: p == q
      decreases todo
    {
      var p :| p in todo;
      label before:
      var meter := new Meter(logins[p], rotateEvery, now);
      assert forall q | q in meters :: old@before(allocated(meters[q]));
      meters, todo := meters[p := meter], todo - {p};
    }
  }

  class ProviderPoolMeter {
    var meters: map<Provider, Meter>
    var accountsById: map<string, Account>
    ghost var pool: seq<Account>

    ghost predicate Valid()
      reads this, meters.Values
    {
      && DistinctAccounts(pool)
      && (forall id :: id in accountsById ==> accountsById[id] in pool && accountsById[id].id == id)
      && (forall a | a in pool :: a.id in accountsById && accountsById[a.id] == a && a.provider in meters)
      && (forall p | p in meters ::
            Slice(pool, p) != [] && meters[p].Valid() && meters[p].tokens == TokensOf(Slice(pool, p)))
      && (forall p, q | p in meters && q in meters && meters[p] == meters[q] :: p == q)
    }

    /** Some enabled account of `p` is below its limits. */
    ghost predicate Available(p: Provider, disabled: string -> bool, now: int, admitBelow: real)
      requires Valid()
      reads this, meters.Values
    {
      exists a | a in pool && a.provider == p && !disabled(a.id) :: meters[p].HasHeadroom(a.id, now, admitBelow)
    }

    constructor (accounts: seq<Account>, rotateEvery: Option<int>, now: int)
      requires DistinctAccounts(accounts)
      ensures Valid() && pool == accounts && forall p | p in meters :: fresh(meters[p])
    {
      pool := accounts;
      var logins, byId := GroupLogins(accounts);
      var built := BuildMeters(logins, rotateEvery, now);
      meters, accountsById := built, byId;
      new;
      ByIdFacts(accounts);
      MembersHaveSlices(accounts);
    }

    /** A login of a provider's meter is an account of that provider. */
    lemma TokenIsAccount(p: Provider, t: Subscription)
      requires Valid() && p in meters && t in meters[p].tokens
      ensures t.id in accountsById && accountsById[t.id] in pool
      ensures accountsById[t.id].id == t.id && accountsById[t.id].provider == p
    {
      SlicedIds(pool, p);
    }

    /** Whatever one provider's meter does to itself, the pools stay as they are. */
    twostate lemma OthersStand(p: Provider)
      requires old(Valid()) && unchanged(this) && p in meters && meters[p].Valid()
      requires forall q | q in meters && q != p :: unchanged(meters[q])
      ensures Valid()
    {
      forall q | q in meters
        ensures Slice(pool, q) != [] && meters[q].Valid() && meters[q].tokens == TokensOf(Slice(pool, q))
      {
        assert q == p || unchanged(meters[q]);
      }
    }

    lemma HeadroomIsAvailable(p: Provider, disabled: string -> bool, now: int, admitBelow: real)
      requires Valid()
      ensures Available(p, disabled, now, admitBelow) <==>
                p in meters && meters[p].SomeHeadroom(disabled, now, admitBelow)
    {
      SlicedIds(pool, p);
    }

    /**
     * An account of this provider that is enabled and, at the gate's clock reading, has headroom;
     * when the selection read the same clock, exactly whenever there is one. A provider with no
     * accounts has none.
     */
    method AcquireAccount(p: Provider, disabled: string -> bool, selectNow: int, gateNow: int, admitBelow: real) returns (r: Option<Account>)
      requires Valid()
      modifies if p in meters then {meters[p]} else {}
      ensures Valid() && meters == old(meters) && accountsById == old(accountsById) && pool == old(pool)
      ensures selectNow == gateNow ==> (r.Some? <==> Available(p, disabled, gateNow, admitBelow))
      ensures r.Some? ==>
                r.value in pool && r.value.provider == p && !disabled(r.value.id) &&
                meters[p].HasHeadroom(r.value.id, gateNow, admitBelow)
      ensures forall q | q in meters :: meters[q].states == old(meters[q].states)
    {
      r := None;
      if p in meters {
        var token := meters[p].AcquireIfHeadroom(disabled, selectNow, gateNow, admitBelow);
        OthersStand(p);
        if token.Some? {
          TokenIsAccount(p, token.value);
          r := if token.value.id in accountsById then Some(accountsById[token.value.id]) else None;
        }
      }
      HeadroomIsAvailable(p, disabled, gateNow, admitBelow);
    }

    /** A signal folds into the named account's provider pool only: no other pool changes. */
    method Record(signal: Signal, accountId: string, now: int)
      requires Valid()
      modifies if accountId in accountsById then {meters[accountsById[accountId].provider]} else {}
      ensures Valid() && meters == old(meters) && accountsById == old(accountsById) && pool == old(pool)
      ensures forall q | q in meters ::
                meters[q].activeId == old(meters[q].activeId) &&
                meters[q].states ==
                  if accountId in accountsById && accountsById[accountId].provider == q
                  then old(meters[q].states)[accountId := RecordRateLimit(StateOf(old(meters[q].states), accountId), signal, now)]
                  else old(meters[q].states)
    {
      if accountId in accountsById {
        meters[accountsById[accountId].provider].Record(signal, accountId, now);
      }
    }
  }
}
