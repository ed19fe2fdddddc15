/**
 StdKvEndpointClientManager (sdk/couchbase-core/src/kvendpointclientmanager.rs): one client pool per
 endpoint, a locked map of pools and a published snapshot of it that operations read without a lock.
 Pools are named by identifiers that are never reused.
 */
module EndpointPools {
  import opened Common

  type PoolId = nat

  datatype Target = Target(host: string, port: nat, tls: bool)

  /**
   A pool serves one endpoint all its life, so `targets` records where the endpoint's pool connects to.
   `created` and `closed` are history: every pool made so far, and how often each pool was closed.
   */
  datatype Pools = Pools(
    mapped: map<Endpoint, PoolId>,
    published: map<Endpoint, PoolId>,
    targets: map<Endpoint, Target>,
    created: set<PoolId>,
    closed: multiset<PoolId>)

  const NoPools: Pools := Pools(map[], map[], map[], {}, multiset{})

  predicate Injective(m: map<Endpoint, PoolId>) {
    forall e, f :: e in m && f in m && m[e] == m[f] ==> e == f
  }

  // ---------------------------------------------------------------- the update as a function

  /** Pool names for the endpoints that have no pool yet. */
  predicate FreshFor(a: Pools, endpoints: map<Endpoint, Target>, names: map<Endpoint, PoolId>) {
    && names.Keys == endpoints.Keys - a.mapped.Keys
    && Injective(names)
    && forall e :: e in names ==> names[e] !in a.created
  }

  /** The pool of each requested endpoint: the one it has, or a new one. */
  function Assigned(a: Pools, endpoints: map<Endpoint, Target>, names: map<Endpoint, PoolId>): map<Endpoint, PoolId>
  {
    map e | e in endpoints && (e in a.mapped || e in names) :: if e in a.mapped then a.mapped[e] else names[e]
  }

  /** The pools of endpoints that are no longer requested. */
  function Leftover(a: Pools, endpoints: map<Endpoint, Target>): map<Endpoint, PoolId> {
    map e | e in a.mapped && e !in endpoints :: a.mapped[e]
  }

  /** New pools exist and kept pools have their new target; nothing is mapped or published yet. */
  function Prepare(a: Pools, endpoints: map<Endpoint, Target>, names: map<Endpoint, PoolId>): Pools
  {
    a.(targets := a.targets + endpoints, created := a.created + names.Values)
  }

  function Close(a: Pools, pool: PoolId): Pools {
    a.(closed := a.closed + multiset{pool})
  }

  function Install(a: Pools, pools: map<Endpoint, PoolId>): Pools {
    a.(mapped := pools, published := pools)
  }

  /** The map to be installed: in add-only mode the leftover pools stay. */
  function NewMap(a: Pools, endpoints: map<Endpoint, Target>, addOnly: bool, names: map<Endpoint, PoolId>)
    : map<Endpoint, PoolId>
  {
    if addOnly then Assigned(a, endpoints, names) + Leftover(a, endpoints) else Assigned(a, endpoints, names)
  }

  /** The pools to be closed: in full mode the leftover ones. */
  function Dropped(a: Pools, endpoints: map<Endpoint, Target>, addOnly: bool): set<PoolId> {
    if addOnly then {} else Leftover(a, endpoints).Values
  }

  /** The effect of the whole call, for some choice of new pool names. */
  function Update(a: Pools, endpoints: map<Endpoint, Target>, addOnly: bool, names: map<Endpoint, PoolId>): Pools
  {
    var prepared := Prepare(a, endpoints, names);
    Install(
      prepared.(closed := a.closed + multiset(Dropped(a, endpoints, addOnly))),
      NewMap(a, endpoints, addOnly, names))
  }

  // ---------------------------------------------------------------- conservation

  /** Every pool ever created is mapped or closed, never both; no pool is closed twice or mapped twice. */
  ghost predicate Conserved(a: Pools) {
    && Injective(a.mapped)
    && (forall e :: e in a.mapped ==> a.mapped[e] in a.created && a.closed[a.mapped[e]] == 0)
    && (forall p :: p in a.closed ==> p in a.created && a.closed[p] == 1)
    && (forall p :: p in a.created ==> p in a.closed || p in a.mapped.Values)
  }

  lemma AssignedInjective(a: Pools, endpoints: map<Endpoint, Target>, names: map<Endpoint, PoolId>)
    requires FreshFor(a, endpoints, names) && Conserved(a)
    ensures Injective(Assigned(a, endpoints, names))
    ensures Injective(Assigned(a, endpoints, names) + Leftover(a, endpoints))
  {}

  /** Pool conservation: one update, in either mode, keeps the balance. */
  lemma UpdateConserves(a: Pools, endpoints: map<Endpoint, Target>, addOnly: bool, names: map<Endpoint, PoolId>)
    requires FreshFor(a, endpoints, names) && Conserved(a)
    ensures Conserved(Update(a, endpoints, addOnly, names))
  {
    var b := Update(a, endpoints, addOnly, names);
    AssignedInjective(a, endpoints, names);
    forall e | e in b.mapped
      ensures b.mapped[e] in b.created && b.closed[b.mapped[e]] == 0
    {
      MappedPoolOpen(a, endpoints, addOnly, names, e);
    }
    forall p | p in b.closed
      ensures p in b.created && b.closed[p] == 1
    {
      ClosedPoolOnce(a, endpoints, addOnly, p);
    }
    forall p | p in b.created
      ensures p in b.closed || p in b.mapped.Values
    {
      EveryPoolAccountedFor(a, endpoints, addOnly, names, p);
    }
  }

  /** A pool of the new map exists and is not closed. */
  lemma MappedPoolOpen(
    a: Pools, endpoints: map<Endpoint, Target>, addOnly: bool, names: map<Endpoint, PoolId>, e: Endpoint)
    requires FreshFor(a, endpoints, names) && Conserved(a) && e in NewMap(a, endpoints, addOnly, names)
    ensures var p := NewMap(a, endpoints, addOnly, names)[e];
            p in a.created + names.Values && (a.closed + multiset(Dropped(a, endpoints, addOnly)))[p] == 0
  {
    var p := NewMap(a, endpoints, addOnly, names)[e];
    if e in names {
      assert p == names[e] && p in names.Values && p !in a.closed;
      assert p !in Leftover(a, endpoints).Values;
    } else {
      assert p == a.mapped[e];
      assert !addOnly ==> p !in Leftover(a, endpoints).Values;
    }
  }

  /** A closed pool existed and is closed once. */
  lemma ClosedPoolOnce(a: Pools, endpoints: map<Endpoint, Target>, addOnly: bool, p: PoolId)
    requires Conserved(a) && p in a.closed + multiset(Dropped(a, endpoints, addOnly))
    ensures p in a.created && (a.closed + multiset(Dropped(a, endpoints, addOnly)))[p] == 1
  {
    if p in Dropped(a, endpoints, addOnly) {
      var e :| e in Leftover(a, endpoints) && Leftover(a, endpoints)[e] == p;
      assert a.mapped[e] == p && a.closed[p] == 0;
    }
  }

  lemma EveryPoolAccountedFor(
    a: Pools, endpoints: map<Endpoint, Target>, addOnly: bool, names: map<Endpoint, PoolId>, p: PoolId)
    requires FreshFor(a, endpoints, names) && Conserved(a)
    requires p in a.created + names.Values
    ensures p in a.closed + multiset(Dropped(a, endpoints, addOnly)) || p in NewMap(a, endpoints, addOnly, names).Values
  {
    var pools := NewMap(a, endpoints, addOnly, names);
    if p in names.Values {
      var e :| e in names && names[e] == p;
      assert e in pools && pools[e] == p;
    } else if p !in a.closed {
      var e :| e in a.mapped && a.mapped[e] == p;
      if e in pools {
        assert pools[e] == p;
      } else {
        assert Leftover(a, endpoints)[e] == p;
      }
    }
  }

  /** An endpoint kept across an update keeps its pool, and its pool has the new target; a new one gets a new pool. */
  lemma RequestedEndpointsServed(
    a: Pools, endpoints: map<Endpoint, Target>, addOnly: bool, names: map<Endpoint, PoolId>, e: Endpoint)
    requires FreshFor(a, endpoints, names) && Conserved(a)
    requires e in endpoints
    ensures var b := Update(a, endpoints, addOnly, names);
            && e in b.published && e in b.targets && b.targets[e] == endpoints[e]
            && (e in a.mapped ==> b.published[e] == a.mapped[e])
            && (e !in a.mapped ==> b.published[e] !in a.created)
  {
    assert e in Assigned(a, endpoints, names);
  }

  /** A sequence of calls to the manager. */
  datatype Request = Request(endpoints: map<Endpoint, Target>, addOnly: bool, names: map<Endpoint, PoolId>)

  /** The manager after a sequence of calls; a choice of names that are not new is no call at all. */
  ghost function After(requests: seq<Request>): Pools
    ensures Conserved(After(requests))
  {
    if requests == [] then NoPools
    else
      var a, q := After(requests[..|requests| - 1]), requests[|requests| - 1];
      if FreshFor(a, q.endpoints, q.names) then
        UpdateConserves(a, q.endpoints, q.addOnly, q.names);
        Update(a, q.endpoints, q.addOnly, q.names)
      else a
  }

  // ---------------------------------------------------------------- add-only then full

  /**
   Add-only followed by full with the same endpoints is one full update, up to the names of new pools:
   it needs no new pool in the second call, closes the same pools, serves the same endpoints with the
   same targets, and with the same names gives the same state.
   */
  lemma TwoPhaseEqualsOne(a: Pools, endpoints: map<Endpoint, Target>, names: map<Endpoint, PoolId>)
    requires FreshFor(a, endpoints, names)
    ensures var m := Update(a, endpoints, true, names);
            FreshFor(m, endpoints, map[]) && Update(m, endpoints, false, map[]) == Update(a, endpoints, false, names)
  {
    var m := Update(a, endpoints, true, names);
    AfterAddOnly(a, endpoints, names);
    SecondPhase(a, m, endpoints, names);
  }

  lemma AfterAddOnly(a: Pools, endpoints: map<Endpoint, Target>, names: map<Endpoint, PoolId>)
    requires FreshFor(a, endpoints, names)
    ensures var m := Update(a, endpoints, true, names);
            && FreshFor(m, endpoints, map[])
            && Assigned(m, endpoints, map[]) == Assigned(a, endpoints, names)
            && Leftover(m, endpoints) == Leftover(a, endpoints)
            && m.targets == a.targets + endpoints && m.created == a.created + names.Values && m.closed == a.closed
  {
    var m := Update(a, endpoints, true, names);
    AddOnlyKeys(a, endpoints, names);
    AddOnlyMaps(a, m, endpoints, names);
  }

  lemma AddOnlyKeys(a: Pools, endpoints: map<Endpoint, Target>, names: map<Endpoint, PoolId>)
    requires FreshFor(a, endpoints, names)
    ensures var m := Update(a, endpoints, true, names);
            m.mapped.Keys == endpoints.Keys + a.mapped.Keys && FreshFor(m, endpoints, map[])
  {
    var m := Update(a, endpoints, true, names);
    assert m.mapped.Keys == endpoints.Keys + a.mapped.Keys;
    var none: map<Endpoint, PoolId> := map[];
    assert endpoints.Keys - m.mapped.Keys == none.Keys;
  }

  lemma AddOnlyMaps(a: Pools, m: Pools, endpoints: map<Endpoint, Target>, names: map<Endpoint, PoolId>)
    requires m.mapped == Assigned(a, endpoints, names) + Leftover(a, endpoints)
    requires m.mapped.Keys == endpoints.Keys + a.mapped.Keys
    ensures Assigned(m, endpoints, map[]) == Assigned(a, endpoints, names)
    ensures Leftover(m, endpoints) == Leftover(a, endpoints)
  {
    assert Assigned(m, endpoints, map[]).Keys == Assigned(a, endpoints, names).Keys;
    assert Leftover(m, endpoints).Keys == Leftover(a, endpoints).Keys;
  }

  lemma SecondPhase(a: Pools, m: Pools, endpoints: map<Endpoint, Target>, names: map<Endpoint, PoolId>)
    requires FreshFor(a, endpoints, names) && FreshFor(m, endpoints, map[])
    requires Assigned(m, endpoints, map[]) == Assigned(a, endpoints, names)
    requires Leftover(m, endpoints) == Leftover(a, endpoints)
    requires m.targets == a.targets + endpoints && m.created == a.created + names.Values && m.closed == a.closed
    ensures Update(m, endpoints, false, map[]) == Update(a, endpoints, false, names)
  {
    var none: map<Endpoint, PoolId> := map[];
    assert m.created + none.Values == m.created;
    assert m.targets + endpoints == m.targets;
  }

  /** Two choices of names give results that differ only by an injective renaming of the new pools. */
  lemma NamesDoNotMatter(
    a: Pools, endpoints: map<Endpoint, Target>, addOnly: bool, n1: map<Endpoint, PoolId>, n2: map<Endpoint, PoolId>)
    returns (rename: map<PoolId, PoolId>)
    requires FreshFor(a, endpoints, n1) && FreshFor(a, endpoints, n2) && Conserved(a)
    ensures var b, c := NewMap(a, endpoints, addOnly, n1), NewMap(a, endpoints, addOnly, n2);
            && b.Keys == c.Keys
            && (forall e :: e in b ==> b[e] in rename && rename[b[e]] == c[e])
            && (forall p :: p in rename && p in a.created ==> rename[p] == p)
            && (forall p, q :: p in rename && q in rename && rename[p] == rename[q] ==> p == q)
  {
    var b, c := NewMap(a, endpoints, addOnly, n1), NewMap(a, endpoints, addOnly, n2);
    AssignedInjective(a, endpoints, n1);
    AssignedInjective(a, endpoints, n2);
    assert forall e :: e in b && b[e] in a.created ==> c[e] == b[e];
    rename := Renaming(b, c);
  }

  /** The renaming that takes one injective map to another with the same keys. */
  lemma Renaming(b: map<Endpoint, PoolId>, c: map<Endpoint, PoolId>) returns (rename: map<PoolId, PoolId>)
    requires b.Keys == c.Keys && Injective(b) && Injective(c)
    ensures forall e :: e in b ==> b[e] in rename && rename[b[e]] == c[e]
    ensures forall p :: p in rename ==> exists e :: e in b && b[e] == p
    ensures forall p, q :: p in rename && q in rename && rename[p] == rename[q] ==> p == q
  {
    rename := map e | e in b :: b[e] := c[e];
  }

  /** A full update leaves exactly the requested endpoints. */
  lemma FullKeys(a: Pools, endpoints: map<Endpoint, Target>, names: map<Endpoint, PoolId>)
    requires FreshFor(a, endpoints, names)
    ensures var b := Update(a, endpoints, false, names);
            b.mapped.Keys == endpoints.Keys && b.published == b.mapped
  {}

  /** There are always names for the new pools. */
  lemma FreshNames(a: Pools, endpoints: map<Endpoint, Target>) returns (names: map<Endpoint, PoolId>)
    ensures FreshFor(a, endpoints, names)
  {
    var first := UnusedId(a.created);
    names := NamesFrom(endpoints.Keys - a.mapped.Keys, first);
  }

  lemma {:induction false} NamesFrom(endpoints: set<Endpoint>, first: PoolId) returns (names: map<Endpoint, PoolId>)
    ensures names.Keys == endpoints && Injective(names) && forall e :: e in names ==> names[e] >= first
  {
    if endpoints == {} {
      names := map[];
    } else {
      var e :| e in endpoints;
      var others := NamesFrom(endpoints - {e}, first + 1);
      names := others[e := first];
    }
  }

  // ---------------------------------------------------------------- the manager itself

  predicate NamesBelow(created: set<PoolId>, nextId: PoolId) {
    forall p :: p in created ==> p < nextId
  }

  class EndpointClientManager {
    var mapped: map<Endpoint, PoolId>
    var published: map<Endpoint, PoolId>
    var targets: map<Endpoint, Target>
    var created: set<PoolId>
    var closed: multiset<PoolId>
    var nextId: PoolId

    function View(): Pools
      reads this
    {
      Pools(mapped, published, targets, created, closed)
    }

    ghost predicate Valid()
      reads this
    {
      Conserved(View()) && NamesBelow(created, nextId)
    }

    constructor ()
      ensures Valid() && View() == NoPools
    {
      mapped, published, targets, created, closed, nextId := map[], map[], map[], {}, multiset{}, 0;
    }

    /** The state reached when the endpoints in `done` have their pools and `oldPools` are not yet wanted again. */
    ghost predicate Assigning(
      a: Pools, done: map<Endpoint, Target>, names: map<Endpoint, PoolId>,
      newPools: map<Endpoint, PoolId>, oldPools: map<Endpoint, PoolId>)
      reads this
    {
      && NamesBelow(created, nextId) && oldPools == Leftover(a, done)
      && FreshFor(a, done, names) && newPools == Assigned(a, done, names)
      && targets == a.targets + done && created == a.created + names.Values
    }

    /** Keeps and retargets the old pool of one endpoint, or creates a pool. */
    method AssignOne(e: Endpoint, target: Target, newPools: map<Endpoint, PoolId>, oldPools: map<Endpoint, PoolId>,
                     ghost a: Pools, ghost done: map<Endpoint, Target>, ghost names: map<Endpoint, PoolId>)
      returns (newPools': map<Endpoint, PoolId>, oldPools': map<Endpoint, PoolId>, ghost names': map<Endpoint, PoolId>)
      requires Assigning(a, done, names, newPools, oldPools) && e !in done
      modifies this`targets, this`created, this`nextId
      ensures Assigning(a, done[e := target], names', newPools', oldPools')
    {
      MergeExtended(a.targets, done, e, target);
      LeftoverShrinks(a, done, e, target);
      targets := targets[e := target];
      oldPools' := oldPools - {e};
      if e in oldPools {
        AssignKept(a, done, names, e, target);
        newPools', names' := newPools[e := oldPools[e]], names;
      } else {
        AssignNew(a, done, names, e, target, nextId);
        ValuesOfExtended(names, e, nextId);
        newPools', names' := newPools[e := nextId], names[e := nextId];
        created := created + {nextId};
        nextId := nextId + 1;
      }
    }

    /** Drains the locked map, gives all requested endpoints their pools in any order, and returns what is left. */
    method AssignPools(endpoints: map<Endpoint, Target>)
      returns (newPools: map<Endpoint, PoolId>, oldPools: map<Endpoint, PoolId>, ghost names: map<Endpoint, PoolId>)
      requires NamesBelow(created, nextId)
      modifies this`mapped, this`targets, this`created, this`nextId
      ensures Assigning(old(View()), endpoints, names, newPools, oldPools)
    {
      ghost var a := View();
      ghost var done: map<Endpoint, Target> := map[];
      oldPools, mapped := mapped, map[];
      newPools, names := map[], map[];
      NothingAssigned(a);
      var todo := endpoints.Keys;
      while todo != {}
        invariant todo <= endpoints.Keys && done.Keys == endpoints.Keys - todo
        invariant forall e :: e in done ==> done[e] == endpoints[e]
        invariant Assigning(a, done, names, newPools, oldPools)
      {
        var e :| e in todo;
        todo := todo - {e};
        newPools, oldPools, names := AssignOne(e, endpoints[e], newPools, oldPools, a, done, names);
        done := done[e := endpoints[e]];
      }
      assert done == endpoints;
    }

    /** update_endpoints: assign pools, keep or close the leftover ones, install and publish the new map. */
    method UpdateEndpoints(endpoints: map<Endpoint, Target>, addOnly: bool) returns (ghost names: map<Endpoint, PoolId>)
      requires Valid()
      modifies this
      ensures Valid()
      ensures FreshFor(old(View()), endpoints, names)
      ensures View() == Update(old(View()), endpoints, addOnly, names)
    {
      ghost var a := View();
      names := Rebuild(endpoints, addOnly);
      UpdateConserves(a, endpoints, addOnly, names);
    }

    method Rebuild(endpoints: map<Endpoint, Target>, addOnly: bool) returns (ghost names: map<Endpoint, PoolId>)
      requires Injective(mapped) && NamesBelow(created, nextId)
      modifies this
      ensures FreshFor(old(View()), endpoints, names)
      ensures View() == Update(old(View()), endpoints, addOnly, names)
      ensures NamesBelow(created, nextId)
    {
      ghost var a := View();
      var newPools, oldPools;
      newPools, oldPools, names := AssignPools(endpoints);
      if addOnly {
        newPools := newPools + oldPools;
      } else {
        CloseAll(oldPools);
      }
      assert closed == a.closed + multiset(Dropped(a, endpoints, addOnly));
      mapped := newPools;
      published := newPools;
    }

    /** Closes the given pools one by one, in any order. */
    method CloseAll(pools: map<Endpoint, PoolId>)
      requires Injective(pools)
      modifies this`closed
      ensures closed == old(closed) + multiset(pools.Values)
    {
      var todo := pools.Keys;
      ghost var done: set<PoolId> := {};
      while todo != {}
        invariant todo <= pools.Keys
        invariant forall p :: p in done <==> exists e :: e in pools && e !in todo && pools[e] == p
        invariant closed == old(closed) + multiset(done)
      {
        var e :| e in todo;
        todo := todo - {e};
        closed := closed + multiset{pools[e]};
        done := done + {pools[e]};
      }
      assert done == pools.Values;
    }
  }

  lemma LeftoverShrinks(a: Pools, done: map<Endpoint, Target>, e: Endpoint, target: Target)
    requires e !in done
    ensures Leftover(a, done[e := target]) == Leftover(a, done) - {e}
    ensures e in Leftover(a, done) <==> e in a.mapped
    ensures e in a.mapped ==> Leftover(a, done)[e] == a.mapped[e]
  {}

  lemma NothingAssigned(a: Pools)
    ensures var none: map<Endpoint, Target> := map[];
            && Leftover(a, none) == a.mapped && FreshFor(a, none, map[])
            && Assigned(a, none, map[]) == map[] && a.targets + none == a.targets
  {
    var none: map<Endpoint, PoolId> := map[];
    assert none.Keys == {} && none.Values == {};
  }

  lemma AssignKept(a: Pools, done: map<Endpoint, Target>, names: map<Endpoint, PoolId>, e: Endpoint, target: Target)
    requires FreshFor(a, done, names) && e !in done && e in a.mapped
    ensures FreshFor(a, done[e := target], names)
    ensures Assigned(a, done[e := target], names) == Assigned(a, done, names)[e := a.mapped[e]]
  {}

  lemma AssignNew(
    a: Pools, done: map<Endpoint, Target>, names: map<Endpoint, PoolId>, e: Endpoint, target: Target, pool: PoolId)
    requires FreshFor(a, done, names) && e !in done && e !in a.mapped
    requires pool !in a.created + names.Values
    ensures FreshFor(a, done[e := target], names[e := pool])
    ensures Assigned(a, done[e := target], names[e := pool]) == Assigned(a, done, names)[e := pool]
  {
    var names' := names[e := pool];
    assert done[e := target].Keys - a.mapped.Keys == names'.Keys;
    assert forall f :: f in names ==> names[f] in names.Values;
  }

  lemma MergeExtended(targets: map<Endpoint, Target>, done: map<Endpoint, Target>, e: Endpoint, target: Target)
    ensures targets + done[e := target] == (targets + done)[e := target]
  {}

  lemma ValuesOfExtended(m: map<Endpoint, PoolId>, e: Endpoint, pool: PoolId)
    requires e !in m
    ensures m[e := pool].Values == m.Values + {pool}
  {
    var m' := m[e := pool];
    assert e in m' && m'[e] == pool;
    forall p | p in m.Values
      ensures p in m'.Values
    {
      var f :| f in m && m[f] == p;
      assert f in m' && m'[f] == p;
    }
  }
}
