/**
 OnDemandAgentManager (sdk/couchbase-core/src/ondemand_agentmanager.rs): one agent per bucket, created
 by the first caller that needs it.  A locked slow map owns the agents, a notification map says which
 agents are being created, and a published fast map is read without a lock.  Each critical section, each
 load of the fast map and the end of each creation is one atomic step; any number of callers interleave.
 A waiter proceeds only after its bucket's notification has fired.
 */
module AgentManager {
  import Machine
  import opened Wrappers
  import opened Common

  type Bucket = string
  type AgentId = nat
  type CallerId = nat

  datatype Caller =
    | CheckingFast(bucket: Bucket, rounds: nat)  // `rounds` counts the slow loads that returned Ok
    | Loading(bucket: Bucket, rounds: nat)
    | Waiting(bucket: Bucket, rounds: nat)
    | Creating(bucket: Bucket, rounds: nat)
    | Created(bucket: Bucket, agent: AgentId, rounds: nat)
    | Rebuilding(bucket: Bucket, rounds: nat)
    | Returned(bucket: Bucket, agent: AgentId)
    | Failed(bucket: Bucket)

  /** `started`, `notified` and `failures` are history: creations begun, notifications fired, creations failed. */
  datatype System = System(
    fast: map<Bucket, AgentId>, slow: map<Bucket, AgentId>, notif: set<Bucket>, callers: map<CallerId, Caller>,
    started: multiset<Bucket>, notified: set<Bucket>, failures: set<Bucket>)

  datatype Event =
    | Call(caller: CallerId, bucket: Bucket)
    | CheckFast(caller: CallerId)
    | Load(caller: CallerId)
    | Wake(caller: CallerId)
    | CreationEnds(caller: CallerId, agent: AgentId)
    | CreationFails(caller: CallerId)
    | Insert(caller: CallerId)
    | Rebuild(caller: CallerId)

  /** The critical section of load_bucket_agent_slow, under both locks. */
  function AfterLoad(slow: map<Bucket, AgentId>, notif: set<Bucket>, b: Bucket, r: nat): Caller {
    if b in slow then Rebuilding(b, r) else if b in notif then Waiting(b, r) else Creating(b, r)
  }

  function Step(s: System, e: Event): System {
    var c := e.caller;
    if e.Call? then (if c in s.callers then s else s.(callers := s.callers[c := CheckingFast(e.bucket, 0)]))
    else if c !in s.callers then s
    else
      match (e, s.callers[c])
      case (CheckFast(_), CheckingFast(b, r)) =>
        s.(callers := s.callers[c := if b in s.fast then Returned(b, s.fast[b]) else Loading(b, r)])
      case (Load(_), Loading(b, r)) =>
        var next := AfterLoad(s.slow, s.notif, b, r);
        if next.Creating? then
          s.(callers := s.callers[c := next], notif := s.notif + {b}, started := s.started + multiset{b})
        else s.(callers := s.callers[c := next])
      case (Wake(_), Waiting(b, r)) =>
        if b in s.notified then s.(callers := s.callers[c := Rebuilding(b, r)]) else s
      case (CreationEnds(_, a), Creating(b, r)) => s.(callers := s.callers[c := Created(b, a, r)])
      case (CreationFails(_), Creating(b, _)) =>
        s.(callers := s.callers[c := Failed(b)], failures := s.failures + {b})
      case (Insert(_), Created(b, a, r)) =>
        s.(callers := s.callers[c := Rebuilding(b, r)], slow := s.slow[b := a],
           notif := s.notif - {b}, notified := s.notified + {b})
      case (Rebuild(_), Rebuilding(b, r)) => s.(callers := s.callers[c := CheckingFast(b, r + 1)], fast := s.slow)
      case _ => s
  }

  const Initial: System := System(map[], map[], {}, map[], multiset{}, {}, {})

  function Exec(s: System, es: seq<Event>): System {
    Machine.Exec(Step, s, es)
  }

  function Run(es: seq<Event>): System {
    Exec(Initial, es)
  }

  // ---------------------------------------------------------------- invariant

  predicate Owns(state: Caller, b: Bucket) {
    (state.Creating? || state.Created?) && state.bucket == b
  }

  predicate CallerOk(s: System, c: CallerId)
    requires c in s.callers
  {
    match s.callers[c]
    case CheckingFast(b, r) => r == 0 || (r == 1 && b in s.fast)
    case Loading(_, r) => r == 0
    case Creating(b, r) => r == 0 && b in s.notif && b !in s.slow && b !in s.failures
    case Created(b, _, r) => r == 0 && b in s.notif && b !in s.slow && b !in s.failures
    case Rebuilding(b, r) => r == 0 && b in s.slow
    case Returned(b, a) => b in s.slow && s.slow[b] == a
    case Waiting(_, r) => r == 0
    case Failed(_) => true
  }

  ghost predicate SingleCreator(s: System) {
    forall c, d, b :: c in s.callers && d in s.callers && Owns(s.callers[c], b) && Owns(s.callers[d], b) ==> c == d
  }

  ghost predicate MapsOk(s: System) {
    && (forall b :: b in s.fast ==> b in s.slow && s.fast[b] == s.slow[b])
    && (forall b :: b in s.notified ==> b in s.slow)
    && (forall b :: b in s.notif ==> b !in s.slow)
    && (forall b :: b in s.failures ==> b in s.notif)
    && (forall b :: b in s.started <==> b in s.slow || b in s.notif)
    && (forall b :: b in s.started ==> s.started[b] == 1)
  }

  ghost predicate Inv(s: System) {
    MapsOk(s) && SingleCreator(s) && forall c :: c in s.callers ==> CallerOk(s, c)
  }

  lemma InsertInv(s: System, c: CallerId, b: Bucket, a: AgentId, r: nat)
    requires Inv(s) && c in s.callers && s.callers[c] == Created(b, a, r)
    ensures Inv(Step(s, Insert(c)))
  {
    var s' := Step(s, Insert(c));
    assert CallerOk(s, c);
    forall d | d in s'.callers
      ensures CallerOk(s', d)
    {
      assert CallerOk(s, d);
      assert Owns(s.callers[c], b);
      assert d != c ==> !Owns(s.callers[d], b);
    }
  }

  /** A step that only moves one caller, and makes it a creator only if it was one. */
  lemma MoveInv(s: System, c: CallerId, state: Caller)
    requires Inv(s) && (c in s.callers ==> CallerOk(s, c))
    requires CallerOk(s.(callers := s.callers[c := state]), c)
    requires Owns(state, state.bucket) ==> c in s.callers && Owns(s.callers[c], state.bucket)
    ensures Inv(s.(callers := s.callers[c := state]))
  {
    var s' := s.(callers := s.callers[c := state]);
    forall d | d in s'.callers && d != c
      ensures CallerOk(s', d)
    {
      assert CallerOk(s, d);
    }
  }

  lemma NewCreatorInv(s: System, c: CallerId, b: Bucket, r: nat)
    requires Inv(s) && c in s.callers && s.callers[c] == Loading(b, r) && b !in s.slow && b !in s.notif
    ensures Inv(Step(s, Load(c)))
  {
    var s' := Step(s, Load(c));
    forall d | d in s'.callers
      ensures CallerOk(s', d) && (Owns(s'.callers[d], b) ==> d == c)
    {
      assert CallerOk(s, d);
    }
    assert SingleCreator(s');
  }

  lemma CreationFailsInv(s: System, c: CallerId, b: Bucket, r: nat)
    requires Inv(s) && c in s.callers && s.callers[c] == Creating(b, r)
    ensures Inv(Step(s, CreationFails(c)))
  {
    var s' := Step(s, CreationFails(c));
    assert CallerOk(s, c) && Owns(s.callers[c], b);
    forall d | d in s'.callers
      ensures CallerOk(s', d)
    {
      assert CallerOk(s, d);
      assert d != c ==> !Owns(s.callers[d], b);
    }
  }

  lemma RebuildInv(s: System, c: CallerId, b: Bucket, r: nat)
    requires Inv(s) && c in s.callers && s.callers[c] == Rebuilding(b, r)
    ensures Inv(Step(s, Rebuild(c)))
  {
    var s' := Step(s, Rebuild(c));
    assert CallerOk(s, c);
    forall d | d in s'.callers
      ensures CallerOk(s', d)
    {
      assert CallerOk(s, d);
    }
  }

  lemma StepInv(s: System, e: Event)
    requires Inv(s)
    ensures Inv(Step(s, e))
  {
    var c := e.caller;
    if e.Call? && c !in s.callers {
      MoveInv(s, c, CheckingFast(e.bucket, 0));
    } else if !e.Call? && c in s.callers {
      assert CallerOk(s, c);
      match (e, s.callers[c])
      case (Load(_), Loading(b, r)) =>
        if b in s.slow || b in s.notif {
          MoveInv(s, c, AfterLoad(s.slow, s.notif, b, r));
        } else {
          NewCreatorInv(s, c, b, r);
        }
      case (CheckFast(_), CheckingFast(b, r)) =>
        MoveInv(s, c, if b in s.fast then Returned(b, s.fast[b]) else Loading(b, r));
      case (Wake(_), Waiting(b, r)) => if b in s.notified { MoveInv(s, c, Rebuilding(b, r)); }
      case (CreationEnds(_, a), Creating(b, r)) => MoveInv(s, c, Created(b, a, r));
      case (CreationFails(_), Creating(b, r)) => CreationFailsInv(s, c, b, r);
      case (Insert(_), Created(b, a, r)) => InsertInv(s, c, b, a, r);
      case (Rebuild(_), Rebuilding(b, r)) => RebuildInv(s, c, b, r);
      case _ =>
    }
  }

  lemma {:induction false} RunInv(es: seq<Event>)
    ensures Inv(Run(es))
  {
    ExecInv(Initial, es);
  }

  lemma {:induction false} ExecInv(s: System, es: seq<Event>)
    requires Inv(s)
    ensures Inv(Exec(s, es))
  {
    if es != [] {
      ExecInv(s, es[..|es| - 1]);
      StepInv(Exec(s, es[..|es| - 1]), es[|es| - 1]);
    }
  }

  // ---------------------------------------------------------------- nobody waits for nobody

  ghost predicate HasCreator(s: System, b: Bucket) {
    exists c :: c in s.callers && Owns(s.callers[c], b)
  }

  /** Whoever waits for a bucket that has not failed waits for a creation that is under way. */
  ghost predicate CreatorsThere(s: System) {
    forall b :: b in s.notif && b !in s.failures ==> HasCreator(s, b)
  }

  /** A creator remains one until it has failed or the bucket's notification is gone. */
  lemma CreatorStays(s: System, e: Event, c: CallerId, b: Bucket)
    requires c in s.callers && Owns(s.callers[c], b)
    ensures var s' := Step(s, e);
            b !in s'.notif || b in s'.failures || (c in s'.callers && Owns(s'.callers[c], b))
  {}

  lemma CreatorsStep(s: System, e: Event)
    requires CreatorsThere(s)
    ensures CreatorsThere(Step(s, e))
  {
    var s' := Step(s, e);
    forall b | b in s'.notif && b !in s'.failures
      ensures HasCreator(s', b)
    {
      if b in s.notif {
        assert b !in s.failures;
        var c :| c in s.callers && Owns(s.callers[c], b);
        CreatorStays(s, e, c, b);
      } else {
        assert e.caller in s'.callers && Owns(s'.callers[e.caller], b);
      }
    }
  }

  lemma {:induction false} CreatorsExec(s: System, es: seq<Event>)
    requires CreatorsThere(s)
    ensures CreatorsThere(Exec(s, es))
  {
    if es != [] {
      CreatorsExec(s, es[..|es| - 1]);
      CreatorsStep(Exec(s, es[..|es| - 1]), es[|es| - 1]);
    }
  }

  // ---------------------------------------------------------------- main results

  /**
   In every run at most one creation is ever started per bucket, and every handle given out for a bucket is the
   one agent of the slow map.
   */
  lemma OneAgentPerBucket(es: seq<Event>, c: CallerId, d: CallerId)
    requires var s := Run(es);
             && c in s.callers && d in s.callers && s.callers[c].Returned? && s.callers[d].Returned?
             && s.callers[c].bucket == s.callers[d].bucket
    ensures var s := Run(es);
            && s.callers[c].bucket in s.slow && s.callers[c].agent == s.callers[d].agent == s.slow[s.callers[c].bucket]
            && s.started[s.callers[c].bucket] == 1
  {
    RunInv(es);
    assert CallerOk(Run(es), c) && CallerOk(Run(es), d);
  }

  lemma CreationStartsAtMostOnce(es: seq<Event>, b: Bucket)
    ensures Run(es).started[b] <= 1
    ensures forall x :: x in Run(es).fast ==> x in Run(es).slow && Run(es).fast[x] == Run(es).slow[x]
  {
    RunInv(es);
    assert b in Run(es).started || Run(es).started[b] == 0;
  }

  /** A call whose slow load returned Ok returns at its next look at the fast map: no call goes round twice. */
  lemma FinishesWithinOneMoreRound(es: seq<Event>, c: CallerId)
    requires c in Run(es).callers && Run(es).callers[c].CheckingFast? && Run(es).callers[c].rounds > 0
    ensures Step(Run(es), CheckFast(c)).callers[c].Returned?
    ensures Run(es).callers[c].rounds == 1
  {
    RunInv(es);
    assert CallerOk(Run(es), c);
  }

  // ---------------------------------------------------------------- what each caller does

  /** The decision under both locks: an agent that is there, a creation to wait for, or one to start. */
  lemma LoadDecides(s: System, c: CallerId, b: Bucket, r: nat)
    requires c in s.callers && s.callers[c] == Loading(b, r)
    ensures var t := Step(s, Load(c));
            && c in t.callers && t.slow == s.slow && t.fast == s.fast
            && (b in s.slow ==> t.callers[c] == Rebuilding(b, r) && t.notif == s.notif && t.started == s.started)
            && (b !in s.slow && b in s.notif ==>
                  t.callers[c] == Waiting(b, r) && t.notif == s.notif && t.started == s.started)
            && (b !in s.slow && b !in s.notif ==>
                  t.callers[c] == Creating(b, r) && t.notif == s.notif + {b} && t.started[b] == s.started[b] + 1)
  {}

  /** A rebuild publishes the whole slow map. */
  lemma RebuildPublishesAll(s: System, c: CallerId)
    requires c in s.callers && s.callers[c].Rebuilding?
    ensures Step(s, Rebuild(c)).fast == s.slow
  {}

  /** A waiter whose bucket was notified gets the bucket's agent within its next look. */
  lemma WaiterServed(s: System, c: CallerId, b: Bucket)
    requires Inv(s) && c in s.callers && s.callers[c].Waiting? && s.callers[c].bucket == b && b in s.notified
    ensures b in s.slow
    ensures var t := Step(Step(Step(s, Wake(c)), Rebuild(c)), CheckFast(c));
            c in t.callers && t.callers[c] == Returned(b, s.slow[b])
  {
    var u := Step(s, Wake(c));
    assert c in u.callers && u.callers[c].Rebuilding? && u.callers[c].bucket == b && u.slow == s.slow;
    RebuildPublishesAll(u, c);
  }

  /** A call fails only by its own creation. */
  lemma {:induction false} FailsOnlyByOwnCreation(es: seq<Event>, c: CallerId)
    ensures c in Run(es).callers && Run(es).callers[c].Failed? ==> CreationFails(c) in es
  {
    if es != [] {
      var n := |es| - 1;
      FailsOnlyByOwnCreation(es[..n], c);
      FailureStep(Run(es[..n]), es[n], c);
      assert es == es[..n] + [es[n]];
    }
  }

  lemma FailureStep(s: System, e: Event, c: CallerId)
    ensures c in Step(s, e).callers && Step(s, e).callers[c].Failed? ==>
              (c in s.callers && s.callers[c].Failed?) || e == CreationFails(c)
  {}

  /** Some caller's creation for the bucket ended with this agent. */
  ghost predicate MadeFor(s: System, es: seq<Event>, b: Bucket, a: AgentId) {
    exists d :: CreationEnds(d, a) in es && d in s.callers && s.callers[d].bucket == b
  }

  ghost predicate AgentsMade(s: System, es: seq<Event>) {
    && (forall b :: b in s.slow ==> MadeFor(s, es, b, s.slow[b]))
    && (forall c :: c in s.callers && s.callers[c].Created? ==> MadeFor(s, es, s.callers[c].bucket, s.callers[c].agent))
  }

  /** Callers never change their bucket. */
  lemma BucketStays(s: System, e: Event, c: CallerId)
    requires c in s.callers
    ensures c in Step(s, e).callers && Step(s, e).callers[c].bucket == s.callers[c].bucket
  {}

  lemma MadeForStays(s: System, es: seq<Event>, e: Event, b: Bucket, a: AgentId)
    requires MadeFor(s, es, b, a)
    ensures MadeFor(Step(s, e), es + [e], b, a)
  {
    var d :| CreationEnds(d, a) in es && d in s.callers && s.callers[d].bucket == b;
    BucketStays(s, e, d);
    assert CreationEnds(d, a) in es + [e];
  }

  /** What a step adds to the slow map, or makes a created agent, was there before or is made by this step. */
  lemma AgentsMoved(s: System, e: Event)
    ensures var t := Step(s, e);
            && (forall b :: b in t.slow ==>
                  (b in s.slow && s.slow[b] == t.slow[b])
                  || exists c :: c in s.callers && s.callers[c].Created? && s.callers[c].bucket == b
                                 && s.callers[c].agent == t.slow[b])
            && (forall c :: c in t.callers && t.callers[c].Created? ==>
                  c in s.callers && s.callers[c].bucket == t.callers[c].bucket
                  && (s.callers[c] == t.callers[c] || e == CreationEnds(c, t.callers[c].agent)))
  {
    var t := Step(s, e);
    if e.Insert? && e.caller in s.callers && s.callers[e.caller].Created? {
      assert t.slow == s.slow[s.callers[e.caller].bucket := s.callers[e.caller].agent];
    }
  }

  lemma AgentsMadeStep(s: System, es: seq<Event>, e: Event)
    requires AgentsMade(s, es)
    ensures AgentsMade(Step(s, e), es + [e])
  {
    var t := Step(s, e);
    AgentsMoved(s, e);
    forall b | b in t.slow
      ensures MadeFor(t, es + [e], b, t.slow[b])
    {
      MadeForStays(s, es, e, b, t.slow[b]);
    }
    forall c | c in t.callers && t.callers[c].Created?
      ensures MadeFor(t, es + [e], t.callers[c].bucket, t.callers[c].agent)
    {
      if s.callers[c] == t.callers[c] {
        MadeForStays(s, es, e, t.callers[c].bucket, t.callers[c].agent);
      } else {
        assert CreationEnds(c, t.callers[c].agent) in es + [e];
      }
    }
  }

  lemma {:induction false} AgentsMadeRun(es: seq<Event>)
    ensures AgentsMade(Run(es), es)
  {
    if es != [] {
      var n := |es| - 1;
      AgentsMadeRun(es[..n]);
      AgentsMadeStep(Run(es[..n]), es[..n], es[n]);
      assert es == es[..n] + [es[n]];
    }
  }

  /** The handle that a caller gets is the agent that a creation for its bucket ended with. */
  lemma HandleIsTheCreatedAgent(es: seq<Event>, c: CallerId)
    requires c in Run(es).callers && Run(es).callers[c].Returned?
    ensures MadeFor(Run(es), es, Run(es).callers[c].bucket, Run(es).callers[c].agent)
  {
    AgentsMadeRun(es);
    RunInv(es);
    assert CallerOk(Run(es), c);
  }

  // ---------------------------------------------------------------- failed creations

  lemma {:induction false} FailuresPersist(s: System, more: seq<Event>, b: Bucket)
    requires b in s.failures
    ensures b in Exec(s, more).failures
  {
    if more != [] {
      FailuresPersist(s, more[..|more| - 1], b);
    }
  }

  /** Some caller has got an agent for the bucket. */
  predicate Serves(s: System, c: CallerId, b: Bucket) {
    c in s.callers && s.callers[c].Returned? && s.callers[c].bucket == b
  }

  /**
   A failed creation leaves its notification entry behind.  From then on, in every continuation, the
   bucket has no agent, no second creation starts, no waiter can proceed and no call for it returns one.
   */
  lemma FailedBucketStaysWithoutAgent(s: System, more: seq<Event>, b: Bucket)
    requires Inv(s) && b in s.failures
    ensures var t := Exec(s, more);
            && b in t.notif && b !in t.slow && b !in t.notified && t.started[b] == 1
            && forall c :: !Serves(t, c, b)
  {
    FailuresPersist(s, more, b);
    ExecInv(s, more);
    var t := Exec(s, more);
    forall c
      ensures !Serves(t, c, b)
    {
      assert c in t.callers ==> CallerOk(t, c);
    }
  }

  /** Some continuation gives some caller an agent for the bucket. */
  ghost predicate Servable(s: System, b: Bucket) {
    exists more, c :: Serves(Exec(s, more), c, b)
  }

  /** What can be served after a step can be served before it. */
  lemma ServableBefore(s: System, e: Event, b: Bucket)
    requires Servable(Step(s, e), b)
    ensures Servable(s, b)
  {
    var more, c :| Serves(Exec(Step(s, e), more), c, b);
    Machine.ExecCons(Step, s, e, more);
    assert Serves(Exec(s, [e] + more), c, b);
  }

  lemma FastServes(s: System, c: CallerId, b: Bucket)
    requires c in s.callers && s.callers[c].CheckingFast? && s.callers[c].bucket == b && b in s.fast
    ensures Servable(s, b)
  {
    var t := Step(s, CheckFast(c));
    assert Serves(Exec(t, []), c, b);
    ServableBefore(s, CheckFast(c), b);
  }

  lemma RebuildingServes(s: System, c: CallerId, b: Bucket)
    requires c in s.callers && s.callers[c].Rebuilding? && s.callers[c].bucket == b && b in s.slow
    ensures Servable(s, b)
  {
    FastServes(Step(s, Rebuild(c)), c, b);
    ServableBefore(s, Rebuild(c), b);
  }

  /** A creation under way can succeed and be served. */
  lemma CreatorServes(s: System, c: CallerId, b: Bucket)
    requires c in s.callers && Owns(s.callers[c], b)
    ensures Servable(s, b)
  {
    if s.callers[c].Creating? {
      var t := Step(s, CreationEnds(c, 0));
      RebuildingServes(Step(t, Insert(c)), c, b);
      ServableBefore(t, Insert(c), b);
      ServableBefore(s, CreationEnds(c, 0), b);
    } else {
      RebuildingServes(Step(s, Insert(c)), c, b);
      ServableBefore(s, Insert(c), b);
    }
  }

  /** A caller at the slow path of a bucket that nobody else is creating finds or creates its agent. */
  lemma LoadingServes(s: System, c: CallerId, b: Bucket)
    requires c in s.callers && s.callers[c].Loading? && s.callers[c].bucket == b && (b in s.slow || b !in s.notif)
    ensures Servable(s, b)
  {
    var t := Step(s, Load(c));
    if b in s.slow {
      RebuildingServes(t, c, b);
    } else {
      CreatorServes(t, c, b);
    }
    ServableBefore(s, Load(c), b);
  }

  lemma NewCallerServes(s: System, b: Bucket)
    requires b in s.slow || b !in s.notif
    ensures Servable(s, b)
  {
    var c := UnusedId(s.callers.Keys);
    var t := Step(s, Call(c, b));
    if b in t.fast {
      FastServes(t, c, b);
    } else {
      LoadingServes(Step(t, CheckFast(c)), c, b);
      ServableBefore(t, CheckFast(c), b);
    }
    ServableBefore(s, Call(c, b), b);
  }

  /** Exactly when a bucket can still be served: as long as no creation for it has failed. */
  lemma ServableIffNotFailed(s: System, b: Bucket)
    requires Inv(s) && CreatorsThere(s)
    ensures Servable(s, b) <==> b !in s.failures
  {
    if b in s.failures {
      if Servable(s, b) {
        var more, c :| Serves(Exec(s, more), c, b);
        FailedBucketStaysWithoutAgent(s, more, b);
      }
    } else if b in s.notif {
      var c :| c in s.callers && Owns(s.callers[c], b);
      CreatorServes(s, c, b);
    } else {
      NewCallerServes(s, b);
    }
  }

  /** The same over runs: in every reachable state a bucket can be served exactly if its creation has not failed. */
  lemma ReachableServableIffNotFailed(es: seq<Event>, b: Bucket)
    ensures Servable(Run(es), b) <==> b !in Run(es).failures
  {
    RunInv(es);
    CreatorsExec(Initial, es);
    ServableIffNotFailed(Run(es), b);
  }

  predicate HasFailed(s: System, b: Bucket) {
    b in s.failures
  }

  ghost predicate MayFail(s: System, b: Bucket) {
    exists more :: HasFailed(Exec(s, more), b)
  }

  lemma MayFailBefore(s: System, e: Event, b: Bucket)
    requires MayFail(Step(s, e), b)
    ensures MayFail(s, b)
  {
    var more :| HasFailed(Exec(Step(s, e), more), b);
    Machine.ExecCons(Step, s, e, more);
    assert HasFailed(Exec(s, [e] + more), b);
  }

  lemma CreatingMayFail(s: System, c: CallerId, b: Bucket)
    requires c in s.callers && s.callers[c].Creating? && s.callers[c].bucket == b
    ensures MayFail(s, b)
  {
    assert HasFailed(Exec(Step(s, CreationFails(c)), []), b);
    MayFailBefore(s, CreationFails(c), b);
  }

  /** In every state without an agent or a creation for the bucket, the next call for it may fail to create one. */
  lemma NewCallMayFail(s: System, b: Bucket)
    requires b !in s.slow && b !in s.notif && b !in s.fast
    ensures MayFail(s, b)
  {
    var c := UnusedId(s.callers.Keys);
    var t := Step(s, Call(c, b));
    var u := Step(t, CheckFast(c));
    CreatingMayFail(Step(u, Load(c)), c, b);
    MayFailBefore(u, Load(c), b);
    MayFailBefore(t, CheckFast(c), b);
    MayFailBefore(s, Call(c, b), b);
  }

  /** For every bucket there is a run in which its creation fails, after which no run can serve it. */
  lemma CreationCanFail(b: Bucket) returns (es: seq<Event>)
    ensures b in Run(es).failures && !Servable(Run(es), b)
  {
    NewCallMayFail(Initial, b);
    es :| HasFailed(Exec(Initial, es), b);
    ReachableServableIffNotFailed(es, b);
  }

  // ---------------------------------------------------------------- the code

  /** The shared maps and their critical sections; `sys` is the run of the state machine that they realize. */
  class OnDemandAgentManager {
    var fast: map<Bucket, AgentId>
    var slow: map<Bucket, AgentId>
    var notif: set<Bucket>
    ghost var sys: System

    ghost predicate Tied()
      reads this
    {
      sys.fast == fast && sys.slow == slow && sys.notif == notif
    }

    constructor ()
      ensures Tied() && sys == Initial
    {
      fast, slow, notif := map[], map[], {};
      sys := Initial;
    }

    /** The unlocked look at the fast map at the head of the loop. */
    method LookFast(b: Bucket, ghost c: CallerId) returns (agent: Option<AgentId>)
      requires Tied() && c in sys.callers && sys.callers[c].CheckingFast? && sys.callers[c].bucket == b
      modifies this`sys
      ensures Tied() && sys == Step(old(sys), CheckFast(c))
      ensures match agent case Some(a) => sys.callers[c] == Returned(b, a) case None => sys.callers[c].Loading?
    {
      agent := if b in fast then Some(fast[b]) else None;
      sys := Step(sys, CheckFast(c));
    }

    /** The first critical section of load_bucket_agent_slow, under both locks. */
    method BeginLoad(b: Bucket, r: nat, ghost c: CallerId) returns (next: Caller)
      requires Tied() && c in sys.callers && sys.callers[c] == Loading(b, r)
      modifies this`notif, this`sys
      ensures Tied() && sys == Step(old(sys), Load(c)) && next == sys.callers[c]
    {
      if b in slow {
        next := Rebuilding(b, r);
      } else if b in notif {
        next := Waiting(b, r);
      } else {
        notif := notif + {b};
        next := Creating(b, r);
      }
      sys := Step(sys, Load(c));
    }

    /** The second critical section: the agent and its notification change under both locks. */
    method InsertAgent(b: Bucket, agent: AgentId, ghost c: CallerId)
      requires Tied() && c in sys.callers && sys.callers[c].Created?
      requires sys.callers[c].bucket == b && sys.callers[c].agent == agent
      modifies this`slow, this`notif, this`sys
      ensures Tied() && sys == Step(old(sys), Insert(c))
    {
      slow := slow[b := agent];
      notif := notif - {b};
      sys := Step(sys, Insert(c));
    }

    /** Rebuilds and publishes the fast map while holding the slow map's lock. */
    method RebuildFastMap(ghost c: CallerId)
      requires Tied() && c in sys.callers && sys.callers[c].Rebuilding?
      modifies this`fast, this`sys
      ensures Tied() && sys == Step(old(sys), Rebuild(c))
    {
      var copy: map<Bucket, AgentId> := map[];
      var todo := slow.Keys;
      while todo != {}
        invariant todo <= slow.Keys
        invariant copy == map b | b in slow && b !in todo :: slow[b]
      {
        var b :| b in todo;
        todo := todo - {b};
        copy := copy[b := slow[b]];
      }
      fast := copy;
      sys := Step(sys, Rebuild(c));
    }
  }
}
