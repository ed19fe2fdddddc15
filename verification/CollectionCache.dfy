/**
 CollectionResolverCached (sdk/couchbase-core/src/collection_resolver_cached.rs): collection ids are
 looked up once.  A locked slow map holds one entry per key, pending while its lookup is in flight; a
 published fast cache, read without a lock, is rebuilt from it.  Each critical section, each load of the
 fast cache and each answer of the backend is one atomic step; any number of callers interleave.  A
 waiter may wake at any moment, so nothing here depends on when notifications arrive.  A panic inside a
 critical section poisons the lock: from then on every critical section panics.
 */
module CollectionCache {
  import Machine
  import opened Wrappers
  import opened Common

  type Key = string
  type CallerId = nat

  datatype Answer = Answer(collectionId: nat, manifestRev: nat)

  datatype Entry = Entry(collectionId: nat, manifestRev: nat, pending: bool)

  datatype Failure = LookupFailed | JoinFailed

  datatype Caller =
    | Checking(key: Key)
    | Entering(key: Key)
    | Waiting(key: Key)
    | Resolving(key: Key)               // its lookup is in flight
    | Filling(key: Key, answer: Answer)  // the backend has answered, the entry is not filled yet
    | Dropping(key: Key)                // the backend has failed, the entry is still there
    | Done(key: Key, result: Result<Answer, Failure>)
    | Panicked

  /** `answers` is history: what the backend last answered for a key since the key was last invalidated. */
  datatype System = System(
    slow: map<Key, Entry>, fast: map<Key, Answer>, callers: map<CallerId, Caller>, answers: map<Key, Answer>,
    poisoned: bool)

  datatype Event =
    | Start(caller: CallerId, key: Key)
    | CheckFast(caller: CallerId)
    | Enter(caller: CallerId)
    | Wake(caller: CallerId)
    | BackendAnswers(caller: CallerId, answer: Answer)
    | BackendFails(caller: CallerId)
    | JoinFails(caller: CallerId)
    | Fill(caller: CallerId)
    | Drop(caller: CallerId)
    | Invalidate(key: Key)

  // ---------------------------------------------------------------- critical sections

  /** The fast cache: every entry with a non-zero collection id. */
  function Rebuilt(slow: map<Key, Entry>): map<Key, Answer> {
    map k | k in slow && slow[k].collectionId > 0 :: Answer(slow[k].collectionId, slow[k].manifestRev)
  }

  const PendingEntry: Entry := Entry(0, 0, true)

  /** What a caller does after looking at the slow map; only the owner of a new entry goes on to the backend. */
  function AfterEnter(slow: map<Key, Entry>, key: Key): Caller {
    if key !in slow then Resolving(key)
    else if slow[key].pending then Waiting(key)
    else Done(key, Ok(Answer(slow[key].collectionId, slow[key].manifestRev)))
  }

  function Filled(slow: map<Key, Entry>, key: Key, a: Answer): map<Key, Entry> {
    slow[key := Entry(a.collectionId, a.manifestRev, false)]
  }

  function Step(s: System, e: Event): System {
    match e
    case Start(c, key) => if c in s.callers then s else s.(callers := s.callers[c := Checking(key)])
    case Invalidate(key) =>
      if s.poisoned then s
      else s.(slow := s.slow - {key}, fast := Rebuilt(s.slow - {key}), answers := s.answers - {key})
    case _ => if e.caller in s.callers then StepOf(s, e, s.callers[e.caller]) else s
  }

  /** The caller panics while it holds the lock, or because somebody did before. */
  function Panic(s: System, c: CallerId): System {
    s.(callers := s.callers[c := Panicked], poisoned := true)
  }

  function StepOf(s: System, e: Event, state: Caller): System
    requires !e.Invalidate? && !e.Start?
  {
    var c := e.caller;
    match (e, state)
    case (CheckFast(_), Checking(key)) =>
      s.(callers := s.callers[c := if key in s.fast then Done(key, Ok(s.fast[key])) else Entering(key)])
    case (Enter(_), Entering(key)) =>
      if s.poisoned then Panic(s, c)
      else
        s.(callers := s.callers[c := AfterEnter(s.slow, key)],
           slow := if key in s.slow then s.slow else s.slow[key := PendingEntry])
    case (Wake(_), Waiting(key)) => s.(callers := s.callers[c := Entering(key)])
    case (BackendAnswers(_, a), Resolving(key)) =>
      s.(callers := s.callers[c := Filling(key, a)], answers := s.answers[key := a])
    case (BackendFails(_), Resolving(key)) => s.(callers := s.callers[c := Dropping(key)])
    case (JoinFails(_), Resolving(key)) => s.(callers := s.callers[c := Done(key, Err(JoinFailed))])
    case (Fill(_), Filling(key, a)) =>
      if s.poisoned || key !in s.slow then Panic(s, c)
      else
        s.(slow := Filled(s.slow, key, a), fast := Rebuilt(Filled(s.slow, key, a)),
           callers := s.callers[c := Done(key, Ok(a))])
    case (Drop(_), Dropping(key)) =>
      if s.poisoned || key !in s.slow then Panic(s, c)
      else s.(slow := s.slow - {key}, callers := s.callers[c := Done(key, Err(LookupFailed))])
    case _ => s
  }

  function Exec(s: System, es: seq<Event>): System {
    Machine.Exec(Step, s, es)
  }

  const Initial: System := System(map[], map[], map[], map[], false)

  function Run(es: seq<Event>): System {
    Exec(Initial, es)
  }

  lemma ExecOne(s: System, e: Event)
    ensures Exec(s, [e]) == Step(s, e)
  {
    Machine.ExecOne(Step, s, e);
  }

  lemma ExecTwo(s: System, es: seq<Event>, e: Event, f: Event)
    ensures Exec(s, es + [e] + [f]) == Step(Step(Exec(s, es), e), f)
  {
    Machine.ExecSnoc(Step, s, es, e);
    Machine.ExecSnoc(Step, s, es + [e], f);
  }

  // ---------------------------------------------------------------- invariant

  /** Is this caller's lookup of the key in flight? */
  predicate Owns(state: Caller, key: Key) {
    (state.Resolving? || state.Filling? || state.Dropping?) && state.key == key
  }

  ghost predicate InFlight(s: System, key: Key) {
    exists c :: c in s.callers && Owns(s.callers[c], key)
  }

  ghost predicate CallerOk(s: System, c: CallerId)
    requires c in s.callers
  {
    var state := s.callers[c];
    && !state.Panicked?
    && (state.Filling? ==> state.key in s.answers && s.answers[state.key] == state.answer)
    && (state.Resolving? || state.Filling? || state.Dropping? ==> state.key in s.slow && s.slow[state.key].pending)
  }

  ghost predicate EntryOk(s: System, key: Key)
    requires key in s.slow
  {
    var e := s.slow[key];
    if e.pending then e == PendingEntry
    else key in s.answers && s.answers[key] == Answer(e.collectionId, e.manifestRev)
  }

  ghost predicate SingleFlight(s: System) {
    forall c, d, key ::
      c in s.callers && d in s.callers && Owns(s.callers[c], key) && Owns(s.callers[d], key) ==> c == d
  }

  ghost predicate Inv(s: System) {
    && !s.poisoned && s.fast == Rebuilt(s.slow)
    && SingleFlight(s)
    && (forall c :: c in s.callers ==> CallerOk(s, c))
    && (forall key :: key in s.slow ==> EntryOk(s, key))
  }

  /** No step of the run invalidates a key whose lookup is in flight. */
  ghost predicate Disciplined(es: seq<Event>) {
    forall k :: 0 <= k < |es| && es[k].Invalidate? ==> !InFlight(Run(es[..k]), es[k].key)
  }

  lemma InvalidateInv(s: System, key: Key)
    requires Inv(s) && !InFlight(s, key)
    ensures Inv(Step(s, Invalidate(key)))
  {
    var s' := Step(s, Invalidate(key));
    forall c | c in s'.callers
      ensures CallerOk(s', c)
    {
      assert CallerOk(s, c);
      assert !Owns(s.callers[c], key);
    }
    forall k | k in s'.slow
      ensures EntryOk(s', k)
    {
      assert EntryOk(s, k);
    }
  }

  /** Steps that change neither the slow map nor the fast cache, nor who owns what. */
  lemma QuietInv(s: System, e: Event, c: CallerId, state: Caller)
    requires Inv(s) && c in s.callers
    requires Step(s, e) == s.(callers := s.callers[c := state])
    requires !state.Panicked? && !state.Resolving? && !state.Filling?
    requires state.Dropping? ==> Owns(s.callers[c], state.key)
    ensures Inv(Step(s, e))
  {
    var s' := Step(s, e);
    forall d | d in s'.callers
      ensures CallerOk(s', d)
    {
      assert CallerOk(s, d);
    }
    forall k | k in s'.slow
      ensures EntryOk(s', k)
    {
      assert EntryOk(s, k);
    }
  }

  lemma EnterInv(s: System, c: CallerId, key: Key)
    requires Inv(s) && c in s.callers && s.callers[c] == Entering(key) && key !in s.slow
    ensures Inv(Step(s, Enter(c)))
  {
    var s' := Step(s, Enter(c));
    assert Rebuilt(s'.slow) == Rebuilt(s.slow);
    forall d | d in s'.callers
      ensures CallerOk(s', d) && (Owns(s'.callers[d], key) ==> d == c)
    {
      assert CallerOk(s, d);
    }
    forall k | k in s'.slow
      ensures EntryOk(s', k)
    {
      assert k in s.slow ==> EntryOk(s, k);
    }
  }

  lemma AnswerInv(s: System, c: CallerId, key: Key, a: Answer)
    requires Inv(s) && c in s.callers && s.callers[c] == Resolving(key)
    ensures Inv(Step(s, BackendAnswers(c, a)))
  {
    var s' := Step(s, BackendAnswers(c, a));
    assert CallerOk(s, c);
    forall d | d in s'.callers
      ensures CallerOk(s', d)
    {
      assert CallerOk(s, d);
      assert Owns(s.callers[c], key);
      assert d != c ==> !Owns(s.callers[d], key);
    }
    forall k | k in s'.slow
      ensures EntryOk(s', k)
    {
      assert EntryOk(s, k);
    }
  }

  lemma FillInv(s: System, c: CallerId, key: Key, a: Answer)
    requires Inv(s) && c in s.callers && s.callers[c] == Filling(key, a)
    ensures Inv(Step(s, Fill(c)))
  {
    var s' := Step(s, Fill(c));
    assert CallerOk(s, c);
    forall d | d in s'.callers
      ensures CallerOk(s', d)
    {
      assert CallerOk(s, d);
      assert Owns(s.callers[c], key);
      assert d != c ==> !Owns(s.callers[d], key);
    }
    forall k | k in s'.slow
      ensures EntryOk(s', k)
    {
      assert EntryOk(s, k);
    }
  }

  /** An entry without an id does not show in the fast cache. */
  lemma PendingIsInvisible(slow: map<Key, Entry>, key: Key)
    requires key in slow && slow[key].collectionId == 0
    ensures Rebuilt(slow - {key}) == Rebuilt(slow)
  {}

  lemma DropInv(s: System, c: CallerId, key: Key)
    requires Inv(s) && c in s.callers && s.callers[c] == Dropping(key)
    ensures Inv(Step(s, Drop(c)))
  {
    var s' := Step(s, Drop(c));
    assert CallerOk(s, c) && EntryOk(s, key);
    PendingIsInvisible(s.slow, key);
    forall d | d in s'.callers
      ensures CallerOk(s', d)
    {
      assert CallerOk(s, d);
      assert Owns(s.callers[c], key);
      assert d != c ==> !Owns(s.callers[d], key);
    }
    forall k | k in s'.slow
      ensures EntryOk(s', k)
    {
      assert EntryOk(s, k);
    }
  }

  lemma StartInv(s: System, c: CallerId, key: Key)
    requires Inv(s)
    ensures Inv(Step(s, Start(c, key)))
  {
    var s' := Step(s, Start(c, key));
    forall d | d in s'.callers
      ensures CallerOk(s', d)
    {
      assert d in s.callers ==> CallerOk(s, d);
    }
    forall k | k in s'.slow
      ensures EntryOk(s', k)
    {
      assert EntryOk(s, k);
    }
  }

  lemma StepInv(s: System, e: Event)
    requires Inv(s) && (e.Invalidate? ==> !InFlight(s, e.key))
    ensures Inv(Step(s, e))
  {
    if e.Invalidate? {
      InvalidateInv(s, e.key);
    } else if e.Start? {
      StartInv(s, e.caller, e.key);
    } else if e.caller in s.callers {
      var c, state := e.caller, s.callers[e.caller];
      match (e, state)
      case (Enter(_), Entering(key)) =>
        if key !in s.slow {
          EnterInv(s, c, key);
        } else {
          QuietInv(s, e, c, AfterEnter(s.slow, key));
        }
      case (BackendAnswers(_, a), Resolving(key)) => AnswerInv(s, c, key, a);
      case (Fill(_), Filling(key, a)) => FillInv(s, c, key, a);
      case (Drop(_), Dropping(key)) => DropInv(s, c, key);
      case (CheckFast(_), Checking(key)) =>
        QuietInv(s, e, c, if key in s.fast then Done(key, Ok(s.fast[key])) else Entering(key));
      case (Wake(_), Waiting(key)) => QuietInv(s, e, c, Entering(key));
      case (BackendFails(_), Resolving(key)) => QuietInv(s, e, c, Dropping(key));
      case (JoinFails(_), Resolving(key)) => QuietInv(s, e, c, Done(key, Err(JoinFailed)));
      case _ =>
    }
  }

  // ---------------------------------------------------------------- main results

  /**
   Cache agreement: in every disciplined run the fast cache is exactly the slow entries with a non-zero
   id, at most one lookup per key is in flight, and no expect ever fails.
   */
  lemma {:induction false} CacheAgreement(es: seq<Event>)
    requires Disciplined(es)
    ensures Inv(Run(es))
  {
    if es != [] {
      var n := |es| - 1;
      forall k | 0 <= k < n && es[..n][k].Invalidate?
        ensures !InFlight(Run(es[..n][..k]), es[..n][k].key)
      {
        assert es[..n][..k] == es[..k];
      }
      CacheAgreement(es[..n]);
      StepInv(Run(es[..n]), es[n]);
    }
  }

  /**
   Whenever a caller gets an answer, fast or slow, it is what the backend last answered for that key since its
   invalidation.
   */
  lemma AnswersAreCurrent(es: seq<Event>, e: Event, c: CallerId)
    requires Disciplined(es) && (e.Invalidate? ==> !InFlight(Run(es), e.key))
    requires c in Run(es).callers && !Run(es).callers[c].Done?
    requires var state := Step(Run(es), e).callers[c]; state.Done? && state.result.Ok?
    ensures var s' := Step(Run(es), e);
            var Done(key, result) := s'.callers[c];
            key in s'.answers && s'.answers[key] == result.value
  {
    var s := Run(es);
    CacheAgreement(es);
    assert CallerOk(s, c);
    var key := Step(s, e).callers[c].key;
    if key in s.slow {
      assert EntryOk(s, key);
    }
  }

  // ---------------------------------------------------------------- what each caller is told

  /** A caller that finds the key in the fast cache, or a filled entry, is told what the backend last answered. */
  lemma FoundIsAnswered(s: System, c: CallerId, key: Key)
    requires Inv(s) && c in s.callers
    ensures s.callers[c] == Checking(key) && key in s.fast ==>
              key in s.answers && Step(s, CheckFast(c)).callers[c] == Done(key, Ok(s.answers[key]))
    ensures s.callers[c] == Entering(key) && key in s.slow && !s.slow[key].pending ==>
              key in s.answers && Step(s, Enter(c)).callers[c] == Done(key, Ok(s.answers[key]))
  {
    if key in s.slow {
      assert EntryOk(s, key);
    }
  }

  /** What the fast cache has is answered at once, without the lock: also after a panic. */
  lemma HitNeedsNoLock(s: System, c: CallerId, key: Key)
    requires c !in s.callers && key in s.fast
    ensures var t := Step(Step(s, Start(c, key)), CheckFast(c));
            t == s.(callers := s.callers[c := Done(key, Ok(s.fast[key]))])
  {
    var started := Step(s, Start(c, key));
    assert started.callers[c] == Checking(key);
    assert s.callers[c := Checking(key)][c := Done(key, Ok(s.fast[key]))] == s.callers[c := Done(key, Ok(s.fast[key]))];
  }

  /** A caller that does not goes on: to the slow map, to wait for the owner, or to look the key up itself. */
  lemma NotFoundGoesOn(s: System, c: CallerId, key: Key)
    requires !s.poisoned && c in s.callers
    ensures s.callers[c] == Checking(key) && key !in s.fast ==>
              var t := Step(s, CheckFast(c)); t.callers[c] == Entering(key) && t.slow == s.slow && t.fast == s.fast
    ensures s.callers[c] == Entering(key) && key in s.slow && s.slow[key].pending ==>
              var t := Step(s, Enter(c)); t.callers[c] == Waiting(key) && t.slow == s.slow && t.fast == s.fast
    ensures s.callers[c] == Entering(key) && key !in s.slow ==>
              var t := Step(s, Enter(c));
              t.callers[c] == Resolving(key) && t.slow == s.slow[key := Entry(0, 0, true)] && t.fast == s.fast
    ensures s.callers[c] == Waiting(key) ==> Step(s, Wake(c)).callers[c] == Entering(key)
  {}

  /** The owner is told what the backend answered, and the entry is filled with it. */
  lemma OwnerIsAnswered(s: System, c: CallerId, key: Key, a: Answer)
    requires !s.poisoned && c in s.callers && s.callers[c] == Resolving(key) && key in s.slow
    ensures var t := Step(Step(s, BackendAnswers(c, a)), Fill(c));
            && t.callers[c] == Done(key, Ok(a))
            && key in t.slow && t.slow[key] == Entry(a.collectionId, a.manifestRev, false)
  {
    var u := Step(s, BackendAnswers(c, a));
    assert u.callers[c] == Filling(key, a) && u.slow == s.slow && !u.poisoned;
  }

  /** Or it is told that the lookup failed, and the entry goes; or that its task is lost, and the entry stays. */
  lemma OwnerFails(s: System, c: CallerId, key: Key)
    requires !s.poisoned && c in s.callers && s.callers[c] == Resolving(key) && key in s.slow
    ensures var t := Step(Step(s, BackendFails(c)), Drop(c));
            t.callers[c] == Done(key, Err(LookupFailed)) && key !in t.slow
    ensures var t := Step(s, JoinFails(c)); t.callers[c] == Done(key, Err(JoinFailed)) && t.slow == s.slow
  {
    var v := Step(s, BackendFails(c));
    assert v.callers[c] == Dropping(key) && v.slow == s.slow && !v.poisoned;
  }

  /** What a caller's failure goes back to. */
  ghost predicate FailureExplained(state: Caller, failed: bool, unjoined: bool) {
    && (state.Dropping? ==> failed)
    && (state.Done? && state.result == Err(LookupFailed) ==> failed)
    && (state.Done? && state.result == Err(JoinFailed) ==> unjoined)
  }

  lemma FailureStep(s: System, e: Event, c: CallerId, failed: bool, unjoined: bool)
    requires c in s.callers ==> FailureExplained(s.callers[c], failed, unjoined)
    ensures c in Step(s, e).callers ==>
              FailureExplained(Step(s, e).callers[c], failed || e == BackendFails(c), unjoined || e == JoinFails(c))
  {
    if !e.Start? && !e.Invalidate? && e.caller == c && c in s.callers {
      OwnFailureStep(s, e, s.callers[c], failed, unjoined);
    }
  }

  lemma OwnFailureStep(s: System, e: Event, state: Caller, failed: bool, unjoined: bool)
    requires !e.Start? && !e.Invalidate? && FailureExplained(state, failed, unjoined)
    requires e.caller in s.callers && s.callers[e.caller] == state
    ensures e.caller in StepOf(s, e, state).callers
    ensures FailureExplained(StepOf(s, e, state).callers[e.caller], failed || e.BackendFails?, unjoined || e.JoinFails?)
  {}

  /** In every run a caller fails only if its own lookup failed, or its own task could not be joined. */
  lemma {:induction false} FailsOnlyByOwnLookup(es: seq<Event>, c: CallerId)
    ensures c in Run(es).callers ==> FailureExplained(Run(es).callers[c], BackendFails(c) in es, JoinFails(c) in es)
  {
    if es != [] {
      var n := |es| - 1;
      FailsOnlyByOwnLookup(es[..n], c);
      FailureStep(Run(es[..n]), es[n], c, BackendFails(c) in es[..n], JoinFails(c) in es[..n]);
      assert es == es[..n] + [es[n]];
    }
  }

  /** The fast cache, entry by entry: a filled or pending entry shows exactly if its id is not zero. */
  lemma FastExactly(es: seq<Event>, key: Key, a: Answer)
    requires Disciplined(es)
    ensures var s := Run(es);
            key in s.fast && s.fast[key] == a <==>
            && key in s.slow && s.slow[key].collectionId == a.collectionId && s.slow[key].manifestRev == a.manifestRev
            && a.collectionId != 0
  {
    CacheAgreement(es);
  }

  /** An invalidation takes the key out of both maps and leaves all others alone. */
  lemma InvalidatesOnly(s: System, key: Key, other: Key)
    requires Inv(s) && other != key
    ensures var t := Step(s, Invalidate(key));
            && key !in t.slow && key !in t.fast && t.callers == s.callers
            && (other in t.slow <==> other in s.slow) && (other in s.slow ==> t.slow[other] == s.slow[other])
            && (other in t.fast <==> other in s.fast) && (other in s.fast ==> t.fast[other] == s.fast[other])
  {}

  // ---------------------------------------------------------------- invalidating a key in flight

  predicate NoInvalidation(es: seq<Event>) {
    forall i :: 0 <= i < |es| ==> !es[i].Invalidate?
  }

  ghost predicate SomePanic(s: System) {
    exists c :: c in s.callers && s.callers[c].Panicked?
  }

  /** Without any further invalidation some caller may come to panic. */
  ghost predicate PanicLooms(s: System) {
    exists es :: NoInvalidation(es) && SomePanic(Exec(s, es))
  }

  lemma {:induction false} QuietExecInv(s: System, es: seq<Event>)
    requires Inv(s) && NoInvalidation(es)
    ensures Inv(Exec(s, es))
  {
    if es != [] {
      QuietExecInv(s, es[..|es| - 1]);
      StepInv(Exec(s, es[..|es| - 1]), es[|es| - 1]);
    }
  }

  lemma PanickingSteps(t: System, c: CallerId, key: Key)
    requires c in t.callers && t.callers[c] == Resolving(key) && key !in t.slow
    ensures var u := Step(Step(t, BackendFails(c)), Drop(c));
            c in u.callers && u.callers[c] == Panicked && u.poisoned
  {
    var u := Step(t, BackendFails(c));
    assert c in u.callers && u.callers[c] == Dropping(key) && u.slow == t.slow;
  }

  /** The owner of a lookup whose entry is gone panics when it comes back to it. */
  lemma OwnerPanics(s: System, c: CallerId, key: Key) returns (es: seq<Event>)
    requires c in s.callers && Owns(s.callers[c], key) && key !in s.slow
    ensures NoInvalidation(es) && c in Exec(s, es).callers && Exec(s, es).callers[c].Panicked?
  {
    if s.callers[c].Resolving? {
      es := [] + [BackendFails(c)] + [Drop(c)];
      ExecTwo(s, [], BackendFails(c), Drop(c));
      PanickingSteps(s, c, key);
    } else if s.callers[c].Filling? {
      es := [Fill(c)];
      ExecOne(s, Fill(c));
    } else {
      es := [Drop(c)];
      ExecOne(s, Drop(c));
    }
  }

  /** Exactly when an invalidation is harmless: it leads to a panic if and only if the key is in flight. */
  lemma InvalidationSafeIffNotInFlight(s: System, key: Key)
    requires Inv(s)
    ensures PanicLooms(Step(s, Invalidate(key))) <==> InFlight(s, key)
    ensures Inv(Step(s, Invalidate(key))) <==> !InFlight(s, key)
  {
    var s' := Step(s, Invalidate(key));
    if InFlight(s, key) {
      var c :| c in s.callers && Owns(s.callers[c], key);
      assert !CallerOk(s', c);
      var es := OwnerPanics(s', c, key);
    } else {
      InvalidateInv(s, key);
      forall es | NoInvalidation(es)
        ensures !SomePanic(Exec(s', es))
      {
        QuietExecInv(s', es);
        assert forall c :: c in Exec(s', es).callers ==> CallerOk(Exec(s', es), c);
      }
    }
  }

  lemma EnteringSteps(t: System, c: CallerId, key: Key)
    requires !t.poisoned && c !in t.callers && key !in t.slow && key !in t.fast
    ensures var u := Step(Step(Step(t, Start(c, key)), CheckFast(c)), Enter(c));
            && !u.poisoned && u.callers == t.callers[c := Resolving(key)]
            && u.slow == t.slow[key := PendingEntry] && u.fast == t.fast
  {
    var u := Step(Step(t, Start(c, key)), CheckFast(c));
    assert u.callers == t.callers[c := Entering(key)] && u.slow == t.slow && u.fast == t.fast && !u.poisoned;
  }

  /** A new caller of an unknown key becomes the owner of its lookup. */
  lemma BecomesOwner(s: System, es: seq<Event>, c: CallerId, key: Key) returns (longer: seq<Event>)
    requires var t := Exec(s, es); !t.poisoned && c !in t.callers && key !in t.slow && key !in t.fast
    ensures NoInvalidation(es) ==> NoInvalidation(longer)
    ensures var t, u := Exec(s, es), Exec(s, longer);
            && !u.poisoned && u.callers == t.callers[c := Resolving(key)]
            && u.slow == t.slow[key := PendingEntry] && u.fast == t.fast
  {
    EnteringSteps(Exec(s, es), c, key);
    Machine.ExecSnoc(Step, s, es, Start(c, key));
    ExecTwo(s, es + [Start(c, key)], CheckFast(c), Enter(c));
    longer := es + [Start(c, key)] + [CheckFast(c)] + [Enter(c)];
  }

  /** Without the discipline an expect can fail: the entry of a lookup in flight is invalidated away. */
  lemma UndisciplinedRunPanics(c: CallerId, key: Key) returns (es: seq<Event>)
    ensures c in Run(es).callers && Run(es).callers[c] == Panicked && Run(es).poisoned
  {
    es := BecomesOwner(Initial, [], c, key);
    es := Invalidated(es, key);
    assert Run(es).callers[c] == Resolving(key);
    PanickingSteps(Run(es), c, key);
    ExecTwo(Initial, es, BackendFails(c), Drop(c));
    es := es + [BackendFails(c)] + [Drop(c)];
  }

  lemma Invalidated(es: seq<Event>, key: Key) returns (longer: seq<Event>)
    requires !Run(es).poisoned
    ensures var s, s' := Run(es), Run(longer);
            !s'.poisoned && s'.callers == s.callers && key !in s'.slow && key !in s'.fast
  {
    Machine.ExecSnoc(Step, Initial, es, Invalidate(key));
    longer := es + [Invalidate(key)];
  }

  /** Was this caller answered? */
  predicate Answered(s: System, c: CallerId, key: Key) {
    c in s.callers && s.callers[c].Done? && s.callers[c].key == key && s.callers[c].result.Ok?
  }

  lemma PoisonedStep(s: System, e: Event)
    requires s.poisoned
    ensures var s' := Step(s, e);
            && s'.poisoned && s'.slow == s.slow && s'.fast == s.fast
            && forall c, key :: Answered(s', c, key) ==> Answered(s, c, key) || key in s.fast
  {}

  /** A panic is the end: the maps never change again, and only what the fast cache holds is still answered. */
  lemma {:induction false} PoisonedForever(s: System, es: seq<Event>)
    requires s.poisoned
    ensures var s' := Exec(s, es);
            && s'.poisoned && s'.slow == s.slow && s'.fast == s.fast
            && forall c, key :: Answered(s', c, key) ==> Answered(s, c, key) || key in s.fast
  {
    if es != [] {
      PoisonedForever(s, es[..|es| - 1]);
      PoisonedStep(Exec(s, es[..|es| - 1]), es[|es| - 1]);
    }
  }

  // ---------------------------------------------------------------- stale answers

  /** The fast cache has an answer that the slow map does not have. */
  predicate Stale(s: System, key: Key) {
    key in s.fast && key !in s.slow
  }

  /** Without any further invalidation a stale answer may come about. */
  ghost predicate StaleLooms(s: System, key: Key) {
    exists es :: NoInvalidation(es) && Stale(Exec(s, es), key)
  }

  lemma StaleNow(s: System, key: Key)
    requires Stale(s, key)
    ensures StaleLooms(s, key)
  {
    assert NoInvalidation([]) && Stale(Exec(s, []), key);
  }

  lemma StaleLoomsBefore(s: System, e: Event, key: Key)
    requires StaleLooms(Step(s, e), key) && !e.Invalidate?
    ensures StaleLooms(s, key)
  {
    var es :| NoInvalidation(es) && Stale(Exec(Step(s, e), es), key);
    Machine.ExecCons(Step, s, e, es);
    assert NoInvalidation([e] + es);
  }

  lemma FailingSteps(t: System, d: CallerId, key: Key)
    requires !t.poisoned && d in t.callers && t.callers[d] == Resolving(key) && key in t.slow
    ensures var u := Step(Step(t, BackendFails(d)), Drop(d)); u.slow == t.slow - {key} && u.fast == t.fast
  {}

  /** An owner that fails drops the entry that somebody else has filled, and the fast cache is not rebuilt. */
  lemma SecondFails(t: System, d: CallerId, key: Key)
    requires !t.poisoned && d in t.callers && t.callers[d] == Resolving(key) && key in t.slow && key in t.fast
    ensures StaleLooms(t, key)
  {
    FailingSteps(t, d, key);
    var u := Step(t, BackendFails(d));
    StaleNow(Step(u, Drop(d)), key);
    StaleLoomsBefore(u, Drop(d), key);
    StaleLoomsBefore(t, BackendFails(d), key);
  }

  lemma FillsOver(t: System, c: CallerId, d: CallerId, key: Key, a: Answer)
    requires !t.poisoned && c in t.callers && d in t.callers && c != d && key in t.slow
    requires t.callers[c] == Filling(key, a) && a.collectionId > 0 && t.callers[d] == Resolving(key)
    ensures StaleLooms(t, key)
  {
    SecondFails(Step(t, Fill(c)), d, key);
    StaleLoomsBefore(t, Fill(c), key);
  }

  /** The old owner fills the entry of the new one, with an answer that has an id. */
  lemma OldFillsOver(t: System, c: CallerId, d: CallerId, key: Key)
    requires !t.poisoned && c in t.callers && d in t.callers && c != d && key in t.slow
    requires FillsWithId(t.callers[c], key) && t.callers[d] == Resolving(key)
    ensures StaleLooms(t, key)
  {
    if t.callers[c].Resolving? {
      var a := Answer(1, 0);
      FillsOver(Step(t, BackendAnswers(c, a)), c, d, key, a);
      StaleLoomsBefore(t, BackendAnswers(c, a), key);
    } else {
      FillsOver(t, c, d, key, t.callers[c].answer);
    }
  }

  /** This owner may still fill an entry with an answer that has an id. */
  predicate FillsWithId(state: Caller, key: Key) {
    state == Resolving(key) || (state.Filling? && state.key == key && state.answer.collectionId > 0)
  }

  /** A new caller makes an entry under the feet of an old owner. */
  lemma OverNewEntry(t: System, c: CallerId, key: Key)
    requires !t.poisoned && key !in t.slow && key !in t.fast
    requires c in t.callers && FillsWithId(t.callers[c], key)
    ensures StaleLooms(t, key)
  {
    var d := UnusedId(t.callers.Keys);
    EnteringSteps(t, d, key);
    var t1 := Step(t, Start(d, key));
    var t2 := Step(t1, CheckFast(d));
    OldFillsOver(Step(t2, Enter(d)), c, d, key);
    StaleLoomsBefore(t2, Enter(d), key);
    StaleLoomsBefore(t1, CheckFast(d), key);
    StaleLoomsBefore(t, Start(d, key), key);
  }

  /** An old owner that has failed drops the entry of a new one, which thereby becomes an old owner itself. */
  lemma OverDroppedEntry(t: System, c: CallerId, key: Key)
    requires !t.poisoned && key !in t.slow && key !in t.fast && c in t.callers && t.callers[c] == Dropping(key)
    ensures StaleLooms(t, key)
  {
    var d := UnusedId(t.callers.Keys);
    EnteringSteps(t, d, key);
    var t1 := Step(t, Start(d, key));
    var t2 := Step(t1, CheckFast(d));
    var t3 := Step(t2, Enter(d));
    DroppedUnder(t3, c, d, key);
    StaleLoomsBefore(t2, Enter(d), key);
    StaleLoomsBefore(t1, CheckFast(d), key);
    StaleLoomsBefore(t, Start(d, key), key);
  }

  lemma DroppedUnder(t: System, c: CallerId, d: CallerId, key: Key)
    requires !t.poisoned && key in t.slow && key !in t.fast && c != d
    requires c in t.callers && t.callers[c] == Dropping(key) && d in t.callers && t.callers[d] == Resolving(key)
    ensures StaleLooms(t, key)
  {
    OverNewEntry(Step(t, Drop(c)), d, key);
    StaleLoomsBefore(t, Drop(c), key);
  }

  /** An owner that can leave a stale answer once its entry is invalidated: any but one about to fill in id 0. */
  predicate CanLeaveStale(s: System, c: CallerId, key: Key) {
    && c in s.callers && Owns(s.callers[c], key)
    && !(s.callers[c].Filling? && s.callers[c].answer.collectionId == 0)
  }

  /**
   What holds without stale answers when at most caller `c` has lost its entry, and that one can only fill in
   id 0: until some panic, every other owner has the entry of its key to itself, without an id.
   */
  ghost predicate NeverStale(s: System, c: CallerId) {
    s.fast == Rebuilt(s.slow) && (!s.poisoned ==> c in s.callers && OnlyFillsZero(s.callers[c]) && OwnersApart(s, c))
  }

  predicate OnlyFillsZero(state: Caller) {
    state.Done? || state.Panicked? || (state.Filling? && state.answer.collectionId == 0)
  }

  /** Caller `d`, which is not `c`, owns the lookup of the key. */
  predicate OtherOwner(s: System, c: CallerId, d: CallerId, key: Key) {
    d in s.callers && d != c && Owns(s.callers[d], key)
  }

  ghost predicate OwnersApart(s: System, c: CallerId) {
    && (forall d, key :: OtherOwner(s, c, d, key) ==> key in s.slow && s.slow[key].collectionId == 0)
    && (forall d, e, key :: OtherOwner(s, c, d, key) && OtherOwner(s, c, e, key) ==> d == e)
  }

  /** A caller that moves and owns nothing that it did not own before. */
  lemma MoveStaysApart(s: System, s': System, c: CallerId, d: CallerId)
    requires OwnersApart(s, c) && s'.slow == s.slow && d in s.callers && d in s'.callers
    requires s'.callers == s.callers[d := s'.callers[d]]
    requires forall key :: OtherOwner(s', c, d, key) ==> OtherOwner(s, c, d, key)
    ensures OwnersApart(s', c)
  {
    forall e, key | OtherOwner(s', c, e, key)
      ensures OtherOwner(s, c, e, key)
    {
    }
  }

  /** A caller that makes the entry of a key, which then has no other owner. */
  lemma EnterStaysApart(s: System, c: CallerId, d: CallerId, key: Key)
    requires NeverStale(s, c) && !s.poisoned && d in s.callers && s.callers[d] == Entering(key) && key !in s.slow
    ensures NeverStale(Step(s, Enter(d)), c)
  {
    var s' := Step(s, Enter(d));
    assert Rebuilt(s'.slow) == Rebuilt(s.slow);
    forall e, k | OtherOwner(s', c, e, k)
      ensures OtherOwner(s, c, e, k) || (e == d && k == key)
    {
    }
  }

  /** A caller that fills or drops an entry gives it up. */
  lemma EndStaysApart(s: System, s': System, c: CallerId, d: CallerId, key: Key)
    requires OwnersApart(s, c) && d in s.callers && d in s'.callers && Owns(s.callers[d], key)
    requires s'.callers == s.callers[d := s'.callers[d]] && s'.callers[d].Done?
    requires forall k :: k in s.slow && k != key ==> k in s'.slow && s'.slow[k] == s.slow[k]
    requires d == c ==> key in s'.slow && s'.slow[key].collectionId == 0
    ensures OwnersApart(s', c)
  {
    forall e, k | OtherOwner(s', c, e, k)
      ensures OtherOwner(s, c, e, k) && e != d && (d != c ==> k != key)
      ensures k in s'.slow && s'.slow[k].collectionId == 0
    {
      assert OtherOwner(s, c, e, k);
      if d != c {
        assert OtherOwner(s, c, d, key);
      }
    }
  }

  lemma FillStaysApart(s: System, c: CallerId, d: CallerId, key: Key, a: Answer)
    requires NeverStale(s, c) && !s.poisoned && d in s.callers && s.callers[d] == Filling(key, a) && key in s.slow
    ensures NeverStale(Step(s, Fill(d)), c)
  {
    EndStaysApart(s, Step(s, Fill(d)), c, d, key);
  }

  lemma DropStaysApart(s: System, c: CallerId, d: CallerId, key: Key)
    requires NeverStale(s, c) && !s.poisoned && d in s.callers && s.callers[d] == Dropping(key) && key in s.slow
    ensures NeverStale(Step(s, Drop(d)), c)
  {
    assert d != c && OtherOwner(s, c, d, key);
    PendingIsInvisible(s.slow, key);
    EndStaysApart(s, Step(s, Drop(d)), c, d, key);
  }

  lemma StartStaysApart(s: System, c: CallerId, d: CallerId, key: Key)
    requires NeverStale(s, c) && !s.poisoned && d !in s.callers
    ensures NeverStale(Step(s, Start(d, key)), c)
  {
    var s' := Step(s, Start(d, key));
    forall e, k | OtherOwner(s', c, e, k)
      ensures OtherOwner(s, c, e, k)
    {
    }
  }

  lemma NeverStaleStep(s: System, c: CallerId, e: Event)
    requires NeverStale(s, c) && !e.Invalidate?
    ensures NeverStale(Step(s, e), c)
  {
    if s.poisoned {
      PoisonedStep(s, e);
    } else if e.Start? {
      if e.caller !in s.callers {
        StartStaysApart(s, c, e.caller, e.key);
      }
    } else if e.caller in s.callers {
      CallerStaysApart(s, c, e, s.callers[e.caller]);
    }
  }

  lemma CallerStaysApart(s: System, c: CallerId, e: Event, state: Caller)
    requires NeverStale(s, c) && !s.poisoned && !e.Invalidate? && !e.Start?
    requires e.caller in s.callers && s.callers[e.caller] == state
    ensures NeverStale(Step(s, e), c)
  {
    match (e, state)
    case (Enter(_), Entering(key)) =>
      if key !in s.slow {
        EnterStaysApart(s, c, e.caller, key);
      } else {
        MoveStaysApart(s, Step(s, e), c, e.caller);
      }
    case (Fill(_), Filling(key, a)) => if key in s.slow { FillStaysApart(s, c, e.caller, key, a); }
    case (Drop(_), Dropping(key)) => if key in s.slow { DropStaysApart(s, c, e.caller, key); }
    case (CheckFast(_), Checking(_)) => MoveStaysApart(s, Step(s, e), c, e.caller);
    case (Wake(_), Waiting(_)) => MoveStaysApart(s, Step(s, e), c, e.caller);
    case (BackendAnswers(_, _), Resolving(_)) => MoveStaysApart(s, Step(s, e), c, e.caller);
    case (BackendFails(_), Resolving(_)) => MoveStaysApart(s, Step(s, e), c, e.caller);
    case (JoinFails(_), Resolving(_)) => MoveStaysApart(s, Step(s, e), c, e.caller);
    case _ =>
  }

  lemma {:induction false} NeverStaleExec(s: System, c: CallerId, es: seq<Event>)
    requires NeverStale(s, c) && NoInvalidation(es)
    ensures NeverStale(Exec(s, es), c)
  {
    if es != [] {
      NeverStaleExec(s, c, es[..|es| - 1]);
      NeverStaleStep(Exec(s, es[..|es| - 1]), c, es[|es| - 1]);
    }
  }

  /** After the invalidation of a key whose owner is about to fill in id 0. */
  lemma ZeroOwnerNeverStale(s: System, c: CallerId, key: Key)
    requires Inv(s) && c in s.callers && Owns(s.callers[c], key)
    requires s.callers[c].Filling? && s.callers[c].answer.collectionId == 0
    ensures NeverStale(Step(s, Invalidate(key)), c)
  {
    var s' := Step(s, Invalidate(key));
    forall d, k | OtherOwner(s', c, d, k)
      ensures k in s'.slow && s'.slow[k].collectionId == 0
    {
      assert CallerOk(s, d) && Owns(s.callers[d], k);
      assert k != key;
      assert EntryOk(s, k);
    }
  }

  /** Exactly when an invalidation can leave a stale answer behind: when the key has an owner that can. */
  lemma StaleLoomsIffOwnerCanLeaveStale(s: System, key: Key)
    requires Inv(s)
    ensures StaleLooms(Step(s, Invalidate(key)), key) <==> exists c :: CanLeaveStale(s, c, key)
  {
    var s' := Step(s, Invalidate(key));
    if exists c :: CanLeaveStale(s, c, key) {
      var c :| CanLeaveStale(s, c, key);
      if s.callers[c].Dropping? {
        OverDroppedEntry(s', c, key);
      } else {
        OverNewEntry(s', c, key);
      }
    } else if StaleLooms(s', key) {
      var es :| NoInvalidation(es) && Stale(Exec(s', es), key);
      if InFlight(s, key) {
        var c :| c in s.callers && Owns(s.callers[c], key);
        assert !CanLeaveStale(s, c, key);
        ZeroOwnerNeverStale(s, c, key);
        NeverStaleExec(s', c, es);
      } else {
        InvalidateInv(s, key);
        QuietExecInv(s', es);
      }
    }
  }

  /** For every key there is a run that leaves a stale answer. */
  lemma UndisciplinedRunLeavesStaleAnswer(key: Key) returns (es: seq<Event>)
    ensures Stale(Run(es), key)
  {
    var before := BecomesOwner(Initial, [], 0, key);
    QuietExecInv(Initial, before);
    assert CanLeaveStale(Run(before), 0, key);
    StaleLoomsIffOwnerCanLeaveStale(Run(before), key);
    Machine.ExecSnoc(Step, Initial, before, Invalidate(key));
    var more :| NoInvalidation(more) && Stale(Exec(Step(Run(before), Invalidate(key)), more), key);
    Machine.ExecConcat(Step, Initial, before + [Invalidate(key)], more);
    es := before + [Invalidate(key)] + more;
  }

  lemma AnsweringSteps(t: System, c: CallerId, key: Key, a: Answer)
    requires !t.poisoned && c in t.callers && t.callers[c] == Resolving(key) && key in t.slow
    ensures var u := Step(Step(t, BackendAnswers(c, a)), Fill(c));
            && !u.poisoned && u.slow == Filled(t.slow, key, a) && u.fast == Rebuilt(u.slow)
            && u.callers == t.callers[c := Done(key, Ok(a))]
  {}

  /** The backend answers the owner, which fills its entry. */
  lemma Answers(s: System, es: seq<Event>, c: CallerId, key: Key, a: Answer) returns (longer: seq<Event>)
    requires var t := Exec(s, es); !t.poisoned && c in t.callers && t.callers[c] == Resolving(key) && key in t.slow
    ensures NoInvalidation(es) ==> NoInvalidation(longer)
    ensures var t, u := Exec(s, es), Exec(s, longer);
            && !u.poisoned && u.slow == Filled(t.slow, key, a) && u.fast == Rebuilt(u.slow)
            && u.callers == t.callers[c := Done(key, Ok(a))]
  {
    AnsweringSteps(Exec(s, es), c, key, a);
    ExecTwo(s, es, BackendAnswers(c, a), Fill(c));
    longer := es + [BackendAnswers(c, a)] + [Fill(c)];
  }

  // ---------------------------------------------------------------- lookups that end without an answer

  /** The entry is pending and nobody is left to fill or drop it. */
  ghost predicate Stranded(s: System, key: Key) {
    key in s.slow && s.slow[key] == PendingEntry && key !in s.fast && !InFlight(s, key)
  }

  /** A lookup task that cannot be joined leaves its entry pending for good. */
  lemma FailedJoinStrands(s: System, c: CallerId, key: Key)
    requires Inv(s) && c in s.callers && s.callers[c] == Resolving(key)
    ensures Stranded(Step(s, JoinFails(c)), key)
  {
    var s' := Step(s, JoinFails(c));
    assert CallerOk(s, c) && EntryOk(s, key) && Owns(s.callers[c], key);
    forall d | d in s'.callers
      ensures !Owns(s'.callers[d], key)
    {
      assert d != c ==> !Owns(s.callers[d], key);
    }
  }

  predicate Spares(es: seq<Event>, key: Key) {
    forall i :: 0 <= i < |es| ==> es[i] != Invalidate(key)
  }

  /** Who owns a lookup afterwards owned it before, or has just made its entry. */
  lemma OwnersStep(s: System, e: Event, key: Key)
    requires key in s.slow && !InFlight(s, key)
    ensures !InFlight(Step(s, e), key)
  {
    var s' := Step(s, e);
    forall c | c in s'.callers
      ensures !Owns(s'.callers[c], key)
    {
      assert c in s.callers ==> !Owns(s.callers[c], key);
    }
  }

  lemma StrandedStep(s: System, e: Event, key: Key)
    requires Stranded(s, key) && e != Invalidate(key)
    ensures var s' := Step(s, e);
            Stranded(s', key) && forall c :: Answered(s', c, key) ==> Answered(s, c, key)
  {
    var s' := Step(s, e);
    OwnersStep(s, e, key);
    forall c | c in s.callers
      ensures !Owns(s.callers[c], key)
    {
    }
  }

  lemma {:induction false} StrandedForever(s: System, es: seq<Event>, key: Key)
    requires Stranded(s, key) && Spares(es, key)
    ensures var s' := Exec(s, es);
            Stranded(s', key) && forall c :: Answered(s', c, key) ==> Answered(s, c, key)
  {
    if es != [] {
      var n := |es| - 1;
      assert Spares(es[..n], key) && es[n] != Invalidate(key);
      StrandedForever(s, es[..n], key);
      StrandedStep(Exec(s, es[..n]), es[n], key);
    }
  }

  /** Without an invalidation of the key somebody may still be answered. */
  ghost predicate AnswerPossible(s: System, key: Key) {
    exists es, c :: Spares(es, key) && Answered(Exec(s, es), c, key) && !Answered(s, c, key)
  }

  lemma AnswerWitness(s: System, es: seq<Event>, c: CallerId, key: Key)
    requires NoInvalidation(es) && Answered(Exec(s, es), c, key) && !Answered(s, c, key)
    ensures AnswerPossible(s, key)
  {
    assert Spares(es, key);
  }

  lemma AfterDrop(s: System, c: CallerId, key: Key)
    requires Inv(s) && c in s.callers && s.callers[c] == Dropping(key)
    ensures var t := Exec(s, [Drop(c)]);
            !t.poisoned && key !in t.slow && key !in t.fast && t.callers.Keys == s.callers.Keys
  {
    assert CallerOk(s, c) && EntryOk(s, key);
    ExecOne(s, Drop(c));
  }

  /** Once the failed owner has dropped the entry, a new caller looks the key up again. */
  lemma NewOwnerCanAnswer(s: System, c: CallerId, key: Key)
    requires Inv(s) && c in s.callers && s.callers[c] == Dropping(key)
    ensures AnswerPossible(s, key)
  {
    var d := UnusedId(s.callers.Keys);
    AfterDrop(s, c, key);
    var es := BecomesOwner(s, [Drop(c)], d, key);
    es := Answers(s, es, d, key, Answer(1, 0));
    AnswerWitness(s, es, d, key);
  }

  lemma OwnerCanAnswer(s: System, c: CallerId, key: Key)
    requires Inv(s) && c in s.callers && Owns(s.callers[c], key)
    ensures AnswerPossible(s, key)
  {
    assert CallerOk(s, c);
    if s.callers[c].Resolving? {
      var es := Answers(s, [], c, key, Answer(1, 0));
      AnswerWitness(s, es, c, key);
    } else if s.callers[c].Filling? {
      ExecOne(s, Fill(c));
      AnswerWitness(s, [Fill(c)], c, key);
    } else {
      NewOwnerCanAnswer(s, c, key);
    }
  }

  /** Exactly when a pending key can still be answered without invalidating it: when its lookup is in flight. */
  lemma PendingAnswerableIffInFlight(s: System, key: Key)
    requires Inv(s) && key in s.slow && s.slow[key].pending
    ensures AnswerPossible(s, key) <==> InFlight(s, key)
  {
    assert EntryOk(s, key);
    if InFlight(s, key) {
      var c :| c in s.callers && Owns(s.callers[c], key);
      OwnerCanAnswer(s, c, key);
    } else if AnswerPossible(s, key) {
      var es, c :| Spares(es, key) && Answered(Exec(s, es), c, key) && !Answered(s, c, key);
      StrandedForever(s, es, key);
    }
  }

  // ---------------------------------------------------------------- keys

  function JoinedKey(scopeName: string, collectionName: string): Key {
    scopeName + "." + collectionName
  }

  /** The joined key identifies the collection as long as scope names have no dot. */
  lemma JoinedKeyInjective(s1: string, c1: string, s2: string, c2: string)
    requires '.' !in s1 && '.' !in s2
    ensures JoinedKey(s1, c1) == JoinedKey(s2, c2) <==> s1 == s2 && c1 == c2
  {
    if JoinedKey(s1, c1) == JoinedKey(s2, c2) {
      var k := JoinedKey(s1, c1);
      assert k[|s1|] == '.' && k[|s2|] == '.';
      assert forall i :: 0 <= i < |s1| ==> k[i] == s1[i];
      assert forall i :: 0 <= i < |s2| ==> k[i] == s2[i];
      assert |s1| == |s2|;
      assert s1 == k[..|s1|] && c1 == k[|s1| + 1..] && s2 == k[..|s2|] && c2 == k[|s2| + 1..];
    }
  }

  /** The longer scope name is the shorter one, a dot and a piece with which the other collection's name begins. */
  predicate Overlap(s1: string, c1: string, s2: string, c2: string, piece: string) {
    s2 == s1 + "." + piece && c1 == piece + "." + c2
  }

  /** Exactly when two collections in scopes of different lengths share a key, and so an entry of the cache. */
  lemma KeysCollideIffScopesOverlap(s1: string, c1: string, s2: string, c2: string)
    requires |s1| < |s2|
    ensures JoinedKey(s1, c1) == JoinedKey(s2, c2) <==> exists piece :: Overlap(s1, c1, s2, c2, piece)
  {
    var k1, k2 := JoinedKey(s1, c1), JoinedKey(s2, c2);
    if k1 == k2 {
      var piece := s2[|s1| + 1..];
      assert s2 == k1[..|s2|] && k1[|s1|] == '.' && k1[..|s1|] == s1;
      assert s2 == s1 + "." + piece;
      assert c1 == k2[|s1| + 1..] == piece + "." + c2;
      assert Overlap(s1, c1, s2, c2, piece);
    } else {
      forall piece
        ensures !Overlap(s1, c1, s2, c2, piece)
      {
        if Overlap(s1, c1, s2, c2, piece) {
          OverlapCollides(s1, c1, s2, c2, piece);
        }
      }
    }
  }

  /** Exactly when two collections share a key: when they are the same, or one scope overlaps the other. */
  lemma KeysCollideIff(s1: string, c1: string, s2: string, c2: string)
    ensures JoinedKey(s1, c1) == JoinedKey(s2, c2) <==>
            || (s1 == s2 && c1 == c2)
            || (exists piece :: Overlap(s1, c1, s2, c2, piece))
            || (exists piece :: Overlap(s2, c2, s1, c1, piece))
  {
    if |s1| < |s2| {
      KeysCollideIffScopesOverlap(s1, c1, s2, c2);
    } else if |s2| < |s1| {
      KeysCollideIffScopesOverlap(s2, c2, s1, c1);
    } else if JoinedKey(s1, c1) == JoinedKey(s2, c2) {
      var k := JoinedKey(s1, c1);
      assert s1 == k[..|s1|] == s2 && c1 == k[|s1| + 1..] == c2;
    }
  }

  lemma OverlapCollides(s1: string, c1: string, s2: string, c2: string, piece: string)
    requires Overlap(s1, c1, s2, c2, piece)
    ensures JoinedKey(s1, c1) == JoinedKey(s2, c2)
  {
    assert s1 + "." + (piece + "." + c2) == s1 + "." + piece + "." + c2;
  }

  // ---------------------------------------------------------------- the code

  /** The shared maps and their critical sections; `sys` is the run of the state machine that they realize. */
  class Cache {
    var slow: map<Key, Entry>
    var fast: map<Key, Answer>
    var poisoned: bool
    ghost var sys: System

    ghost predicate Tied()
      reads this
    {
      sys.slow == slow && sys.fast == fast && sys.poisoned == poisoned
    }

    constructor ()
      ensures Tied() && sys == Initial
    {
      slow, fast, poisoned := map[], map[], false;
      sys := Initial;
    }

    /** rebuild_fast_cache_locked: iterate over the slow map in any order and swap the result in. */
    method RebuildFastCache()
      modifies this`fast
      ensures fast == Rebuilt(slow)
    {
      var collections: map<Key, Answer> := map[];
      var todo := slow.Keys;
      while todo != {}
        invariant todo <= slow.Keys
        invariant collections == map k | k in slow && k !in todo && slow[k].collectionId > 0 ::
                                 Answer(slow[k].collectionId, slow[k].manifestRev)
      {
        var k :| k in todo;
        todo := todo - {k};
        if slow[k].collectionId > 0 {
          collections := collections[k := Answer(slow[k].collectionId, slow[k].manifestRev)];
        }
      }
      fast := collections;
    }

    /** The unlocked look at the fast cache. */
    method LookFast(key: Key, ghost c: CallerId) returns (next: Caller)
      requires Tied() && c in sys.callers && sys.callers[c] == Checking(key)
      modifies this`sys
      ensures Tied() && sys == Step(old(sys), CheckFast(c)) && next == sys.callers[c]
    {
      next := if key in fast then Done(key, Ok(fast[key])) else Entering(key);
      sys := Step(sys, CheckFast(c));
    }

    /** The critical section at the head of resolve_collection_id_slow. */
    method EnterSlow(key: Key, ghost c: CallerId) returns (next: Caller)
      requires Tied() && c in sys.callers && sys.callers[c] == Entering(key)
      modifies this`slow, this`sys
      ensures Tied() && sys == Step(old(sys), Enter(c)) && next == sys.callers[c]
      ensures old(!poisoned && key in slow && !slow[key].pending) ==>
                next == Done(key, Ok(Answer(old(slow[key].collectionId), old(slow[key].manifestRev))))
    {
      if poisoned {
        next := Panicked;
      } else if key in slow {
        var entry := slow[key];
        next := if entry.pending then Waiting(key) else Done(key, Ok(Answer(entry.collectionId, entry.manifestRev)));
      } else {
        slow := slow[key := Entry(0, 0, true)];
        next := Resolving(key);
      }
      sys := Step(sys, Enter(c));
    }

    /** The critical section after a successful lookup; false is the failing expect. */
    method FillEntry(key: Key, answer: Answer, ghost c: CallerId) returns (ok: bool)
      requires Tied() && c in sys.callers && sys.callers[c] == Filling(key, answer)
      modifies this
      ensures Tied() && sys == Step(old(sys), Fill(c)) && (ok <==> !sys.callers[c].Panicked?)
    {
      ok := !poisoned && key in slow;
      if ok {
        slow := slow[key := Entry(answer.collectionId, answer.manifestRev, false)];
        RebuildFastCache();
      } else {
        poisoned := true;
      }
      sys := Step(sys, Fill(c));
    }

    /** The critical section after a failed lookup, which does not rebuild the fast cache. */
    method DropEntry(key: Key, ghost c: CallerId) returns (ok: bool)
      requires Tied() && c in sys.callers && sys.callers[c] == Dropping(key)
      modifies this`slow, this`poisoned, this`sys
      ensures Tied() && sys == Step(old(sys), Drop(c)) && (ok <==> !sys.callers[c].Panicked?)
    {
      ok := !poisoned && key in slow;
      if ok {
        slow := slow - {key};
      } else {
        poisoned := true;
      }
      sys := Step(sys, Drop(c));
    }

    /** The critical section of invalidate_collection_id; false is the panic on a poisoned lock. */
    method InvalidateEntry(key: Key) returns (ok: bool)
      requires Tied()
      modifies this
      ensures Tied() && sys == Step(old(sys), Invalidate(key)) && (ok <==> !old(sys.poisoned))
    {
      ok := !poisoned;
      if ok {
        slow := slow - {key};
        RebuildFastCache();
      }
      sys := Step(sys, Invalidate(key));
    }
  }
}
