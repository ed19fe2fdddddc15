/**
 CouchbaseQueue (sdk/couchbase/src/collection_ds.rs): any number of clients push to and pop from
 one shared array document.  A push is one server call.  A pop is a loop of at most 16 rounds, each
 of which looks up the last element together with the document's CAS and then removes the last
 element under that CAS.  Every server call is one atomic step and steps interleave arbitrarily.
 */
module QueueProtocol {
  import opened Wrappers
  import opened Common
  import opened SharedDocument

  /** A pop remembers the value that it saw at the end of the array. */
  type PopState = CallState<Value, Value>

  /** `startedAt` and `seenAt` are history: the document's version when the call began and at its last lookup. */
  datatype Call = Call(state: PopState, startedAt: nat, seenAt: nat)

  /** The operations on the abstract queue, in the order in which they took effect. */
  datatype Entry = Pushed(value: Value) | Popped(op: OpId, value: Value) | FoundEmpty(op: OpId) | Cleared

  /** `version` counts the mutations of the document. */
  datatype System = System(doc: Document, version: nat, log: seq<Entry>, pops: map<OpId, Call>)

  datatype Event =
    | Push(value: Value)
    | StartPop(op: OpId)
    | LookupLast(op: OpId)
    | RemoveLast(op: OpId)
    | CallFails(op: OpId)  // any other error of the pending server call, which then has no effect
    | Clear

  // ---------------------------------------------------------------- server calls

  /** Upserting array_prepend. */
  function Prepend(doc: Document, value: Value, cas: Cas): Document {
    Present(cas, [value] + if doc.Present? then doc.items else [])
  }

  /** lookup_in of path [-1]: the last element and the document's CAS. */
  function Lookup(doc: Document): Result<(Value, Cas), Failure> {
    if doc.Absent? then Err(DocumentNotFound)
    else if doc.items == [] then Err(PathNotFound)
    else Ok((doc.items[|doc.items| - 1], doc.cas))
  }

  /** mutate_in removing path [-1] under a CAS. */
  function Remove(doc: Document, cas: Cas, newCas: Cas): Result<Document, Failure> {
    if doc.Absent? then Err(DocumentNotFound)
    else if doc.cas != cas then Err(CasMismatch)
    else if doc.items == [] then Err(PathNotFound)
    else Ok(Present(newCas, doc.items[..|doc.items| - 1]))
  }

  // ---------------------------------------------------------------- client steps

  function AfterLookup(attempt: nat, response: Result<(Value, Cas), Failure>): PopState {
    match response
    case Err(e) => Finished(Err(e))
    case Ok((value, cas)) => Removing(attempt, cas, value)
  }

  function AfterRemove(attempt: nat, value: Value, response: Result<Document, Failure>): PopState {
    match response
    case Ok(_) => Finished(Ok(value))
    case Err(e) => AfterRound(attempt, if e == CasMismatch then None else Some(Err(e)))
  }

  /** What a call has done to the abstract queue, by the state it is in: nothing until it ends. */
  function Effect(op: OpId, state: PopState): seq<Entry> {
    match state
    case Finished(Ok(v)) => [Popped(op, v)]
    case Finished(Err(e)) => if e.DocumentNotFound? || e.PathNotFound? then [FoundEmpty(op)] else []
    case _ => []
  }

  /** A call moves on; if that ends it, its effect enters the log. */
  function Move(s: System, op: OpId, call: Call): System {
    s.(pops := s.pops[op := call], log := s.log + Effect(op, call.state))
  }

  function AfterLookupStep(s: System, op: OpId): System
    requires op in s.pops && s.pops[op].state.Reading?
  {
    Move(s, op, s.pops[op].(state := AfterLookup(s.pops[op].state.attempt, Lookup(s.doc)), seenAt := s.version))
  }

  function AfterRemoveStep(stamp: nat -> Cas, s: System, op: OpId): System
    requires op in s.pops && s.pops[op].state.Removing?
  {
    var call := s.pops[op];
    var response := Remove(s.doc, call.state.cas, stamp(s.version + 1));
    var moved := Move(s, op, call.(state := AfterRemove(call.state.attempt, call.state.seen, response)));
    if response.Ok? then moved.(doc := response.value, version := s.version + 1) else moved
  }

  /** One atomic step of the whole system.  A step that is not enabled changes nothing. */
  function Step(stamp: nat -> Cas, s: System, e: Event): System {
    match e
    case Push(v) =>
      s.(doc := Prepend(s.doc, v, stamp(s.version + 1)), version := s.version + 1, log := s.log + [Pushed(v)])
    case Clear =>
      if s.doc.Absent? then s else s.(doc := Absent, version := s.version + 1, log := s.log + [Cleared])
    case StartPop(op) =>
      if op in s.pops then s else s.(pops := s.pops[op := Call(Reading(0), s.version, s.version)])
    case LookupLast(op) =>
      if op in s.pops && s.pops[op].state.Reading? then AfterLookupStep(s, op) else s
    case RemoveLast(op) =>
      if op in s.pops && s.pops[op].state.Removing? then AfterRemoveStep(stamp, s, op) else s
    case CallFails(op) =>
      if op in s.pops && !s.pops[op].state.Finished? then
        s.(pops := s.pops[op := s.pops[op].(state := Finished(Err(Other)))])
      else s
  }

  function Exec(stamp: nat -> Cas, s: System, es: seq<Event>): System {
    if es == [] then s else Step(stamp, Exec(stamp, s, es[..|es| - 1]), es[|es| - 1])
  }

  const Start: System := System(Absent, 0, [], map[])

  function Run(stamp: nat -> Cas, es: seq<Event>): System {
    Exec(stamp, Start, es)
  }

  // ---------------------------------------------------------------- the atomic queue

  /** What CouchbaseQueue::iter yields for a document: the oldest element first. */
  function Queue(doc: Document): seq<Value> {
    if doc.Absent? then [] else Reversed(doc.items)
  }

  /** The sequential FIFO queue: one operation, None if its answer is not the one the queue gives. */
  function ReplayOne(queue: seq<Value>, entry: Entry): Option<seq<Value>> {
    match entry
    case Pushed(v) => Some(queue + [v])
    case Cleared => Some([])
    case Popped(_, v) => if queue != [] && queue[0] == v then Some(queue[1..]) else None
    case FoundEmpty(_) => if queue == [] then Some([]) else None
  }

  /** Its content after a log of operations. */
  function Replay(log: seq<Entry>): Option<seq<Value>> {
    if log == [] then Some([])
    else
      var before := Replay(log[..|log| - 1]);
      if before.None? then None else ReplayOne(before.value, log[|log| - 1])
  }

  function PushValues(log: seq<Entry>): seq<Value> {
    if log == [] then []
    else PushValues(log[..|log| - 1]) + match log[|log| - 1] case Pushed(v) => [v] case _ => []
  }

  function PopValues(log: seq<Entry>): seq<Value> {
    if log == [] then []
    else PopValues(log[..|log| - 1]) + match log[|log| - 1] case Popped(_, v) => [v] case _ => []
  }

  predicate IsEntryOf(entry: Entry, op: OpId) {
    (entry.Popped? || entry.FoundEmpty?) && entry.op == op
  }

  /** What one pop call did to the queue. */
  function EntriesOf(log: seq<Entry>, op: OpId): seq<Entry> {
    if log == [] then []
    else
      var n := |log| - 1;
      EntriesOf(log[..n], op) + if IsEntryOf(log[n], op) then [log[n]] else []
  }

  lemma ReplaySnoc(log: seq<Entry>, entry: Entry)
    ensures Replay(log + [entry]) ==
            if Replay(log).None? then None else ReplayOne(Replay(log).value, entry)
  {
    assert (log + [entry])[..|log + [entry]| - 1] == log;
  }

  lemma EntriesSnoc(log: seq<Entry>, entry: Entry, op: OpId)
    ensures EntriesOf(log + [entry], op) == EntriesOf(log, op) + if IsEntryOf(entry, op) then [entry] else []
  {
    assert (log + [entry])[..|log + [entry]| - 1] == log;
  }

  // ---------------------------------------------------------------- invariant

  ghost predicate CallOk(stamp: nat -> Cas, s: System, op: OpId)
    requires op in s.pops
  {
    var call := s.pops[op];
    && call.startedAt <= call.seenAt <= s.version
    && EntriesOf(s.log, op) == Effect(op, call.state)
    && match call.state
       case Reading(a) => a < MAX_ATTEMPTS && call.startedAt + a <= s.version
       case Removing(a, cas, v) =>
         && a < MAX_ATTEMPTS && call.startedAt + a <= call.seenAt && cas == stamp(call.seenAt)
         && (call.seenAt == s.version ==> LastIs(s.doc, v))
       case Finished(r) => r == Err(TooManyRetries) ==> call.startedAt + MAX_ATTEMPTS <= s.version
  }

  predicate LastIs(doc: Document, v: Value) {
    doc.Present? && doc.items != [] && doc.items[|doc.items| - 1] == v
  }

  ghost predicate CallsOk(stamp: nat -> Cas, s: System) {
    && (forall op :: op in s.pops ==> CallOk(stamp, s, op))
    && (forall op :: op !in s.pops ==> EntriesOf(s.log, op) == [])
  }

  ghost predicate Inv(stamp: nat -> Cas, s: System) {
    && Replay(s.log) == Some(Queue(s.doc))
    && (s.doc.Present? ==> s.doc.cas == stamp(s.version))
    && CallsOk(stamp, s)
  }

  lemma PushKeepsAbstraction(doc: Document, v: Value, cas: Cas)
    ensures Queue(Prepend(doc, v, cas)) == Queue(doc) + [v]
  {
    var items := if doc.Present? then doc.items else [];
    assert Reversed([v] + items) == Reversed(items) + [v];
  }

  lemma PopKeepsAbstraction(items: seq<Value>)
    requires items != []
    ensures Reversed(items) == [items[|items| - 1]] + Reversed(items[..|items| - 1])
  {}

  /** A call that does not move stays sound: what it saw may be outdated, which its CAS will reveal. */
  lemma CallSurvives(stamp: nat -> Cas, s: System, s': System, op: OpId)
    requires op in s.pops && op in s'.pops && s'.pops[op] == s.pops[op]
    requires CallOk(stamp, s, op)
    requires EntriesOf(s'.log, op) == EntriesOf(s.log, op)
    requires s'.version > s.version || (s'.version == s.version && s'.doc == s.doc)
    ensures CallOk(stamp, s', op)
  {}

  /** A mutation that belongs to no call. */
  lemma ForeignMutation(stamp: nat -> Cas, s: System, s': System, entry: Entry)
    requires CallsOk(stamp, s) && (entry.Pushed? || entry.Cleared?)
    requires s'.pops == s.pops && s'.log == s.log + [entry] && s'.version == s.version + 1
    ensures CallsOk(stamp, s')
  {
    forall op
      ensures EntriesOf(s'.log, op) == EntriesOf(s.log, op)
      ensures op in s'.pops ==> CallOk(stamp, s', op)
    {
      EntriesSnoc(s.log, entry, op);
      if op in s.pops {
        CallSurvives(stamp, s, s', op);
      }
    }
  }

  lemma PushInv(stamp: nat -> Cas, s: System, v: Value)
    requires Inv(stamp, s)
    ensures Inv(stamp, Step(stamp, s, Push(v)))
  {
    ReplaySnoc(s.log, Pushed(v));
    PushKeepsAbstraction(s.doc, v, stamp(s.version + 1));
    ForeignMutation(stamp, s, Step(stamp, s, Push(v)), Pushed(v));
  }

  lemma ClearInv(stamp: nat -> Cas, s: System)
    requires Inv(stamp, s) && s.doc.Present?
    ensures Inv(stamp, Step(stamp, s, Clear))
  {
    ReplaySnoc(s.log, Cleared);
    ForeignMutation(stamp, s, Step(stamp, s, Clear), Cleared);
  }

  lemma EffectSnoc(log: seq<Entry>, op: OpId, state: PopState, o: OpId)
    ensures EntriesOf(log + Effect(op, state), o) == EntriesOf(log, o) + if o == op then Effect(op, state) else []
  {
    if Effect(op, state) != [] {
      EntriesSnoc(log, Effect(op, state)[0], o);
    } else {
      assert log + [] == log;
    }
  }

  /** One call moves, and with its effect nothing else but the document changes. */
  lemma OwnStep(stamp: nat -> Cas, s: System, s': System, op: OpId)
    requires CallsOk(stamp, s) && op in s.pops && op in s'.pops
    requires s'.pops == s.pops[op := s'.pops[op]] && s'.log == s.log + Effect(op, s'.pops[op].state)
    requires s'.version > s.version || (s'.version == s.version && s'.doc == s.doc)
    requires CallOk(stamp, s', op)
    ensures CallsOk(stamp, s')
  {
    forall o | o != op
      ensures EntriesOf(s'.log, o) == EntriesOf(s.log, o)
      ensures o in s'.pops ==> CallOk(stamp, s', o)
    {
      EffectSnoc(s.log, op, s'.pops[op].state, o);
      if o in s.pops {
        CallSurvives(stamp, s, s', o);
      }
    }
  }

  /** A lookup that finds nothing has found the queue empty. */
  lemma LookupInv(stamp: nat -> Cas, s: System, op: OpId)
    requires Inv(stamp, s) && op in s.pops && s.pops[op].state.Reading?
    ensures Inv(stamp, AfterLookupStep(s, op))
  {
    var s' := AfterLookupStep(s, op);
    assert CallOk(stamp, s, op);
    LookupReplays(stamp, s, op);
    LookupCall(stamp, s, op);
    OwnStep(stamp, s, s', op);
  }

  lemma LookupReplays(stamp: nat -> Cas, s: System, op: OpId)
    requires Replay(s.log) == Some(Queue(s.doc)) && op in s.pops && s.pops[op].state.Reading?
    ensures Replay(AfterLookupStep(s, op).log) == Some(Queue(s.doc))
  {
    HarmlessEffect(s.log, s.doc, op, AfterLookupStep(s, op).pops[op].state);
  }

  lemma LookupCall(stamp: nat -> Cas, s: System, op: OpId)
    requires op in s.pops && s.pops[op].state.Reading? && CallOk(stamp, s, op)
    requires s.doc.Present? ==> s.doc.cas == stamp(s.version)
    ensures CallOk(stamp, AfterLookupStep(s, op), op)
  {
    EffectSnoc(s.log, op, AfterLookupStep(s, op).pops[op].state, op);
  }

  /** The heart of the protocol: a remove whose CAS matches takes the value its lookup saw, the head of the queue. */
  lemma MatchingCasTakesHead(stamp: nat -> Cas, s: System, op: OpId)
    requires Fresh(stamp) && Inv(stamp, s)
    requires op in s.pops && s.pops[op].state.Removing?
    requires Remove(s.doc, s.pops[op].state.cas, stamp(s.version + 1)).Ok?
    ensures Queue(s.doc) == [s.pops[op].state.seen] + Reversed(s.doc.items[..|s.doc.items| - 1])
  {
    assert CallOk(stamp, s, op);
    PopKeepsAbstraction(s.doc.items);
  }

  lemma RemoveInv(stamp: nat -> Cas, s: System, op: OpId)
    requires Fresh(stamp) && Inv(stamp, s)
    requires op in s.pops && s.pops[op].state.Removing?
    ensures Inv(stamp, AfterRemoveStep(stamp, s, op))
  {
    if Remove(s.doc, s.pops[op].state.cas, stamp(s.version + 1)).Ok? {
      RemoveCommits(stamp, s, op);
    } else {
      RemoveRefused(stamp, s, op);
    }
    assert CallOk(stamp, s, op);
    RemoveCall(stamp, s, op);
    RemoveFrame(stamp, s, op);
    OwnStep(stamp, s, AfterRemoveStep(stamp, s, op), op);
  }

  lemma RemoveFrame(stamp: nat -> Cas, s: System, op: OpId)
    requires op in s.pops && s.pops[op].state.Removing?
    ensures var s' := AfterRemoveStep(stamp, s, op);
            && op in s'.pops && s'.pops == s.pops[op := s'.pops[op]]
            && s'.log == s.log + Effect(op, s'.pops[op].state)
            && (s'.version == s.version + 1 || (s'.version == s.version && s'.doc == s.doc))
  {}

  lemma RemoveCommits(stamp: nat -> Cas, s: System, op: OpId)
    requires Fresh(stamp) && Inv(stamp, s)
    requires op in s.pops && s.pops[op].state.Removing?
    requires Remove(s.doc, s.pops[op].state.cas, stamp(s.version + 1)).Ok?
    ensures var s' := AfterRemoveStep(stamp, s, op);
            Replay(s'.log) == Some(Queue(s'.doc)) && s'.doc.Present? && s'.doc.cas == stamp(s'.version)
  {
    MatchingCasTakesHead(stamp, s, op);
    ReplaySnoc(s.log, Popped(op, s.pops[op].state.seen));
  }

  /** A refused removal leaves the document alone; if there was nothing to remove the queue was empty. */
  lemma RemoveRefused(stamp: nat -> Cas, s: System, op: OpId)
    requires Replay(s.log) == Some(Queue(s.doc))
    requires op in s.pops && s.pops[op].state.Removing?
    requires Remove(s.doc, s.pops[op].state.cas, stamp(s.version + 1)).Err?
    ensures var s' := AfterRemoveStep(stamp, s, op);
            s'.doc == s.doc && s'.version == s.version && Replay(s'.log) == Some(Queue(s'.doc))
  {
    var call := s.pops[op];
    RefusedEffect(s.doc, call.state.cas, stamp(s.version + 1), op, call.state.attempt, call.state.seen);
    HarmlessEffect(s.log, s.doc, op, AfterRemoveStep(stamp, s, op).pops[op].state);
  }

  lemma RefusedEffect(doc: Document, cas: Cas, newCas: Cas, op: OpId, attempt: nat, value: Value)
    requires Remove(doc, cas, newCas).Err?
    ensures Harmless(doc, op, AfterRemove(attempt, value, Remove(doc, cas, newCas)))
  {}

  /** The effect is none, or a look at a queue that is empty. */
  predicate Harmless(doc: Document, op: OpId, state: PopState) {
    Effect(op, state) == [] || (Effect(op, state) == [FoundEmpty(op)] && Queue(doc) == [])
  }

  lemma HarmlessEffect(log: seq<Entry>, doc: Document, op: OpId, state: PopState)
    requires Replay(log) == Some(Queue(doc)) && Harmless(doc, op, state)
    ensures Replay(log + Effect(op, state)) == Some(Queue(doc))
  {
    NeutralEntries(log, Queue(doc), Effect(op, state), op);
  }

  lemma NeutralEntries(log: seq<Entry>, queue: seq<Value>, entries: seq<Entry>, op: OpId)
    requires Replay(log) == Some(queue)
    requires entries == [] || (entries == [FoundEmpty(op)] && queue == [])
    ensures Replay(log + entries) == Some(queue)
  {
    if entries == [] {
      assert log + entries == log;
    } else {
      ReplaySnoc(log, FoundEmpty(op));
    }
  }

  lemma RemoveCall(stamp: nat -> Cas, s: System, op: OpId)
    requires Fresh(stamp) && op in s.pops && s.pops[op].state.Removing? && CallOk(stamp, s, op)
    requires s.doc.Present? ==> s.doc.cas == stamp(s.version)
    ensures CallOk(stamp, AfterRemoveStep(stamp, s, op), op)
  {
    EffectSnoc(s.log, op, AfterRemoveStep(stamp, s, op).pops[op].state, op);
  }

  lemma StartInv(stamp: nat -> Cas, s: System, op: OpId)
    requires Inv(stamp, s) && op !in s.pops
    ensures Inv(stamp, Step(stamp, s, StartPop(op)))
  {
    var s' := Step(stamp, s, StartPop(op));
    forall o | o in s'.pops
      ensures CallOk(stamp, s', o)
    {
      if o != op {
        CallSurvives(stamp, s, s', o);
      }
    }
  }

  /** A call that fails for another reason has done nothing. */
  lemma FailInv(stamp: nat -> Cas, s: System, op: OpId)
    requires Inv(stamp, s) && op in s.pops && !s.pops[op].state.Finished?
    ensures Inv(stamp, Step(stamp, s, CallFails(op)))
  {
    var s' := Step(stamp, s, CallFails(op));
    assert CallOk(stamp, s, op);
    assert s.log + [] == s.log;
    OwnStep(stamp, s, s', op);
  }

  lemma StepInv(stamp: nat -> Cas, s: System, e: Event)
    requires Fresh(stamp) && Inv(stamp, s)
    ensures Inv(stamp, Step(stamp, s, e))
  {
    match e
    case Push(v) => PushInv(stamp, s, v);
    case Clear => if s.doc.Present? { ClearInv(stamp, s); }
    case LookupLast(op) => if op in s.pops && s.pops[op].state.Reading? { LookupInv(stamp, s, op); }
    case RemoveLast(op) => if op in s.pops && s.pops[op].state.Removing? { RemoveInv(stamp, s, op); }
    case StartPop(op) => if op !in s.pops { StartInv(stamp, s, op); }
    case CallFails(op) => if op in s.pops && !s.pops[op].state.Finished? { FailInv(stamp, s, op); }
  }

  lemma {:induction false} ExecInv(stamp: nat -> Cas, s: System, es: seq<Event>)
    requires Fresh(stamp) && Inv(stamp, s)
    ensures Inv(stamp, Exec(stamp, s, es))
  {
    if es != [] {
      ExecInv(stamp, s, es[..|es| - 1]);
      StepInv(stamp, Exec(stamp, s, es[..|es| - 1]), es[|es| - 1]);
    }
  }

  // ---------------------------------------------------------------- main results

  /**
   Linearizability: in every run the operations, in the order in which they took effect, are a run of
   the atomic FIFO queue: a pop takes the head, and a pop that finds nothing finds the queue empty.
   */
  lemma QueueLinearizable(stamp: nat -> Cas, es: seq<Event>)
    requires Fresh(stamp)
    ensures var s := Run(stamp, es); Replay(s.log) == Some(Queue(s.doc))
  {
    ExecInv(stamp, Start, es);
  }

  /** The law of the atomic queue: without clears, the popped values followed by the content are the pushed values. */
  lemma {:induction false} FifoLaw(log: seq<Entry>)
    requires Replay(log).Some? && Cleared !in log
    ensures PopValues(log) + Replay(log).value == PushValues(log)
  {
    if log != [] {
      var before := log[..|log| - 1];
      assert Replay(before).Some?;
      FifoLaw(before);
      var q := Replay(before).value;
      match log[|log| - 1] {
        case Pushed(v) =>
        case Popped(_, v) => assert q == [v] + q[1..];
        case FoundEmpty(_) =>
        case Cleared => assert false;
      }
    }
  }

  lemma OnlyClearClears(stamp: nat -> Cas, s: System, e: Event)
    requires e != Clear && Cleared !in s.log
    ensures Cleared !in Step(stamp, s, e).log
  {}

  lemma {:induction false} NoClearCommits(stamp: nat -> Cas, es: seq<Event>)
    requires Clear !in es
    ensures Cleared !in Run(stamp, es).log
  {
    if es != [] {
      var n := |es| - 1;
      assert es[n] in es;
      NoClearCommits(stamp, es[..n]);
      OnlyClearClears(stamp, Run(stamp, es[..n]), es[n]);
    }
  }

  /** FIFO under any interleaving of any number of clients. */
  lemma FifoUnderInterleaving(stamp: nat -> Cas, es: seq<Event>)
    requires Fresh(stamp) && Clear !in es
    ensures var s := Run(stamp, es); PopValues(s.log) + Queue(s.doc) == PushValues(s.log)
  {
    QueueLinearizable(stamp, es);
    NoClearCommits(stamp, es);
    FifoLaw(Run(stamp, es).log);
  }

  ghost predicate DidWhatItSays(entries: seq<Entry>, op: OpId, state: PopState) {
    && (!state.Finished? ==> entries == [])
    && (state.Finished? && state.result.Ok? ==> entries == [Popped(op, state.result.value)])
    && (state.Finished? && state.result.Err? ==>
          entries == if state.result.error in {DocumentNotFound, PathNotFound} then [FoundEmpty(op)] else [])
  }

  /**
   A pop call has taken effect at most once, and its answer says how: it removed the value it returned,
   it found the queue empty if it answered not found, and it did nothing if it failed or gave up.
   */
  lemma PopRemovesWhatItReturns(stamp: nat -> Cas, es: seq<Event>, op: OpId)
    requires Fresh(stamp) && op in Run(stamp, es).pops
    ensures var s := Run(stamp, es);
            DidWhatItSays(EntriesOf(s.log, op), op, s.pops[op].state)
  {
    ExecInv(stamp, Start, es);
    assert CallOk(stamp, Run(stamp, es), op);
  }

  /** Progress of the others: a pop that gives up was overtaken by at least 16 mutations, none its own. */
  lemma GivingUpMeansContention(stamp: nat -> Cas, es: seq<Event>, op: OpId)
    requires Fresh(stamp)
    requires op in Run(stamp, es).pops && Run(stamp, es).pops[op].state == Finished(Err(TooManyRetries))
    ensures var s := Run(stamp, es);
            s.pops[op].startedAt + 16 <= s.version && EntriesOf(s.log, op) == []
  {
    ExecInv(stamp, Start, es);
    assert CallOk(stamp, Run(stamp, es), op);
  }

  // ---------------------------------------------------------------- what the other operations do

  /** A push appends its value, and a clear leaves nothing. */
  lemma PushAndClear(stamp: nat -> Cas, s: System, v: Value)
    ensures Queue(Step(stamp, s, Push(v)).doc) == Queue(s.doc) + [v]
    ensures Step(stamp, s, Push(v)).log == s.log + [Pushed(v)]
    ensures Queue(Step(stamp, s, Clear).doc) == [] && Step(stamp, s, Clear).doc.Absent?
    ensures s.doc.Present? ==> Step(stamp, s, Clear).log == s.log + [Cleared]
  {
    PushKeepsAbstraction(s.doc, v, stamp(s.version + 1));
  }

  // ---------------------------------------------------------------- how a call ends

  /** A removal that meets no document, or nothing to remove, ends the call at once. */
  lemma NothingLeftEndsCall(stamp: nat -> Cas, s: System, op: OpId)
    requires op in s.pops && s.pops[op].state.Removing?
    ensures s.doc.Absent? ==> Step(stamp, s, RemoveLast(op)).pops[op].state == Finished(Err(DocumentNotFound))
    ensures s.doc.Present? && s.doc.cas == s.pops[op].state.cas && s.doc.items == [] ==>
              Step(stamp, s, RemoveLast(op)).pops[op].state == Finished(Err(PathNotFound))
  {}

  /** A lost server call ends the call with its error and touches nothing else. */
  lemma LostCallEndsCall(stamp: nat -> Cas, s: System, op: OpId)
    requires op in s.pops && !s.pops[op].state.Finished?
    ensures var t := Step(stamp, s, CallFails(op));
            && t.pops[op].state == Finished(Err(Other)) && t.pops - {op} == s.pops - {op}
            && t.doc == s.doc && t.log == s.log
  {}

  /** A CAS conflict never ends a call, and another error only if one of its server calls was lost. */
  ghost predicate AnswerExplained(s: System, op: OpId, lost: bool) {
    op in s.pops && s.pops[op].state.Finished? && s.pops[op].state.result.Err? ==>
      var e := s.pops[op].state.result.error;
      e == DocumentNotFound || e == PathNotFound || e == TooManyRetries || (e == Other && lost)
  }

  lemma AnswerStep(stamp: nat -> Cas, s: System, e: Event, op: OpId, lost: bool)
    requires AnswerExplained(s, op, lost)
    ensures AnswerExplained(Step(stamp, s, e), op, lost || e == CallFails(op))
  {}

  /**
   In every run a pop that ends with an error found no document or no element, gave up after its rounds, or
   lost a server call.
   */
  lemma {:induction false} PopAnswers(stamp: nat -> Cas, es: seq<Event>, op: OpId)
    ensures AnswerExplained(Run(stamp, es), op, CallFails(op) in es)
  {
    if es != [] {
      var n := |es| - 1;
      PopAnswers(stamp, es[..n], op);
      AnswerStep(stamp, Run(stamp, es[..n]), es[n], op, CallFails(op) in es[..n]);
      assert es == es[..n] + [es[n]];
    }
  }

  /** A pop that nobody disturbs takes the head of the queue, or says what is missing. */
  lemma UndisturbedPop(stamp: nat -> Cas, s: System, op: OpId)
    requires Fresh(stamp) && Inv(stamp, s) && op !in s.pops
    ensures var t := Step(stamp, Step(stamp, Step(stamp, s, StartPop(op)), LookupLast(op)), RemoveLast(op));
            && op in t.pops
            && (Queue(s.doc) != [] ==>
                  t.pops[op].state == Finished(Ok(Queue(s.doc)[0])) && Queue(t.doc) == Queue(s.doc)[1..])
            && (s.doc.Absent? ==> t.pops[op].state == Finished(Err(DocumentNotFound)) && t.doc == s.doc)
            && (s.doc.Present? && s.doc.items == [] ==>
                  t.pops[op].state == Finished(Err(PathNotFound)) && t.doc == s.doc)
  {
    var u := Step(stamp, Step(stamp, s, StartPop(op)), LookupLast(op));
    assert u.doc == s.doc && u.version == s.version && op in u.pops;
    if Queue(s.doc) != [] {
      assert u.pops[op].state == Removing(0, s.doc.cas, Queue(s.doc)[0]);
      PopKeepsAbstraction(s.doc.items);
    }
  }

  /** The call is about to look up, in its n-th round; after sixteen rounds it has given up. */
  ghost predicate InRound(s: System, op: OpId, n: nat) {
    && Queue(s.doc) != [] && op in s.pops
    && s.pops[op].state == if n < 16 then Reading(n) else Finished(Err(TooManyRetries))
  }

  /** It is about to remove what it has seen, under the current CAS or an outdated one. */
  ghost predicate HasSeen(s: System, op: OpId, n: nat, current: bool) {
    && Queue(s.doc) != [] && op in s.pops && s.pops[op].state.Removing? && s.pops[op].state.attempt == n
    && (s.pops[op].state.cas == s.doc.cas <==> current)
  }

  lemma SeesHead(stamp: nat -> Cas, s: System, op: OpId, n: nat)
    requires InRound(s, op, n) && n < 16
    ensures HasSeen(Step(stamp, s, LookupLast(op)), op, n, true)
  {}

  lemma Overtaken(stamp: nat -> Cas, s: System, op: OpId, n: nat, v: Value)
    requires HasSeen(s, op, n, true) && Fresh(stamp) && s.doc.cas == stamp(s.version)
    ensures HasSeen(Step(stamp, s, Push(v)), op, n, false)
  {
    PushKeepsAbstraction(s.doc, v, stamp(s.version + 1));
  }

  /** A CAS conflict leads to the next round, or after sixteen of them to giving up. */
  lemma ConflictIsRetried(stamp: nat -> Cas, s: System, op: OpId, n: nat)
    requires HasSeen(s, op, n, false)
    ensures InRound(Step(stamp, s, RemoveLast(op)), op, n + 1)
    ensures Step(stamp, s, RemoveLast(op)).doc == s.doc
  {}

  lemma LookupInRun(stamp: nat -> Cas, s: System, es: seq<Event>, op: OpId, n: nat) returns (longer: seq<Event>)
    requires InRound(Exec(stamp, s, es), op, n) && n < 16
    ensures |longer| == |es| + 1 && HasSeen(Exec(stamp, s, longer), op, n, true)
  {
    SeesHead(stamp, Exec(stamp, s, es), op, n);
    ExecSnoc(stamp, s, es, LookupLast(op));
    longer := es + [LookupLast(op)];
  }

  lemma PushInRun(stamp: nat -> Cas, s: System, es: seq<Event>, op: OpId, n: nat, v: Value)
    returns (longer: seq<Event>)
    requires Fresh(stamp) && Inv(stamp, s) && HasSeen(Exec(stamp, s, es), op, n, true)
    ensures |longer| == |es| + 1 && HasSeen(Exec(stamp, s, longer), op, n, false)
  {
    CasIsCurrent(stamp, s, es);
    Overtaken(stamp, Exec(stamp, s, es), op, n, v);
    ExecSnoc(stamp, s, es, Push(v));
    longer := es + [Push(v)];
  }

  lemma CasIsCurrent(stamp: nat -> Cas, s: System, es: seq<Event>)
    requires Fresh(stamp) && Inv(stamp, s)
    ensures var t := Exec(stamp, s, es); t.doc.Present? ==> t.doc.cas == stamp(t.version)
  {
    ExecInv(stamp, s, es);
  }

  lemma RemoveInRun(stamp: nat -> Cas, s: System, es: seq<Event>, op: OpId, n: nat) returns (longer: seq<Event>)
    requires HasSeen(Exec(stamp, s, es), op, n, false)
    ensures |longer| == |es| + 1 && InRound(Exec(stamp, s, longer), op, n + 1)
  {
    ConflictIsRetried(stamp, Exec(stamp, s, es), op, n);
    ExecSnoc(stamp, s, es, RemoveLast(op));
    longer := es + [RemoveLast(op)];
  }

  /** Under contention a pop goes on for sixteen rounds, two server calls each, and then gives up. */
  lemma {:induction false} GivesUpAfterSixteenRounds(stamp: nat -> Cas, s: System, op: OpId, v: Value, n: nat)
    returns (es: seq<Event>)
    requires Fresh(stamp) && Inv(stamp, s) && n <= 16 && InRound(s, op, 0)
    ensures |es| == 3 * n && InRound(Exec(stamp, s, es), op, n)
  {
    if n == 0 {
      es := [];
    } else {
      es := GivesUpAfterSixteenRounds(stamp, s, op, v, n - 1);
      es := LookupInRun(stamp, s, es, op, n - 1);
      es := PushInRun(stamp, s, es, op, n - 1, v);
      es := RemoveInRun(stamp, s, es, op, n - 1);
    }
  }

  // ---------------------------------------------------------------- the client loop

  lemma ExecSnoc(stamp: nat -> Cas, s: System, es: seq<Event>, e: Event)
    ensures Exec(stamp, s, es + [e]) == Step(stamp, Exec(stamp, s, es), e)
  {
    assert (es + [e])[..|es + [e]| - 1] == es;
  }

  /** Is `e` a step of pop call `op`? */
  predicate StepOf(e: Event, op: OpId) {
    e == StartPop(op) || e == LookupLast(op) || e == RemoveLast(op) || e == CallFails(op)
  }

  predicate OnlyOthers(es: seq<Event>, op: OpId) {
    forall i :: 0 <= i < |es| ==> !StepOf(es[i], op)
  }

  lemma OthersLeaveCallAlone(stamp: nat -> Cas, s: System, e: Event, op: OpId)
    requires op in s.pops && !StepOf(e, op)
    ensures op in Step(stamp, s, e).pops && Step(stamp, s, e).pops[op] == s.pops[op]
  {}

  /** The server with its history, and what the network does to the calls of one client. */
  class Server {
    const stamp: nat -> Cas
    var doc: Document
    var version: nat
    var log: seq<Entry>
    var pops: map<OpId, Call>

    constructor (stamp: nat -> Cas)
      ensures this.stamp == stamp && View() == Start
    {
      this.stamp := stamp;
      doc, version, log, pops := Absent, 0, [], map[];
    }

    function View(): System
      reads this
    {
      System(doc, version, log, pops)
    }

    /** A step of the state machine. */
    method Perform(e: Event, ghost before: System, ghost trace: seq<Event>) returns (ghost longer: seq<Event>)
      requires View() == Exec(stamp, before, trace)
      modifies this
      ensures longer == trace + [e] && View() == Exec(stamp, before, longer)
      ensures View() == Step(stamp, old(View()), e)
    {
      var next := Step(stamp, View(), e);
      doc, version, log, pops := next.doc, next.version, next.log, next.pops;
      ExecSnoc(stamp, before, trace, e);
      longer := trace + [e];
    }

    /** Any steps of the other clients: they leave the call alone. */
    method Interfere(op: OpId, es: seq<Event>, ghost before: System, ghost trace: seq<Event>)
      returns (ghost longer: seq<Event>)
      requires View() == Exec(stamp, before, trace) && OnlyOthers(es, op) && op in pops
      modifies this
      ensures View() == Exec(stamp, before, longer)
      ensures op in pops && pops[op] == old(pops[op])
      ensures es == [] ==> View() == old(View())
    {
      longer := trace;
      for i := 0 to |es|
        invariant View() == Exec(stamp, before, longer)
        invariant op in pops && pops[op] == old(pops[op])
        invariant i == 0 ==> View() == old(View())
      {
        OthersLeaveCallAlone(stamp, View(), es[i], op);
        longer := Perform(es[i], before, longer);
      }
    }

    method LookupLastItem(op: OpId) returns (response: Result<(Value, Cas), Failure>)
      requires op in pops && pops[op].state.Reading?
      modifies this`pops, this`log
      ensures response == Lookup(doc)
      ensures View() == Step(stamp, old(View()), LookupLast(op))
      ensures op in pops && pops[op].state == AfterLookup(old(pops[op].state.attempt), response)
    {
      response := Lookup(doc);
      var state := AfterLookup(pops[op].state.attempt, response);
      pops := pops[op := pops[op].(state := state, seenAt := version)];
      log := log + Effect(op, state);
    }

    method RemoveLastItem(op: OpId, cas: Cas) returns (response: Result<Document, Failure>)
      requires op in pops && pops[op].state.Removing? && pops[op].state.cas == cas
      modifies this
      ensures response == Remove(old(doc), cas, stamp(old(version) + 1))
      ensures View() == Step(stamp, old(View()), RemoveLast(op))
      ensures op in pops
      ensures pops[op].state == AfterRemove(old(pops[op].state.attempt), old(pops[op].state.seen), response)
    {
      var call := pops[op];
      response := Remove(doc, cas, stamp(version + 1));
      var state := AfterRemove(call.state.attempt, call.state.seen, response);
      if response.Ok? {
        doc, version := response.value, version + 1;
      }
      pops := pops[op := call.(state := state)];
      log := log + Effect(op, state);
    }

    /** The server never sees the call, and the client gets some other error. */
    method LoseCall(op: OpId, ghost before: System, ghost trace: seq<Event>) returns (ghost longer: seq<Event>)
      requires View() == Exec(stamp, before, trace) && op in pops && !pops[op].state.Finished?
      modifies this
      ensures View() == Exec(stamp, before, longer)
      ensures op in pops && pops[op].state == Finished(Err(Other))
    {
      longer := Perform(CallFails(op), before, trace);
    }

    /** The lookup call of one round. */
    method CallLookup(op: OpId, fault: bool, ghost before: System, ghost trace: seq<Event>)
      returns (response: Result<(Value, Cas), Failure>, ghost longer: seq<Event>)
      requires View() == Exec(stamp, before, trace) && op in pops && pops[op].state.Reading?
      modifies this
      ensures View() == Exec(stamp, before, longer)
      ensures op in pops && pops[op].state == AfterLookup(old(pops[op].state.attempt), response)
      ensures response == if fault then Err(Other) else Lookup(old(doc))
      ensures !fault ==> doc == old(doc) && version == old(version)
    {
      if fault {
        longer := LoseCall(op, before, trace);
        response := Err(Other);
      } else {
        response := LookupLastItem(op);
        ExecSnoc(stamp, before, trace, LookupLast(op));
        longer := trace + [LookupLast(op)];
      }
    }

    /** The removal call of one round. */
    method CallRemove(op: OpId, cas: Cas, fault: bool, ghost before: System, ghost trace: seq<Event>)
      returns (response: Result<Document, Failure>, ghost longer: seq<Event>)
      requires View() == Exec(stamp, before, trace)
      requires op in pops && pops[op].state.Removing? && pops[op].state.cas == cas
      modifies this
      ensures View() == Exec(stamp, before, longer) && op in pops
      ensures pops[op].state == AfterRemove(old(pops[op].state.attempt), old(pops[op].state.seen), response)
      ensures response == if fault then Err(Other) else Remove(old(doc), cas, stamp(old(version) + 1))
    {
      if fault {
        longer := LoseCall(op, before, trace);
        response := Err(Other);
      } else {
        response := RemoveLastItem(op, cas);
        ExecSnoc(stamp, before, trace, RemoveLast(op));
        longer := trace + [RemoveLast(op)];
      }
    }

    /** The second half of a round: None means a CAS conflict, and another round. */
    method TakeSeen(op: OpId, value: Value, cas: Cas, net: Network<Event>,
                    ghost before: System, ghost trace: seq<Event>)
      returns (outcome: Option<Result<Value, Failure>>, ghost longer: seq<Event>)
      requires View() == Exec(stamp, before, trace) && OnlyOthers(net.others, op) && op in pops
      requires pops[op].state.Removing? && pops[op].state.cas == cas && pops[op].state.seen == value
      modifies this
      ensures View() == Exec(stamp, before, longer)
      ensures op in pops && pops[op].state == AfterRound(old(pops[op].state.attempt), outcome)
      ensures outcome != Some(Err(CasMismatch))
      ensures Quiet(net) && old(doc).Present? && old(doc).cas == cas && old(doc).items != [] ==>
                outcome == Some(Ok(value))
    {
      var removed;
      longer := Interfere(op, net.others, before, trace);
      removed, longer := CallRemove(op, cas, net.fault, before, longer);
      match removed
      case Ok(_) => outcome := Some(Ok(value));
      case Err(e) => outcome := if e == CasMismatch then None else Some(Err(e));
    }

    /** One round of the loop. */
    method Attempt(op: OpId, attempt: nat, net1: Network<Event>, net2: Network<Event>,
                   ghost before: System, ghost trace: seq<Event>)
      returns (outcome: Option<Result<Value, Failure>>, ghost longer: seq<Event>)
      requires View() == Exec(stamp, before, trace) && OnlyOthers(net1.others, op) && OnlyOthers(net2.others, op)
      requires op in pops && pops[op].state == Reading(attempt)
      modifies this
      ensures View() == Exec(stamp, before, longer)
      ensures op in pops && pops[op].state == AfterRound(attempt, outcome)
      ensures outcome != Some(Err(CasMismatch))
      ensures Quiet(net1) && Quiet(net2) && Queue(old(doc)) != [] ==> outcome == Some(Ok(Queue(old(doc))[0]))
    {
      var looked;
      longer := Interfere(op, net1.others, before, trace);
      looked, longer := CallLookup(op, net1.fault, before, longer);
      if looked.Err? {
        return Some(Err(looked.error)), longer;
      }
      var (value, cas) := looked.value;
      outcome, longer := TakeSeen(op, value, cas, net2, before, longer);
    }

    /** The loop: at most 16 rounds. */
    method Rounds(op: OpId, nets: seq<Network<Event>>, ghost before: System, ghost trace: seq<Event>)
      returns (r: Result<Value, Failure>, ghost longer: seq<Event>)
      requires |nets| == 2 * MAX_ATTEMPTS && forall k :: 0 <= k < |nets| ==> OnlyOthers(nets[k].others, op)
      requires View() == Exec(stamp, before, trace) && op in pops && pops[op].state == Reading(0)
      modifies this
      ensures View() == Exec(stamp, before, longer)
      ensures op in pops && pops[op].state == Finished(r) && r != Err(CasMismatch)
      ensures Quiet(nets[0]) && Quiet(nets[1]) && Queue(old(doc)) != [] ==> r == Ok(Queue(old(doc))[0])
    {
      longer := trace;
      var attempt := 0;
      while attempt < MAX_ATTEMPTS
        invariant 0 <= attempt <= MAX_ATTEMPTS
        invariant View() == Exec(stamp, before, longer) && op in pops
        invariant attempt == 0 ==> doc == old(doc)
        invariant attempt > 0 ==> !(Quiet(nets[0]) && Quiet(nets[1]) && Queue(old(doc)) != [])
        invariant pops[op].state == if attempt == 0 then Reading(0) else AfterRound(attempt - 1, None)
      {
        var outcome;
        outcome, longer := Attempt(op, attempt, nets[2 * attempt], nets[2 * attempt + 1], before, longer);
        if outcome.Some? {
          return outcome.value, longer;
        }
        attempt := attempt + 1;
      }
      r := Err(TooManyRetries);
    }

    /**
     CouchbaseQueue::pop, with `nets` what happens on the network before each of its server calls.  It is
     a run of the state machine that leaves the invariant intact, and its answer is what it did.
     */
    method Pop(op: OpId, nets: seq<Network<Event>>) returns (r: Result<Value, Failure>, ghost trace: seq<Event>)
      requires |nets| == 2 * MAX_ATTEMPTS && forall k :: 0 <= k < |nets| ==> OnlyOthers(nets[k].others, op)
      requires Fresh(stamp) && Inv(stamp, View()) && op !in pops
      modifies this
      ensures View() == Exec(stamp, old(View()), trace) && Inv(stamp, View())
      ensures op in pops && pops[op].state == Finished(r)
      ensures DidWhatItSays(EntriesOf(log, op), op, Finished(r))
      ensures r != Err(CasMismatch)
      ensures Quiet(nets[0]) && Quiet(nets[1]) && Queue(old(doc)) != [] ==> r == Ok(Queue(old(doc))[0])
    {
      ghost var before := View();
      trace := Perform(StartPop(op), before, []);
      r, trace := Rounds(op, nets, before, trace);
      ExecInv(stamp, before, trace);
      assert CallOk(stamp, View(), op);
    }
  }
}
