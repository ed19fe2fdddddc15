/**
 CouchbaseSet (sdk/couchbase/src/collection_ds.rs): a set kept as a JSON array document.  insert is
 one array_add_unique call; remove reads the whole array with its CAS, looks for the value and
 removes its index under that CAS, for at most 16 rounds; contains reads the array.  Server calls
 are atomic steps that interleave arbitrarily.
 */
module SetProtocol {
  import opened Wrappers
  import opened SharedDocument

  /** A remove remembers the index at which it saw its value. */
  type RemoveState = CallState<nat, ()>

  /** `startedAt` and `seenAt` are history: the document's version when the call began and at its last read. */
  datatype Call = Call(value: Value, state: RemoveState, startedAt: nat, seenAt: nat)

  /** The operations on the mathematical set, with their answers. */
  datatype SetOp =
    | Inserted(value: Value, added: bool)
    | Removed(op: OpId, value: Value)
    | FoundAbsent(op: OpId)  // a remove that was answered that there is no document
    | Tested(value: Value, found: bool)
    | TestedAbsent(value: Value)  // a contains that was answered that there is no document
    | Cleared

  datatype System = System(doc: Document, version: nat, history: seq<SetOp>, removes: map<OpId, Call>)

  datatype Event =
    | Insert(value: Value)
    | Contains(value: Value)
    | Clear
    | StartRemove(op: OpId, value: Value)
    | ReadAll(op: OpId)
    | RemoveIndex(op: OpId)
    | CallFails(op: OpId)

  // ---------------------------------------------------------------- the search loop of remove

  /** The last position of a value. */
  function LastIndex(items: seq<Value>, value: Value): (r: Option<nat>)
    ensures match r
            case None => value !in items
            case Some(i) => i < |items| && items[i] == value && value !in items[i + 1..]
  {
    if items == [] then None
    else
      var n := |items| - 1;
      if items[n] == value then Some(n)
      else
        var r := LastIndex(items[..n], value);
        assert items == items[..n] + [items[n]];
        assert r.Some? ==> items[r.value + 1..] == items[..n][r.value + 1..] + [items[n]];
        r
  }

  /** The loop as written: it never breaks, so the last match wins. */
  method FindIndexToRemove(items: seq<Value>, value: Value) returns (index: Option<nat>)
    ensures index == LastIndex(items, value)
  {
    index := None;
    for i := 0 to |items|
      invariant index == LastIndex(items[..i], value)
    {
      assert items[..i + 1][..i] == items[..i];
      if items[i] == value {
        index := Some(i);
      }
    }
    assert items[..|items|] == items;
  }

  function RemoveAt(items: seq<Value>, index: nat): seq<Value>
    requires index < |items|
  {
    items[..index] + items[index + 1..]
  }

  // ---------------------------------------------------------------- atomic steps

  function Step(stamp: nat -> Cas, s: System, e: Event): System {
    match e
    case Insert(v) =>
      var items := if s.doc.Present? then s.doc.items else [];
      if v in items then s.(history := s.history + [Inserted(v, false)])  // PathExists
      else s.(doc := Present(stamp(s.version + 1), items + [v]), version := s.version + 1,
              history := s.history + [Inserted(v, true)])
    case Contains(v) =>
      s.(history := s.history + [if s.doc.Absent? then TestedAbsent(v) else Tested(v, v in s.doc.items)])
    case Clear =>
      if s.doc.Absent? then s
      else s.(doc := Absent, version := s.version + 1, history := s.history + [Cleared])
    case StartRemove(op, v) =>
      if op in s.removes then s
      else s.(removes := s.removes[op := Call(v, Reading(0), s.version, s.version)])
    case ReadAll(op) =>
      if op in s.removes && s.removes[op].state.Reading? then AfterRead(s, op) else s
    case RemoveIndex(op) =>
      if op in s.removes && s.removes[op].state.Removing? then AfterRemove(stamp, s, op) else s
    case CallFails(op) =>
      if op in s.removes && !s.removes[op].state.Finished? then Finish(s, op, Err(Other)) else s
  }

  /** What a call has done to the mathematical set, by the state it is in: nothing until it ends. */
  function Effect(op: OpId, call: Call): seq<SetOp> {
    match call.state
    case Finished(Ok(_)) => [Removed(op, call.value)]
    case Finished(Err(DocumentNotFound)) => [FoundAbsent(op)]
    case _ => []
  }

  /** A call moves on; if that ends it, its effect enters the history. */
  function Move(s: System, op: OpId, call: Call): System {
    s.(removes := s.removes[op := call], history := s.history + Effect(op, call))
  }

  function Finish(s: System, op: OpId, result: Result<(), Failure>): System
    requires op in s.removes
  {
    Move(s, op, s.removes[op].(state := Finished(result)))
  }

  /** The read of one round; a value that is not there needs no mutation. */
  function AfterRead(s: System, op: OpId): System
    requires op in s.removes && s.removes[op].state.Reading?
  {
    var call := s.removes[op];
    if s.doc.Absent? then Finish(s, op, Err(DocumentNotFound))
    else
      match LastIndex(s.doc.items, call.value)
      case None => Finish(s, op, Ok(()))
      case Some(i) => Move(s, op, call.(state := Removing(call.state.attempt, s.doc.cas, i), seenAt := s.version))
  }

  /** The CAS-guarded removal of one round. */
  function AfterRemove(stamp: nat -> Cas, s: System, op: OpId): System
    requires op in s.removes && s.removes[op].state.Removing?
  {
    var call := s.removes[op];
    if s.doc.Absent? then Finish(s, op, Err(DocumentNotFound))
    else if s.doc.cas != call.state.cas then Move(s, op, call.(state := AfterRound(call.state.attempt, None)))
    else if call.state.seen >= |s.doc.items| then Finish(s, op, Err(PathNotFound))
    else
      Finish(s, op, Ok(())).(
      doc := Present(stamp(s.version + 1), RemoveAt(s.doc.items, call.state.seen)),
      version := s.version + 1)
  }

  function Run(stamp: nat -> Cas, start: Document, es: seq<Event>): System {
    if es == [] then System(start, 0, [], map[])
    else Step(stamp, Run(stamp, start, es[..|es| - 1]), es[|es| - 1])
  }

  // ---------------------------------------------------------------- the mathematical set

  function Members(doc: Document): set<Value> {
    if doc.Absent? then {} else set v | v in doc.items
  }

  predicate NoDuplicates(items: seq<Value>) {
    forall i, j :: 0 <= i < j < |items| ==> items[i] != items[j]
  }

  predicate IsSetDocument(doc: Document) {
    doc.Present? ==> NoDuplicates(doc.items)
  }

  /** The set after a history that began from `start`; None if some answer is not the mathematical one. */
  function Replay(start: set<Value>, history: seq<SetOp>): Option<set<Value>> {
    if history == [] then Some(start)
    else
      var before := Replay(start, history[..|history| - 1]);
      if before.None? then None else ReplayOne(before.value, history[|history| - 1])
  }

  function ReplayOne(s: set<Value>, op: SetOp): Option<set<Value>> {
    match op
    case Inserted(v, added) => if added == (v !in s) then Some(s + {v}) else None
    case Tested(v, found) => if found == (v in s) then Some(s) else None
    case Removed(_, v) => Some(s - {v})
    case FoundAbsent(_) => if s == {} then Some(s) else None
    case TestedAbsent(_) => if s == {} then Some(s) else None
    case Cleared => Some({})
  }

  predicate IsEntryOf(entry: SetOp, op: OpId) {
    (entry.Removed? || entry.FoundAbsent?) && entry.op == op
  }

  /** What one remove call did to the set. */
  function EntriesOf(history: seq<SetOp>, op: OpId): seq<SetOp> {
    if history == [] then []
    else
      var n := |history| - 1;
      EntriesOf(history[..n], op) + if IsEntryOf(history[n], op) then [history[n]] else []
  }

  lemma ReplaySnoc(start: set<Value>, history: seq<SetOp>, entry: SetOp)
    ensures Replay(start, history + [entry]) ==
            if Replay(start, history).None? then None else ReplayOne(Replay(start, history).value, entry)
  {
    assert (history + [entry])[..|history + [entry]| - 1] == history;
  }

  lemma EntriesSnoc(history: seq<SetOp>, entry: SetOp, op: OpId)
    ensures EntriesOf(history + [entry], op) == EntriesOf(history, op) + if IsEntryOf(entry, op) then [entry] else []
  {
    assert (history + [entry])[..|history + [entry]| - 1] == history;
  }

  lemma EffectSnoc(history: seq<SetOp>, op: OpId, call: Call, o: OpId)
    ensures EntriesOf(history + Effect(op, call), o) ==
            EntriesOf(history, o) + if o == op then Effect(op, call) else []
  {
    if Effect(op, call) != [] {
      EntriesSnoc(history, Effect(op, call)[0], o);
    } else {
      assert history + [] == history;
    }
  }

  /** Operations that leave the set as it is. */
  lemma NeutralEntries(start: set<Value>, history: seq<SetOp>, members: set<Value>, entries: seq<SetOp>)
    requires Replay(start, history) == Some(members)
    requires entries == [] || (|entries| == 1 && ReplayOne(members, entries[0]) == Some(members))
    ensures Replay(start, history + entries) == Some(members)
  {
    if entries == [] {
      assert history + entries == history;
    } else {
      ReplaySnoc(start, history, entries[0]);
      assert history + entries == history + [entries[0]];
    }
  }

  // ---------------------------------------------------------------- duplicates and removal

  /**
   Removing one occurrence erases the value exactly when it occurred once; a duplicate-free array always
   qualifies.
   */
  lemma RemovalErasesIffUnique(items: seq<Value>, index: nat)
    requires index < |items|
    ensures items[index] !in RemoveAt(items, index) <==> multiset(items)[items[index]] == 1
  {
    assert items == items[..index] + [items[index]] + items[index + 1..];
    assert multiset(items) == multiset(RemoveAt(items, index)) + multiset{items[index]};
    assert items[index] in RemoveAt(items, index) <==> items[index] in multiset(RemoveAt(items, index));
  }

  lemma RemoveFromDistinct(items: seq<Value>, index: nat)
    requires index < |items| && NoDuplicates(items)
    ensures NoDuplicates(RemoveAt(items, index))
    ensures (set v | v in RemoveAt(items, index)) == (set v | v in items) - {items[index]}
  {
    var rest := RemoveAt(items, index);
    assert forall k :: 0 <= k < |rest| ==> rest[k] == items[if k < index then k else k + 1];
    forall v | v in items && v != items[index]
      ensures v in rest
    {
      var k :| 0 <= k < |items| && items[k] == v;
      assert rest[if k < index then k else k - 1] == v;
    }
  }

  lemma InsertIntoDistinct(items: seq<Value>, v: Value)
    requires NoDuplicates(items) && v !in items
    ensures NoDuplicates(items + [v])
    ensures (set x | x in items + [v]) == (set x | x in items) + {v}
  {}

  // ---------------------------------------------------------------- invariant

  ghost predicate CallOk(stamp: nat -> Cas, s: System, op: OpId)
    requires op in s.removes
  {
    var call := s.removes[op];
    && call.startedAt <= call.seenAt <= s.version
    && EntriesOf(s.history, op) == Effect(op, call)
    && match call.state
       case Reading(a) => a < MAX_ATTEMPTS && call.startedAt + a <= s.version
       case Removing(a, cas, i) =>
         && a < MAX_ATTEMPTS && call.startedAt + a <= call.seenAt && cas == stamp(call.seenAt)
         && (call.seenAt == s.version ==> s.doc.Present? && i < |s.doc.items| && s.doc.items[i] == call.value)
       case Finished(r) => r == Err(TooManyRetries) ==> call.startedAt + MAX_ATTEMPTS <= s.version
  }

  ghost predicate CallsOk(stamp: nat -> Cas, s: System) {
    && (forall op :: op in s.removes ==> CallOk(stamp, s, op))
    && (forall op :: op !in s.removes ==> EntriesOf(s.history, op) == [])
  }

  ghost predicate Inv(stamp: nat -> Cas, start: set<Value>, s: System) {
    && IsSetDocument(s.doc)
    && Replay(start, s.history) == Some(Members(s.doc))
    && (s.doc.Present? ==> s.doc.cas == stamp(s.version))
    && CallsOk(stamp, s)
  }

  /** What happens to a pending call when others move: the document changes only together with its version. */
  lemma CallSurvives(stamp: nat -> Cas, s: System, s': System, op: OpId)
    requires op in s.removes && op in s'.removes && s'.removes[op] == s.removes[op]
    requires CallOk(stamp, s, op)
    requires EntriesOf(s'.history, op) == EntriesOf(s.history, op)
    requires s'.version > s.version || (s'.version == s.version && s'.doc == s.doc)
    ensures CallOk(stamp, s', op)
  {}

  /** A document operation is what the mathematical set does. */
  lemma DocumentReplays(stamp: nat -> Cas, s: System, e: Event, o: SetOp)
    requires IsSetDocument(s.doc) && (e.Insert? || e.Contains? || e.Clear?)
    requires Step(stamp, s, e).history == s.history + [o]
    ensures var s' := Step(stamp, s, e); IsSetDocument(s'.doc) && ReplayOne(Members(s.doc), o) == Some(Members(s'.doc))
  {
    var s' := Step(stamp, s, e);
    assert o == s'.history[|s.history|];
    if e.Insert? {
      if e.value in Members(s.doc) {
        assert Members(s.doc) + {e.value} == Members(s.doc);
      } else {
        InsertIntoDistinct(if s.doc.Present? then s.doc.items else [], e.value);
        assert Members(s'.doc) == Members(s.doc) + {e.value};
      }
    }
  }

  lemma DocumentFrame(stamp: nat -> Cas, s: System, e: Event)
    requires e.Insert? || e.Contains? || e.Clear?
    requires Step(stamp, s, e) != s
    ensures var s' := Step(stamp, s, e);
            && s'.removes == s.removes && |s'.history| > 0
            && (var o := s'.history[|s'.history| - 1];
                s'.history == s.history + [o] && !o.Removed? && !o.FoundAbsent?)
            && (s'.version == s.version + 1 || (s'.version == s.version && s'.doc == s.doc))
            && (s'.version != s.version && s'.doc.Present? ==> s'.doc.cas == stamp(s'.version))
  {}

  lemma DocumentStep(stamp: nat -> Cas, start: set<Value>, s: System, e: Event)
    requires Inv(stamp, start, s)
    requires e.Insert? || e.Contains? || e.Clear?
    ensures Inv(stamp, start, Step(stamp, s, e))
  {
    var s' := Step(stamp, s, e);
    if s' != s {
      DocumentFrame(stamp, s, e);
      var o := s'.history[|s'.history| - 1];
      DocumentReplays(stamp, s, e, o);
      ReplaySnoc(start, s.history, o);
      NoCallMoves(stamp, s, s', o);
    }
  }

  /** An operation that belongs to no call leaves all calls sound. */
  lemma NoCallMoves(stamp: nat -> Cas, s: System, s': System, o: SetOp)
    requires CallsOk(stamp, s) && s'.removes == s.removes && s'.history == s.history + [o]
    requires !o.Removed? && !o.FoundAbsent?
    requires s'.version > s.version || (s'.version == s.version && s'.doc == s.doc)
    ensures CallsOk(stamp, s')
  {
    forall op
      ensures EntriesOf(s'.history, op) == EntriesOf(s.history, op)
      ensures op in s'.removes ==> CallOk(stamp, s', op)
    {
      EntriesSnoc(s.history, o, op);
      if op in s.removes {
        CallSurvives(stamp, s, s', op);
      }
    }
  }

  /** The other calls and their removals are as before. */
  ghost predicate OthersKept(s: System, s': System, op: OpId) {
    && s'.removes.Keys == s.removes.Keys
    && (forall o :: o in s.removes && o != op ==>
          s'.removes[o] == s.removes[o] && EntriesOf(s'.history, o) == EntriesOf(s.history, o))
    && (forall o :: o !in s.removes ==> EntriesOf(s'.history, o) == EntriesOf(s.history, o))
  }

  lemma OwnStep(stamp: nat -> Cas, s: System, s': System, op: OpId)
    requires CallsOk(stamp, s) && op in s.removes && OthersKept(s, s', op)
    requires s'.version > s.version || (s'.version == s.version && s'.doc == s.doc)
    requires CallOk(stamp, s', op)
    ensures CallsOk(stamp, s')
  {
    forall o | o in s'.removes && o != op
      ensures CallOk(stamp, s', o)
    {
      CallSurvives(stamp, s, s', o);
    }
  }

  /** The call that has read is sound again. */
  lemma ReadCall(stamp: nat -> Cas, s: System, op: OpId)
    requires op in s.removes && s.removes[op].state.Reading? && CallOk(stamp, s, op)
    requires s.doc.Present? ==> s.doc.cas == stamp(s.version)
    ensures CallOk(stamp, AfterRead(s, op), op)
  {
    EffectSnoc(s.history, op, AfterRead(s, op).removes[op], op);
  }

  /** A read that does not find the value is a removal that changes nothing, and without a document the set is empty. */
  lemma ReadReplays(start: set<Value>, s: System, op: OpId)
    requires op in s.removes && s.removes[op].state.Reading?
    requires Replay(start, s.history) == Some(Members(s.doc))
    ensures Replay(start, AfterRead(s, op).history) == Some(Members(s.doc))
  {
    var call := AfterRead(s, op).removes[op];
    if call.state == Finished(Ok(())) {
      assert Members(s.doc) - {call.value} == Members(s.doc);
    }
    NeutralEntries(start, s.history, Members(s.doc), Effect(op, call));
  }

  /** What a step of one call leaves alone. */
  lemma OwnFrame(s: System, s': System, op: OpId)
    requires op in s.removes && op in s'.removes && s'.removes == s.removes[op := s'.removes[op]]
    requires s'.history == s.history + Effect(op, s'.removes[op])
    ensures OthersKept(s, s', op)
  {
    forall o | o != op
      ensures EntriesOf(s'.history, o) == EntriesOf(s.history, o)
    {
      EffectSnoc(s.history, op, s'.removes[op], o);
    }
  }

  lemma ReadFrame(s: System, op: OpId)
    requires op in s.removes && s.removes[op].state.Reading?
    ensures var s' := AfterRead(s, op);
            && op in s'.removes && s'.removes == s.removes[op := s'.removes[op]]
            && s'.history == s.history + Effect(op, s'.removes[op]) && s'.doc == s.doc && s'.version == s.version
  {}

  lemma ReadStep(stamp: nat -> Cas, start: set<Value>, s: System, op: OpId)
    requires Inv(stamp, start, s)
    requires op in s.removes && s.removes[op].state.Reading?
    ensures Inv(stamp, start, AfterRead(s, op))
  {
    assert CallOk(stamp, s, op);
    ReadCall(stamp, s, op);
    ReadReplays(start, s, op);
    ReadFrame(s, op);
    OwnFrame(s, AfterRead(s, op), op);
    OwnStep(stamp, s, AfterRead(s, op), op);
  }

  /** The heart of the protocol: a removal whose CAS matches deletes the value that was searched for. */
  lemma MatchingCasRemovesValue(stamp: nat -> Cas, start: set<Value>, s: System, op: OpId)
    requires Fresh(stamp) && Inv(stamp, start, s)
    requires op in s.removes && s.removes[op].state.Removing?
    requires AfterRemove(stamp, s, op).version != s.version
    ensures var s' := AfterRemove(stamp, s, op);
            IsSetDocument(s'.doc) && Members(s'.doc) == Members(s.doc) - {s.removes[op].value}
  {
    assert CallOk(stamp, s, op);
    RemoveFromDistinct(s.doc.items, s.removes[op].state.seen);
  }

  /** The call that has tried its removal is sound again. */
  lemma RemoveCall(stamp: nat -> Cas, s: System, op: OpId)
    requires Fresh(stamp) && op in s.removes && s.removes[op].state.Removing? && CallOk(stamp, s, op)
    requires s.doc.Present? ==> s.doc.cas == stamp(s.version)
    ensures CallOk(stamp, AfterRemove(stamp, s, op), op)
  {
    EffectSnoc(s.history, op, AfterRemove(stamp, s, op).removes[op], op);
  }

  /** A removal commits with everything that belongs to it, or leaves the document alone. */
  lemma RemoveKinds(stamp: nat -> Cas, s: System, op: OpId)
    requires op in s.removes && s.removes[op].state.Removing?
    ensures var s' := AfterRemove(stamp, s, op);
            && op in s'.removes && s'.removes == s.removes[op := s'.removes[op]]
            && s'.history == s.history + Effect(op, s'.removes[op])
            && (if s'.version == s.version
                then s'.doc == s.doc && (Effect(op, s'.removes[op]) == []
                                         || (s.doc.Absent? && Effect(op, s'.removes[op]) == [FoundAbsent(op)]))
                else
                  && s'.version == s.version + 1 && Effect(op, s'.removes[op]) == [Removed(op, s.removes[op].value)]
                  && s'.doc.Present? && s'.doc.cas == stamp(s'.version))
  {}

  lemma RemoveReplays(stamp: nat -> Cas, start: set<Value>, s: System, op: OpId)
    requires Fresh(stamp) && Inv(stamp, start, s)
    requires op in s.removes && s.removes[op].state.Removing?
    ensures var s' := AfterRemove(stamp, s, op);
            IsSetDocument(s'.doc) && Replay(start, s'.history) == Some(Members(s'.doc))
  {
    var s' := AfterRemove(stamp, s, op);
    RemoveKinds(stamp, s, op);
    if s'.version != s.version {
      MatchingCasRemovesValue(stamp, start, s, op);
      ReplaySnoc(start, s.history, Removed(op, s.removes[op].value));
    } else {
      NeutralEntries(start, s.history, Members(s.doc), Effect(op, s'.removes[op]));
    }
  }

  lemma RemoveStep(stamp: nat -> Cas, start: set<Value>, s: System, op: OpId)
    requires Fresh(stamp) && Inv(stamp, start, s)
    requires op in s.removes && s.removes[op].state.Removing?
    ensures Inv(stamp, start, AfterRemove(stamp, s, op))
  {
    assert CallOk(stamp, s, op);
    RemoveCall(stamp, s, op);
    RemoveKinds(stamp, s, op);
    RemoveReplays(stamp, start, s, op);
    OwnFrame(s, AfterRemove(stamp, s, op), op);
    OwnStep(stamp, s, AfterRemove(stamp, s, op), op);
  }

  lemma StartStep(stamp: nat -> Cas, start: set<Value>, s: System, op: OpId, v: Value)
    requires Inv(stamp, start, s) && op !in s.removes
    ensures Inv(stamp, start, Step(stamp, s, StartRemove(op, v)))
  {
    var s' := Step(stamp, s, StartRemove(op, v));
    forall o | o in s'.removes
      ensures CallOk(stamp, s', o)
    {
      if o != op {
        CallSurvives(stamp, s, s', o);
      }
    }
  }

  /** A call that fails for another reason has done nothing. */
  lemma FailStep(stamp: nat -> Cas, start: set<Value>, s: System, op: OpId)
    requires Inv(stamp, start, s) && op in s.removes && !s.removes[op].state.Finished?
    ensures Inv(stamp, start, Finish(s, op, Err(Other)))
  {
    var s' := Finish(s, op, Err(Other));
    assert CallOk(stamp, s, op);
    assert s.history + [] == s.history;
    OwnFrame(s, s', op);
    OwnStep(stamp, s, s', op);
  }

  lemma StepInv(stamp: nat -> Cas, start: set<Value>, s: System, e: Event)
    requires Fresh(stamp) && Inv(stamp, start, s)
    ensures Inv(stamp, start, Step(stamp, s, e))
  {
    match e
    case ReadAll(op) => if op in s.removes && s.removes[op].state.Reading? { ReadStep(stamp, start, s, op); }
    case RemoveIndex(op) => if op in s.removes && s.removes[op].state.Removing? { RemoveStep(stamp, start, s, op); }
    case StartRemove(op, v) => if op !in s.removes { StartStep(stamp, start, s, op, v); }
    case CallFails(op) => if op in s.removes && !s.removes[op].state.Finished? { FailStep(stamp, start, s, op); }
    case _ => DocumentStep(stamp, start, s, e);
  }

  lemma {:induction false} RunInv(stamp: nat -> Cas, doc: Document, es: seq<Event>)
    requires Fresh(stamp) && IsSetDocument(doc) && (doc.Present? ==> doc.cas == stamp(0))
    ensures Inv(stamp, Members(doc), Run(stamp, doc, es))
  {
    if es != [] {
      RunInv(stamp, doc, es[..|es| - 1]);
      StepInv(stamp, Members(doc), Run(stamp, doc, es[..|es| - 1]), es[|es| - 1]);
    }
  }

  // ---------------------------------------------------------------- main results

  /**
   Every run of any number of clients refines the mathematical set: the array stays duplicate-free,
   and every answer given so far is the one the set gives when the operations are applied in commit
   order (insert false exactly when present, contains the membership, remove erases, and whoever is answered
   that there is no document finds the set empty).
   */
  lemma RefinesMathematicalSet(stamp: nat -> Cas, doc: Document, es: seq<Event>)
    requires Fresh(stamp) && IsSetDocument(doc) && (doc.Present? ==> doc.cas == stamp(0))
    ensures var s := Run(stamp, doc, es);
            IsSetDocument(s.doc) && Replay(Members(doc), s.history) == Some(Members(s.doc))
  {
    RunInv(stamp, doc, es);
  }

  ghost predicate DidWhatItSays(entries: seq<SetOp>, op: OpId, value: Value, state: RemoveState) {
    && (!state.Finished? ==> entries == [])
    && (state.Finished? && state.result.Ok? ==> entries == [Removed(op, value)])
    && (state.Finished? && state.result.Err? ==>
          entries == if state.result.error == DocumentNotFound then [FoundAbsent(op)] else [])
  }

  /**
   A remove call takes effect at most once, and its answer says how: it erased its value if it returned Ok, it
   found the set empty if there was no document, and it did nothing otherwise; giving up means 16 foreign
   mutations.
   */
  lemma RemoveTakesEffectIffOk(stamp: nat -> Cas, doc: Document, es: seq<Event>, op: OpId)
    requires Fresh(stamp) && IsSetDocument(doc) && (doc.Present? ==> doc.cas == stamp(0))
    requires op in Run(stamp, doc, es).removes
    ensures var s := Run(stamp, doc, es);
            && DidWhatItSays(EntriesOf(s.history, op), op, s.removes[op].value, s.removes[op].state)
            && (s.removes[op].state == Finished(Err(TooManyRetries)) ==> s.removes[op].startedAt + 16 <= s.version)
  {
    RunInv(stamp, doc, es);
    assert CallOk(stamp, Run(stamp, doc, es), op);
  }

  /** At the commit point of a successful remove the value is gone. */
  lemma CommittedRemoveErases(stamp: nat -> Cas, doc: Document, es: seq<Event>, e: Event, op: OpId)
    requires Fresh(stamp) && IsSetDocument(doc) && (doc.Present? ==> doc.cas == stamp(0))
    requires var s := Run(stamp, doc, es);
             op in s.removes && !s.removes[op].state.Finished?
             && Step(stamp, s, e).removes[op].state == Finished(Ok(()))
    ensures Run(stamp, doc, es).removes[op].value !in Members(Step(stamp, Run(stamp, doc, es), e).doc)
  {
    var s := Run(stamp, doc, es);
    RunInv(stamp, doc, es);
    OkComesFromOwnStep(stamp, s, e, op);
    if e == RemoveIndex(op) {
      MatchingCasRemovesValue(stamp, Members(doc), s, op);
    }
  }

  lemma OkComesFromOwnStep(stamp: nat -> Cas, s: System, e: Event, op: OpId)
    requires op in s.removes && !s.removes[op].state.Finished?
    requires Step(stamp, s, e).removes[op].state == Finished(Ok(()))
    ensures (e == RemoveIndex(op) && s.removes[op].state.Removing? && Step(stamp, s, e).version != s.version)
            || (e == ReadAll(op) && s.removes[op].value !in Members(Step(stamp, s, e).doc))
  {
  }

  // ---------------------------------------------------------------- what the other operations do

  /** An insert adds its value and says whether it was new; contains tells; a clear leaves nothing. */
  lemma OperationsAct(stamp: nat -> Cas, s: System, v: Value)
    ensures var t := Step(stamp, s, Insert(v));
            Members(t.doc) == Members(s.doc) + {v} && t.history == s.history + [Inserted(v, v !in Members(s.doc))]
    ensures var t := Step(stamp, s, Contains(v));
            && t.doc == s.doc
            && t.history == s.history + [if s.doc.Absent? then TestedAbsent(v) else Tested(v, v in Members(s.doc))]
    ensures Step(stamp, s, Clear).doc.Absent?
    ensures s.doc.Present? ==> Step(stamp, s, Clear).history == s.history + [Cleared]
  {
    var items := if s.doc.Present? then s.doc.items else [];
    if v !in items {
      assert (set x | x in items + [v]) == (set x | x in items) + {v};
    }
  }

  // ---------------------------------------------------------------- how a call ends

  /** A removal that meets no document ends the call at once. */
  lemma NoDocumentEndsCall(stamp: nat -> Cas, s: System, op: OpId)
    requires op in s.removes && s.removes[op].state.Removing? && s.doc.Absent?
    ensures Step(stamp, s, RemoveIndex(op)).removes[op].state == Finished(Err(DocumentNotFound))
  {}

  /** A lost server call ends the call with its error and touches nothing else. */
  lemma LostCallEndsCall(stamp: nat -> Cas, s: System, op: OpId)
    requires op in s.removes && !s.removes[op].state.Finished?
    ensures var t := Step(stamp, s, CallFails(op));
            && t.removes[op].state == Finished(Err(Other)) && t.removes - {op} == s.removes - {op}
            && t.doc == s.doc && t.history == s.history
  {}

  /** A CAS conflict never ends a call, and another error only if one of its server calls was lost. */
  ghost predicate AnswerExplained(s: System, op: OpId, lost: bool) {
    op in s.removes && s.removes[op].state.Finished? && s.removes[op].state.result.Err? ==>
      var e := s.removes[op].state.result.error;
      e == DocumentNotFound || e == TooManyRetries || (e == Other && lost)
  }

  /** A removal whose CAS still matches finds its index in range. */
  lemma SeenIsThere(stamp: nat -> Cas, start: set<Value>, s: System, op: OpId)
    requires Fresh(stamp) && Inv(stamp, start, s) && op in s.removes && s.removes[op].state.Removing?
    requires s.doc.Present? && s.doc.cas == s.removes[op].state.cas
    ensures s.removes[op].state.seen < |s.doc.items|
  {
    assert CallOk(stamp, s, op);
  }

  lemma AnswerStep(stamp: nat -> Cas, start: set<Value>, s: System, e: Event, op: OpId, lost: bool)
    requires Fresh(stamp) && Inv(stamp, start, s) && AnswerExplained(s, op, lost)
    ensures AnswerExplained(Step(stamp, s, e), op, lost || e == CallFails(op))
  {
    if e == RemoveIndex(op) && op in s.removes && s.removes[op].state.Removing? {
      if s.doc.Present? && s.doc.cas == s.removes[op].state.cas {
        SeenIsThere(stamp, start, s, op);
      }
    } else {
      AnswerKept(stamp, s, e, op, lost);
    }
  }

  lemma AnswerKept(stamp: nat -> Cas, s: System, e: Event, op: OpId, lost: bool)
    requires AnswerExplained(s, op, lost)
    requires e == RemoveIndex(op) && op in s.removes ==> !s.removes[op].state.Removing?
    ensures AnswerExplained(Step(stamp, s, e), op, lost || e == CallFails(op))
  {}

  /**
   In every run a remove that ends with an error found no document, gave up after its rounds, or lost a server
   call; the index that it found is always there when its CAS still matches.
   */
  lemma {:induction false} RemoveAnswers(stamp: nat -> Cas, doc: Document, es: seq<Event>, op: OpId)
    requires Fresh(stamp) && IsSetDocument(doc) && (doc.Present? ==> doc.cas == stamp(0))
    ensures AnswerExplained(Run(stamp, doc, es), op, CallFails(op) in es)
  {
    if es != [] {
      var n := |es| - 1;
      RemoveAnswers(stamp, doc, es[..n], op);
      RunInv(stamp, doc, es[..n]);
      AnswerStep(stamp, Members(doc), Run(stamp, doc, es[..n]), es[n], op, CallFails(op) in es[..n]);
      assert es == es[..n] + [es[n]];
    }
  }

  /** A CAS conflict leads to the next round, or after sixteen of them to giving up. */
  lemma ConflictIsRetried(stamp: nat -> Cas, s: System, op: OpId)
    requires op in s.removes && s.removes[op].state.Removing?
    requires s.doc.Present? && s.doc.cas != s.removes[op].state.cas
    ensures var t := Step(stamp, s, RemoveIndex(op));
            var a := s.removes[op].state.attempt;
            && t.doc == s.doc && op in t.removes
            && t.removes[op].state == if a + 1 < 16 then Reading(a + 1) else Finished(Err(TooManyRetries))
  {}

  lemma UndisturbedRead(stamp: nat -> Cas, s: System, op: OpId, v: Value)
    requires op !in s.removes
    ensures var t := Step(stamp, Step(stamp, s, StartRemove(op, v)), ReadAll(op));
            && op in t.removes && t.doc == s.doc && t.version == s.version && t.removes[op].value == v
            && (s.doc.Absent? ==> t.removes[op].state == Finished(Err(DocumentNotFound)))
            && (s.doc.Present? && v !in s.doc.items ==> t.removes[op].state == Finished(Ok(())))
            && (s.doc.Present? && v in s.doc.items ==>
                  && t.removes[op].state.Removing? && t.removes[op].state.cas == s.doc.cas
                  && t.removes[op].state.seen < |s.doc.items| && s.doc.items[t.removes[op].state.seen] == v)
  {}

  lemma MatchingRemove(stamp: nat -> Cas, s: System, op: OpId)
    requires op in s.removes && s.removes[op].state.Removing? && s.doc.Present? && IsSetDocument(s.doc)
    requires s.removes[op].state.cas == s.doc.cas && s.removes[op].state.seen < |s.doc.items|
    requires s.doc.items[s.removes[op].state.seen] == s.removes[op].value
    ensures var t := Step(stamp, s, RemoveIndex(op));
            && op in t.removes && t.removes[op].state == Finished(Ok(()))
            && Members(t.doc) == Members(s.doc) - {s.removes[op].value}
  {
    RemoveFromDistinct(s.doc.items, s.removes[op].state.seen);
  }

  /** A remove that nobody disturbs erases its value and answers Ok, whether it was there or not. */
  lemma UndisturbedRemove(stamp: nat -> Cas, s: System, op: OpId, v: Value)
    requires IsSetDocument(s.doc) && op !in s.removes
    ensures var t := Step(stamp, Step(stamp, Step(stamp, s, StartRemove(op, v)), ReadAll(op)), RemoveIndex(op));
            && op in t.removes && Members(t.doc) == Members(s.doc) - {v}
            && (s.doc.Present? ==> t.removes[op].state == Finished(Ok(())))
            && (s.doc.Absent? ==> t.removes[op].state == Finished(Err(DocumentNotFound)))
  {
    UndisturbedRead(stamp, s, op, v);
    if v in Members(s.doc) {
      MatchingRemove(stamp, Step(stamp, Step(stamp, s, StartRemove(op, v)), ReadAll(op)), op);
    } else {
      assert Members(s.doc) - {v} == Members(s.doc);
    }
  }

  // ---------------------------------------------------------------- remove, as it is written

  predicate Touches(e: Event, op: OpId) {
    match e
    case StartRemove(o, _) => o == op
    case ReadAll(o) => o == op
    case RemoveIndex(o) => o == op
    case CallFails(o) => o == op
    case _ => false
  }

  predicate OnlyOthers(es: seq<Event>, op: OpId) {
    forall i :: 0 <= i < |es| ==> !Touches(es[i], op)
  }

  lemma RunSnoc(stamp: nat -> Cas, start: Document, es: seq<Event>, e: Event)
    ensures Run(stamp, start, es + [e]) == Step(stamp, Run(stamp, start, es), e)
  {
    assert (es + [e])[..|es + [e]| - 1] == es;
  }

  lemma OthersLeaveCallAlone(stamp: nat -> Cas, s: System, e: Event, op: OpId)
    requires op in s.removes && !Touches(e, op)
    ensures op in Step(stamp, s, e).removes && Step(stamp, s, e).removes[op] == s.removes[op]
  {
  }

  class Server {
    const stamp: nat -> Cas
    var doc: Document
    var version: nat
    var history: seq<SetOp>
    var removes: map<OpId, Call>

    constructor (stamp: nat -> Cas, start: Document)
      ensures this.stamp == stamp && View() == Run(stamp, start, [])
    {
      this.stamp := stamp;
      doc, version, history, removes := start, 0, [], map[];
    }

    function View(): System
      reads this
    {
      System(doc, version, history, removes)
    }

    /** One atomic step: a server call and the client's reaction to its answer. */
    method Perform(e: Event, ghost start: Document, ghost trace: seq<Event>) returns (ghost longer: seq<Event>)
      requires View() == Run(stamp, start, trace)
      modifies this
      ensures longer == trace + [e] && View() == Run(stamp, start, longer)
      ensures View() == Step(stamp, old(View()), e)
    {
      var next := Step(stamp, View(), e);
      doc, version, history, removes := next.doc, next.version, next.history, next.removes;
      RunSnoc(stamp, start, trace, e);
      longer := trace + [e];
    }

    /** Any steps of the other clients: they leave the call alone. */
    method Interfere(op: OpId, es: seq<Event>, ghost start: Document, ghost trace: seq<Event>)
      returns (ghost longer: seq<Event>)
      requires View() == Run(stamp, start, trace) && OnlyOthers(es, op) && op in removes
      modifies this
      ensures View() == Run(stamp, start, longer)
      ensures op in removes && removes[op] == old(removes[op])
      ensures es == [] ==> View() == old(View())
    {
      longer := trace;
      for i := 0 to |es|
        invariant View() == Run(stamp, start, longer)
        invariant op in removes && removes[op] == old(removes[op])
        invariant i == 0 ==> View() == old(View())
      {
        OthersLeaveCallAlone(stamp, View(), es[i], op);
        longer := Perform(es[i], start, longer);
      }
    }

    /** The server never sees the call, and the client gets some other error. */
    method LoseCall(op: OpId, ghost start: Document, ghost trace: seq<Event>) returns (ghost longer: seq<Event>)
      requires View() == Run(stamp, start, trace) && op in removes && !removes[op].state.Finished?
      modifies this
      ensures View() == Run(stamp, start, longer)
      ensures op in removes && removes[op] == old(removes[op]).(state := Finished(Err(Other)))
    {
      longer := Perform(CallFails(op), start, trace);
    }

    /** The read of a round and the search: Ok is the CAS and the index to remove, Err the end of the call. */
    method Look(op: OpId, net: Network<Event>, ghost start: Document, ghost trace: seq<Event>)
      returns (seen: Result<(Cas, nat), Result<(), Failure>>, ghost longer: seq<Event>)
      requires View() == Run(stamp, start, trace) && OnlyOthers(net.others, op)
      requires op in removes && removes[op].state.Reading?
      modifies this
      ensures View() == Run(stamp, start, longer)
      ensures op in removes && removes[op].value == old(removes[op].value)
      ensures removes[op].state ==
        match seen
        case Err(r) => Finished(r)
        case Ok((cas, index)) => Removing(old(removes[op].state.attempt), cas, index)
      ensures Quiet(net) ==> doc == old(doc) && version == old(version)
      ensures Quiet(net) && doc.Present? ==>
                if removes[op].value in doc.items
                then seen.Ok? && seen.value.0 == doc.cas && seen.value.1 < |doc.items|
                     && doc.items[seen.value.1] == removes[op].value
                else seen == Err(Ok(()))
      ensures seen.Err? && seen.error.Err? ==> seen.error.error != CasMismatch
    {
      longer := Interfere(op, net.others, start, trace);
      if net.fault {
        longer := LoseCall(op, start, longer);
        return Err(Err(Other)), longer;
      }
      var items := doc;
      longer := Perform(ReadAll(op), start, longer);
      if items.Absent? {
        return Err(Err(DocumentNotFound)), longer;
      }
      var index := FindIndexToRemove(items.items, removes[op].value);
      match index
      case None => seen := Err(Ok(()));
      case Some(i) => seen := Ok((items.cas, i));
    }

    /** The removal of a round: None means a CAS conflict, and another round. */
    method TryRemove(op: OpId, cas: Cas, index: nat, net: Network<Event>,
                     ghost start: Document, ghost trace: seq<Event>)
      returns (outcome: Option<Result<(), Failure>>, ghost longer: seq<Event>)
      requires View() == Run(stamp, start, trace) && OnlyOthers(net.others, op)
      requires op in removes && removes[op].state.Removing?
      requires removes[op].state.cas == cas && removes[op].state.seen == index
      modifies this
      ensures View() == Run(stamp, start, longer)
      ensures op in removes && removes[op].value == old(removes[op].value)
      ensures removes[op].state == AfterRound(old(removes[op].state.attempt), outcome)
      ensures outcome != Some(Err(CasMismatch))
      ensures Quiet(net) && old(doc).Present? && old(doc).cas == cas && index < |old(doc).items| ==>
                outcome == Some(Ok(())) && doc.Present? && doc.items == RemoveAt(old(doc).items, index)
    {
      longer := Interfere(op, net.others, start, trace);
      if net.fault {
        longer := LoseCall(op, start, longer);
        return Some(Err(Other)), longer;
      }
      var met := doc;
      longer := Perform(RemoveIndex(op), start, longer);
      if met.Absent? {
        outcome := Some(Err(DocumentNotFound));
      } else if met.cas != cas {
        outcome := None;
      } else {
        outcome := Some(if index < |met.items| then Ok(()) else Err(PathNotFound));
      }
    }

    /** One round of the loop: None means a CAS conflict, and another round. */
    method Attempt(op: OpId, attempt: nat, net1: Network<Event>, net2: Network<Event>,
                   ghost start: Document, ghost trace: seq<Event>)
      returns (outcome: Option<Result<(), Failure>>, ghost longer: seq<Event>)
      requires View() == Run(stamp, start, trace) && OnlyOthers(net1.others, op) && OnlyOthers(net2.others, op)
      requires op in removes && removes[op].state == Reading(attempt)
      modifies this
      ensures View() == Run(stamp, start, longer)
      ensures op in removes && removes[op].value == old(removes[op].value)
      ensures removes[op].state == AfterRound(attempt, outcome)
      ensures outcome != Some(Err(CasMismatch))
      ensures Quiet(net1) && Quiet(net2) && old(doc).Present? ==> outcome == Some(Ok(()))
    {
      var seen;
      seen, longer := Look(op, net1, start, trace);
      if seen.Err? {
        return Some(seen.error), longer;
      }
      var (cas, index) := seen.value;
      outcome, longer := TryRemove(op, cas, index, net2, start, longer);
    }

    /** The loop: at most 16 rounds of read, search and CAS-guarded removal. */
    method Rounds(op: OpId, nets: seq<Network<Event>>, ghost start: Document, ghost trace: seq<Event>)
      returns (r: Result<(), Failure>, ghost longer: seq<Event>)
      requires |nets| == 2 * MAX_ATTEMPTS && forall k :: 0 <= k < |nets| ==> OnlyOthers(nets[k].others, op)
      requires View() == Run(stamp, start, trace) && op in removes && removes[op].state == Reading(0)
      modifies this
      ensures View() == Run(stamp, start, longer)
      ensures op in removes && removes[op].state == Finished(r) && removes[op].value == old(removes[op].value)
      ensures r != Err(CasMismatch)
      ensures Quiet(nets[0]) && Quiet(nets[1]) && old(doc).Present? ==> r == Ok(())
    {
      longer := trace;
      var attempt := 0;
      ghost var calm := Quiet(nets[0]) && Quiet(nets[1]) && doc.Present?;
      while attempt < MAX_ATTEMPTS
        invariant 0 <= attempt <= MAX_ATTEMPTS
        invariant View() == Run(stamp, start, longer)
        invariant op in removes && removes[op].value == old(removes[op].value)
        invariant removes[op].state == if attempt == 0 then Reading(0) else AfterRound(attempt - 1, None)
        invariant if attempt == 0 then doc == old(doc) else !calm
      {
        var outcome;
        outcome, longer := Attempt(op, attempt, nets[2 * attempt], nets[2 * attempt + 1], start, longer);
        if outcome.Some? {
          return outcome.value, longer;
        }
        attempt := attempt + 1;
      }
      r := Err(TooManyRetries);
    }

    /**
     CouchbaseSet::remove, with `nets` what happens on the network before each of its server calls.  It is
     a run of the state machine, and it has done exactly what it answers: erased its value once, found the
     set empty, or nothing.
     */
    method Remove(op: OpId, value: Value, nets: seq<Network<Event>>,
                  ghost start: Document, ghost trace: seq<Event>)
      returns (r: Result<(), Failure>, ghost longer: seq<Event>)
      requires |nets| == 2 * MAX_ATTEMPTS && forall k :: 0 <= k < |nets| ==> OnlyOthers(nets[k].others, op)
      requires Fresh(stamp) && IsSetDocument(start) && (start.Present? ==> start.cas == stamp(0))
      requires View() == Run(stamp, start, trace) && op !in removes
      modifies this
      ensures View() == Run(stamp, start, longer)
      ensures op in removes && removes[op].state == Finished(r) && removes[op].value == value
      ensures DidWhatItSays(EntriesOf(history, op), op, value, Finished(r)) && r != Err(CasMismatch)
      ensures Quiet(nets[0]) && Quiet(nets[1]) && old(doc).Present? ==> r == Ok(())
      ensures IsSetDocument(doc) && Replay(Members(start), history) == Some(Members(doc))
    {
      longer := Perform(StartRemove(op, value), start, trace);
      r, longer := Rounds(op, nets, start, longer);
      RefinesMathematicalSet(stamp, start, longer);
      RemoveTakesEffectIffOk(stamp, start, longer, op);
    }
  }
}
