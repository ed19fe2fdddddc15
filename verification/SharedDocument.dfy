/**
 The server document behind the collection data structures (sdk/couchbase/src/collection_ds.rs): a JSON
 array with a CAS.  The n-th mutation of a document gets the CAS `stamp(n)`; the server is assumed never
 to reuse a CAS (`Fresh(stamp)`), and a call that reports a failure is assumed to have had no effect.
 */
module SharedDocument {
  import opened Wrappers

  type Value = string  // a JSON value, as its text
  type Cas = nat
  type OpId = nat

  /** The rounds of the optimistic loops. */
  const MAX_ATTEMPTS: nat := 16

  datatype Document = Absent | Present(cas: Cas, items: seq<Value>)

  datatype Failure = DocumentNotFound | PathNotFound | CasMismatch | TooManyRetries | Other

  ghost predicate Fresh(stamp: nat -> Cas) {
    forall i, j :: stamp(i) == stamp(j) ==> i == j
  }

  /** Where one call of an optimistic loop stands between two server calls. */
  datatype CallState<Seen, Answer> =
    | Reading(attempt: nat)
    | Removing(attempt: nat, cas: Cas, seen: Seen)
    | Finished(result: Result<Answer, Failure>)

  /** After a round: None is a CAS conflict, which leads to another round or to giving up. */
  function AfterRound<Seen, Answer>(attempt: nat, outcome: Option<Result<Answer, Failure>>): CallState<Seen, Answer> {
    match outcome
    case Some(r) => Finished(r)
    case None => if attempt + 1 < MAX_ATTEMPTS then Reading(attempt + 1) else Finished(Err(TooManyRetries))
  }

  /** What happens before a server call: steps of other clients, and perhaps the loss of the call. */
  datatype Network<Event> = Network(others: seq<Event>, fault: bool)

  predicate Quiet<Event>(net: Network<Event>) {
    |net.others| == 0 && !net.fault
  }
}
