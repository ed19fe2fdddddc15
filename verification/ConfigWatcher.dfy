/**
 The config poller (sdk/couchbase-core/src/configwatcher.rs, watch): an endless loop that polls one
 endpoint at a time, remembers which endpoints it polled in the current round, and starts a new round
 when no current endpoint is left.  The endpoint list may be replaced at any time.
 */
module ConfigWatcher {
  import opened Common
  import opened Arithmetic

  /** What one turn of the loop meets: the current list, whether its poll fails, and whether shutdown wins the wait. */
  datatype Input = Input(endpoints: seq<Endpoint>, pollFails: bool, shutdown: bool)

  datatype Event = Poll(endpoint: Endpoint, failed: bool) | Sleep | RoundEnd(endpoints: seq<Endpoint>)

  datatype Watcher = Watcher(recent: seq<Endpoint>, allFailed: bool, stopped: bool, trace: seq<Event>)

  const Initial: Watcher := Watcher([], true, false, [])

  /** The current endpoints that were not polled in this round, in order. */
  function Remaining(endpoints: seq<Endpoint>, recent: seq<Endpoint>): seq<Endpoint> {
    if endpoints == [] then []
    else
      var n := |endpoints| - 1;
      Remaining(endpoints[..n], recent) + if endpoints[n] in recent then [] else [endpoints[n]]
  }

  /** select! between shutdown and the polling period. */
  function Pause(w: Watcher, shutdown: bool): Watcher {
    if shutdown then w.(stopped := true) else w.(trace := w.trace + [Sleep])
  }

  function PollOne(w: Watcher, e: Endpoint, fails: bool): Watcher {
    w.(recent := w.recent + [e], allFailed := w.allFailed && fails, trace := w.trace + [Poll(e, fails)])
  }

  function CloseRound(w: Watcher, endpoints: seq<Endpoint>): Watcher {
    w.(recent := [], allFailed := true, trace := w.trace + [RoundEnd(endpoints)])
  }

  /** One turn of the loop. */
  function Turn(w: Watcher, i: Input): Watcher {
    if w.stopped then w
    else if i.endpoints == [] then Pause(w, i.shutdown)
    else
      var remaining := Remaining(i.endpoints, w.recent);
      if remaining != [] then Pause(PollOne(w, remaining[0], i.pollFails), i.shutdown)
      else if w.allFailed then
        var paused := Pause(w, i.shutdown);
        if paused.stopped then paused else CloseRound(paused, i.endpoints)
      else CloseRound(w, i.endpoints)
  }

  function Run(inputs: seq<Input>): Watcher {
    if inputs == [] then Initial else Turn(Run(inputs[..|inputs| - 1]), inputs[|inputs| - 1])
  }

  // ---------------------------------------------------------------- the loop

  method Watch(inputs: seq<Input>) returns (trace: seq<Event>)
    ensures trace == Run(inputs).trace
  {
    var recent: seq<Endpoint>, allFailed := [], true;
    trace := [];
    for k := 0 to |inputs|
      invariant Run(inputs[..k]) == Watcher(recent, allFailed, false, trace)
    {
      var i := inputs[k];
      assert inputs[..k + 1][..k] == inputs[..k];
      if i.endpoints == [] {
        if i.shutdown {
          StoppedForever(inputs, k + 1);
          return;
        }
        trace := trace + [Sleep];
        continue;
      }
      var remaining := FindRemaining(i.endpoints, recent);
      if remaining == [] {
        if allFailed {
          if i.shutdown {
            StoppedForever(inputs, k + 1);
            return;
          }
          trace := trace + [Sleep];
        }
        recent, allFailed := [], true;
        trace := trace + [RoundEnd(i.endpoints)];
        continue;
      }
      var endpoint := remaining[0];
      recent := recent + [endpoint];
      trace := trace + [Poll(endpoint, i.pollFails)];
      if !i.pollFails {
        allFailed := false;
      }
      if i.shutdown {
        StoppedForever(inputs, k + 1);
        return;
      }
      trace := trace + [Sleep];
    }
    assert inputs[..|inputs|] == inputs;
  }

  method FindRemaining(endpoints: seq<Endpoint>, recent: seq<Endpoint>) returns (remaining: seq<Endpoint>)
    ensures remaining == Remaining(endpoints, recent)
  {
    remaining := [];
    for k := 0 to |endpoints|
      invariant remaining == Remaining(endpoints[..k], recent)
    {
      assert endpoints[..k + 1][..k] == endpoints[..k];
      if endpoints[k] !in recent {
        remaining := remaining + [endpoints[k]];
      }
    }
    assert endpoints[..|endpoints|] == endpoints;
  }

  lemma {:induction false} StoppedForever(inputs: seq<Input>, k: nat)
    requires k <= |inputs| && Run(inputs[..k]).stopped
    ensures Run(inputs) == Run(inputs[..k])
    decreases |inputs|
  {
    if k == |inputs| {
      assert inputs[..k] == inputs;
    } else {
      var n := |inputs| - 1;
      assert inputs[..n][..k] == inputs[..k];
      StoppedForever(inputs[..n], k);
    }
  }

  // ---------------------------------------------------------------- any reconfiguration

  lemma {:induction false} RemainingMembers(endpoints: seq<Endpoint>, recent: seq<Endpoint>)
    ensures forall e :: e in Remaining(endpoints, recent) <==> e in endpoints && e !in recent
  {
    if endpoints != [] {
      var n := |endpoints| - 1;
      RemainingMembers(endpoints[..n], recent);
      assert endpoints == endpoints[..n] + [endpoints[n]];
    }
  }

  function PolledAfter(polled: seq<Endpoint>, e: Event): seq<Endpoint> {
    match e
    case RoundEnd(_) => []
    case Poll(endpoint, _) => polled + [endpoint]
    case Sleep => polled
  }

  /** The endpoints polled since the last end of a round. */
  function PolledInRound(trace: seq<Event>): seq<Endpoint> {
    if trace == [] then [] else PolledAfter(PolledInRound(trace[..|trace| - 1]), trace[|trace| - 1])
  }

  lemma Snoc(trace: seq<Event>, e: Event)
    ensures PolledInRound(trace + [e]) == PolledAfter(PolledInRound(trace), e)
  {
    assert (trace + [e])[..|trace + [e]| - 1] == trace;
  }

  predicate Distinct(s: seq<Endpoint>) {
    forall i, j :: 0 <= i < j < |s| ==> s[i] != s[j]
  }

  /**
   Position k of the trace is legal: no repeat in a round, a round ends only when exhausted, and polls are
   followed by a sleep.
   */
  predicate LegalAt(trace: seq<Event>, k: nat)
    requires k < |trace|
  {
    match trace[k]
    case Poll(e, _) => e !in PolledInRound(trace[..k]) && (k + 1 < |trace| ==> trace[k + 1] == Sleep)
    case RoundEnd(endpoints) => forall e :: e in endpoints ==> e in PolledInRound(trace[..k])
    case Sleep => true
  }

  predicate Legal(trace: seq<Event>) {
    forall k :: 0 <= k < |trace| ==> LegalAt(trace, k)
  }

  predicate Rested(trace: seq<Event>) {
    trace != [] ==> !trace[|trace| - 1].Poll?
  }

  lemma LegalSnoc(trace: seq<Event>, e: Event)
    requires Legal(trace) && (Rested(trace) || e == Sleep)
    requires e.Poll? ==> e.endpoint !in PolledInRound(trace)
    requires e.RoundEnd? ==> forall x :: x in e.endpoints ==> x in PolledInRound(trace)
    ensures Legal(trace + [e])
  {
    forall k | 0 <= k < |trace + [e]|
      ensures LegalAt(trace + [e], k)
    {
      if k < |trace| {
        assert LegalAt(trace, k);
        LegalStays(trace, e, k);
      } else {
        assert (trace + [e])[..k] == trace;
      }
    }
  }

  lemma LegalStays(trace: seq<Event>, e: Event, k: nat)
    requires k < |trace| && LegalAt(trace, k) && (Rested(trace) || e == Sleep)
    ensures LegalAt(trace + [e], k)
  {
    assert (trace + [e])[..k] == trace[..k];
  }

  ghost predicate Inv(w: Watcher) {
    && Legal(w.trace) && w.recent == PolledInRound(w.trace) && Distinct(w.recent)
    && (!w.stopped ==> Rested(w.trace))
  }

  lemma PauseInv(w: Watcher, shutdown: bool)
    requires Legal(w.trace) && w.recent == PolledInRound(w.trace) && Distinct(w.recent)
    ensures Inv(Pause(w, shutdown))
  {
    LegalSnoc(w.trace, Sleep);
    Snoc(w.trace, Sleep);
  }

  lemma CloseInv(w: Watcher, endpoints: seq<Endpoint>)
    requires Inv(w) && !w.stopped && Remaining(endpoints, w.recent) == []
    ensures Inv(CloseRound(w, endpoints))
  {
    RemainingMembers(endpoints, w.recent);
    LegalSnoc(w.trace, RoundEnd(endpoints));
    Snoc(w.trace, RoundEnd(endpoints));
  }

  lemma TurnInv(w: Watcher, i: Input)
    requires Inv(w)
    ensures Inv(Turn(w, i))
  {
    if !w.stopped {
      var remaining := Remaining(i.endpoints, w.recent);
      if i.endpoints == [] {
        PauseInv(w, i.shutdown);
      } else if remaining != [] {
        RemainingMembers(i.endpoints, w.recent);
        assert remaining[0] in remaining;
        LegalSnoc(w.trace, Poll(remaining[0], i.pollFails));
        Snoc(w.trace, Poll(remaining[0], i.pollFails));
        PauseInv(PollOne(w, remaining[0], i.pollFails), i.shutdown);
      } else {
        PauseInv(w, i.shutdown);
        if !w.allFailed || !i.shutdown {
          CloseInv(if w.allFailed then Pause(w, i.shutdown) else w, i.endpoints);
        }
      }
    }
  }

  /**
   Under any reconfiguration and any failures: no endpoint is polled twice in a round, a round ends only
   when every current endpoint was polled in it, and every poll but a last one is followed by a sleep.
   */
  lemma {:induction false} TraceIsLegal(inputs: seq<Input>)
    ensures Inv(Run(inputs))
  {
    if inputs != [] {
      TraceIsLegal(inputs[..|inputs| - 1]);
      TurnInv(Run(inputs[..|inputs| - 1]), inputs[|inputs| - 1]);
    }
  }

  /** A sleep separates any two polls. */
  lemma SleepSeparatesPolls(inputs: seq<Input>, i: nat, j: nat)
    requires var t := Run(inputs).trace; i < j < |t| && t[i].Poll? && t[j].Poll?
    ensures i + 1 < j && Run(inputs).trace[i + 1] == Sleep
  {
    TraceIsLegal(inputs);
    assert LegalAt(Run(inputs).trace, i);
  }

  // ---------------------------------------------------------------- the trace decides

  function FailedAfter(failed: bool, e: Event): bool {
    match e
    case RoundEnd(_) => true
    case Poll(_, f) => failed && f
    case Sleep => failed
  }

  /** Have all polls since the last end of a round failed? */
  function RoundFailed(trace: seq<Event>): bool {
    if trace == [] then true else FailedAfter(RoundFailed(trace[..|trace| - 1]), trace[|trace| - 1])
  }

  lemma FailedSnoc(trace: seq<Event>, e: Event)
    ensures RoundFailed(trace + [e]) == FailedAfter(RoundFailed(trace), e)
  {
    assert (trace + [e])[..|trace + [e]| - 1] == trace;
  }

  /** The flag of the watcher says what its trace says. */
  ghost predicate FlagOk(w: Watcher) {
    w.allFailed == RoundFailed(w.trace)
  }

  lemma PauseFlag(w: Watcher, shutdown: bool)
    requires FlagOk(w)
    ensures FlagOk(Pause(w, shutdown))
  {
    FailedSnoc(w.trace, Sleep);
  }

  lemma PollFlag(w: Watcher, e: Endpoint, fails: bool)
    requires FlagOk(w)
    ensures FlagOk(PollOne(w, e, fails))
  {
    FailedSnoc(w.trace, Poll(e, fails));
  }

  lemma CloseFlag(w: Watcher, endpoints: seq<Endpoint>)
    ensures FlagOk(CloseRound(w, endpoints))
  {
    FailedSnoc(w.trace, RoundEnd(endpoints));
  }

  lemma FailedTurn(w: Watcher, i: Input)
    requires FlagOk(w)
    ensures FlagOk(Turn(w, i))
  {
    var remaining := Remaining(i.endpoints, w.recent);
    PauseFlag(w, i.shutdown);
    CloseFlag(w, i.endpoints);
    CloseFlag(Pause(w, i.shutdown), i.endpoints);
    if remaining != [] {
      PollFlag(w, remaining[0], i.pollFails);
      PauseFlag(PollOne(w, remaining[0], i.pollFails), i.shutdown);
    }
  }

  lemma {:induction false} AllFailedIsRoundFailed(inputs: seq<Input>)
    ensures FlagOk(Run(inputs))
  {
    if inputs != [] {
      AllFailedIsRoundFailed(inputs[..|inputs| - 1]);
      FailedTurn(Run(inputs[..|inputs| - 1]), inputs[|inputs| - 1]);
    }
  }

  /** Endpoint k is the first one of the list that was not polled yet. */
  ghost predicate FirstUnpolled(endpoints: seq<Endpoint>, polled: seq<Endpoint>, k: nat) {
    k < |endpoints| && endpoints[k] !in polled && forall j :: 0 <= j < k ==> endpoints[j] in polled
  }

  lemma {:induction false} RemainingHead(endpoints: seq<Endpoint>, polled: seq<Endpoint>, k: nat)
    requires FirstUnpolled(endpoints, polled, k)
    ensures Remaining(endpoints, polled) != [] && Remaining(endpoints, polled)[0] == endpoints[k]
  {
    var n := |endpoints| - 1;
    if k < n {
      RemainingHead(endpoints[..n], polled, k);
    } else {
      NoneRemain(endpoints[..n], polled);
    }
  }

  /** What a turn does when it waits: it stops at a shutdown and sleeps otherwise. */
  ghost predicate Waits(before: Watcher, after: Watcher, events: seq<Event>, shutdown: bool) {
    after.stopped == shutdown && after.trace == before.trace + events + if shutdown then [] else [Sleep]
  }

  /**
   The trace alone decides what the next turn does.  An empty list is slept over; the first endpoint that was not
   polled in this round is polled, followed by a sleep; and when all were polled a new round begins, after a
   sleep exactly if all polls of the round have failed.  Only a sleep gives way to a shutdown.
   */
  lemma TurnFollowsTrace(inputs: seq<Input>, i: Input, k: nat)
    requires !Run(inputs).stopped
    ensures var w := Run(inputs);
            var t := Turn(w, i);
            var polled := PolledInRound(w.trace);
            && (i.endpoints == [] ==> Waits(w, t, [], i.shutdown))
            && (FirstUnpolled(i.endpoints, polled, k) ==>
                  Waits(w, t, [Poll(i.endpoints[k], i.pollFails)], i.shutdown))
            && (i.endpoints != [] && AllOld(i.endpoints, polled) ==>
                  if !RoundFailed(w.trace) then !t.stopped && t.trace == w.trace + [RoundEnd(i.endpoints)]
                  else t.stopped == i.shutdown
                       && t.trace == w.trace + if i.shutdown then [] else [Sleep, RoundEnd(i.endpoints)])
  {
    var w := Run(inputs);
    TraceIsLegal(inputs);
    AllFailedIsRoundFailed(inputs);
    if FirstUnpolled(i.endpoints, w.recent, k) {
      RemainingHead(i.endpoints, w.recent, k);
    } else if AllOld(i.endpoints, w.recent) {
      NoneRemain(i.endpoints, w.recent);
    }
    assert w.trace + [] == w.trace;
  }

  // ---------------------------------------------------------------- a fixed list

  function PollOf(e: Event): seq<Endpoint> {
    if e.Poll? then [e.endpoint] else []
  }

  function Polls(trace: seq<Event>): seq<Endpoint> {
    if trace == [] then [] else Polls(trace[..|trace| - 1]) + PollOf(trace[|trace| - 1])
  }

  lemma PollsSnoc(trace: seq<Event>, e: Event)
    ensures Polls(trace + [e]) == Polls(trace) + PollOf(e)
  {
    assert (trace + [e])[..|trace + [e]| - 1] == trace;
  }

  lemma {:induction false} RemainingConcat(a: seq<Endpoint>, b: seq<Endpoint>, recent: seq<Endpoint>)
    ensures Remaining(a + b, recent) == Remaining(a, recent) + Remaining(b, recent)
  {
    if b == [] {
      assert a + b == a;
    } else {
      var n := |b| - 1;
      RemainingConcat(a, b[..n], recent);
      assert (a + b)[..|a + b| - 1] == a + b[..n];
    }
  }

  predicate AllOld(a: seq<Endpoint>, recent: seq<Endpoint>) {
    forall i :: 0 <= i < |a| ==> a[i] in recent
  }

  predicate AllNew(a: seq<Endpoint>, recent: seq<Endpoint>) {
    forall i :: 0 <= i < |a| ==> a[i] !in recent
  }

  lemma SuffixIsNew(endpoints: seq<Endpoint>, r: nat)
    requires Distinct(endpoints) && r <= |endpoints|
    ensures AllNew(endpoints[r..], endpoints[..r])
  {
    var done, rest := endpoints[..r], endpoints[r..];
    forall i | 0 <= i < |rest|
      ensures rest[i] !in done
    {
      forall k | 0 <= k < |done|
        ensures done[k] != rest[i]
      {
        assert endpoints[k] != endpoints[r + i];
      }
    }
  }

  lemma {:induction false} NoneRemain(a: seq<Endpoint>, recent: seq<Endpoint>)
    requires AllOld(a, recent)
    ensures Remaining(a, recent) == []
  {
    if a != [] {
      NoneRemain(a[..|a| - 1], recent);
    }
  }

  lemma {:induction false} AllRemain(a: seq<Endpoint>, recent: seq<Endpoint>)
    requires AllNew(a, recent)
    ensures Remaining(a, recent) == a
  {
    if a != [] {
      AllRemain(a[..|a| - 1], recent);
      assert a == a[..|a| - 1] + [a[|a| - 1]];
    }
  }

  lemma RemainingOfPrefix(endpoints: seq<Endpoint>, r: nat)
    requires Distinct(endpoints) && r <= |endpoints|
    ensures Remaining(endpoints, endpoints[..r]) == endpoints[r..]
  {
    SuffixIsNew(endpoints, r);
    PrefixOfConcat(endpoints[..r], endpoints[r..]);
    assert endpoints == endpoints[..r] + endpoints[r..];
  }

  lemma PrefixOfConcat(done: seq<Endpoint>, rest: seq<Endpoint>)
    requires AllNew(rest, done)
    ensures Remaining(done + rest, done) == rest
  {
    RemainingConcat(done, rest, done);
    NoneRemain(done, done);
    AllRemain(rest, done);
  }

  predicate Fixed(inputs: seq<Input>, endpoints: seq<Endpoint>) {
    forall i :: 0 <= i < |inputs| ==> inputs[i].endpoints == endpoints && !inputs[i].shutdown
  }

  predicate RoundRobin(polls: seq<Endpoint>, endpoints: seq<Endpoint>)
    requires endpoints != []
  {
    forall k :: 0 <= k < |polls| ==> polls[k] == endpoints[k % |endpoints|]
  }

  /** After `q` full rounds of n + 1 turns and `r` polls of the next round. */
  ghost predicate Shape(w: Watcher, turns: nat, endpoints: seq<Endpoint>, q: nat, r: nat)
    requires endpoints != []
  {
    var n := |endpoints|;
    && r <= n && turns == q * n + q + r && !w.stopped
    && w.recent == endpoints[..r] && |Polls(w.trace)| == q * n + r && RoundRobin(Polls(w.trace), endpoints)
  }

  lemma NextPoll(endpoints: seq<Endpoint>, q: nat, r: nat, polls: seq<Endpoint>)
    requires r < |endpoints| && |polls| == q * |endpoints| + r && RoundRobin(polls, endpoints)
    ensures RoundRobin(polls + [endpoints[r]], endpoints)
  {
    DivModUnique(q, r, |endpoints|);
  }

  /**
   With a fixed list of n distinct endpoints the polling is round robin whatever fails: the k-th poll goes
   to endpoint k mod n, and n + 1 turns of the loop make one full round of n polls.
   */
  lemma {:induction false} PollingIsRoundRobin(inputs: seq<Input>, endpoints: seq<Endpoint>) returns (q: nat, r: nat)
    requires Distinct(endpoints) && endpoints != [] && Fixed(inputs, endpoints)
    ensures Shape(Run(inputs), |inputs|, endpoints, q, r)
  {
    if inputs == [] {
      q, r := 0, 0;
    } else {
      var n := |inputs| - 1;
      q, r := PollingIsRoundRobin(inputs[..n], endpoints);
      q, r := OneTurn(Run(inputs[..n]), inputs[n], endpoints, n, q, r);
    }
  }

  /** One more turn polls the next endpoint of the round, or closes it. */
  lemma OneTurn(w: Watcher, i: Input, endpoints: seq<Endpoint>, turns: nat, q: nat, r: nat)
    returns (q': nat, r': nat)
    requires Distinct(endpoints) && endpoints != [] && Shape(w, turns, endpoints, q, r)
    requires i.endpoints == endpoints && !i.shutdown
    ensures Shape(Turn(w, i), turns + 1, endpoints, q', r')
  {
    RemainingOfPrefix(endpoints, r);
    if r < |endpoints| {
      PollTurn(w, i, endpoints, turns, q, r);
      q', r' := q, r + 1;
    } else {
      CloseTurn(w, i, endpoints, turns, q);
      q', r' := q + 1, 0;
    }
  }

  lemma PollTurn(w: Watcher, i: Input, endpoints: seq<Endpoint>, turns: nat, q: nat, r: nat)
    requires endpoints != [] && Shape(w, turns, endpoints, q, r) && r < |endpoints|
    requires i.endpoints == endpoints && !i.shutdown && Remaining(endpoints, w.recent) == endpoints[r..]
    ensures Shape(Turn(w, i), turns + 1, endpoints, q, r + 1)
  {
    var e := endpoints[r];
    var w' := Turn(w, i);
    assert w'.trace == w.trace + [Poll(e, i.pollFails)] + [Sleep] && w'.recent == endpoints[..r + 1];
    PollsSnoc(w.trace, Poll(e, i.pollFails));
    PollsSnoc(w.trace + [Poll(e, i.pollFails)], Sleep);
    assert Polls(w'.trace) == Polls(w.trace) + [e];
    NextPoll(endpoints, q, r, Polls(w.trace));
  }

  lemma CloseTurn(w: Watcher, i: Input, endpoints: seq<Endpoint>, turns: nat, q: nat)
    requires endpoints != [] && Shape(w, turns, endpoints, q, |endpoints|)
    requires i.endpoints == endpoints && !i.shutdown && Remaining(endpoints, w.recent) == endpoints[|endpoints|..]
    ensures Shape(Turn(w, i), turns + 1, endpoints, q + 1, 0)
  {
    var n := |endpoints|;
    PollsSnoc(w.trace, Sleep);
    PollsSnoc(w.trace, RoundEnd(endpoints));
    PollsSnoc(w.trace + [Sleep], RoundEnd(endpoints));
    assert (q + 1) * n == q * n + n;
  }
}
