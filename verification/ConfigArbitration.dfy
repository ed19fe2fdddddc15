/**
 ConfigManagerMemd (sdk/couchbase-core/src/configmanager.rs): the poller, not-my-vbucket replies and
 server notifications all hand configs to handle_config.  Under a lock a config is compared with the
 stored one and may replace it; after the lock is released its version is sent on a watch channel.  The
 locked comparison and the send are two atomic steps, and any number of handlers interleave.
 */
module ConfigArbitration {
  import Machine
  import opened Wrappers
  import opened ClusterConfig

  type HandlerId = nat

  datatype Ordering = Less | Equal | Greater

  function CompareInt(a: int, b: int): Ordering {
    if a < b then Less else if a > b then Greater else Equal
  }

  /** PartialOrd of ParsedConfig: the epoch first, then the revision. */
  function Compare(a: ParsedConfig, b: ParsedConfig): Ordering {
    match CompareInt(a.revEpoch, b.revEpoch)
    case Equal => CompareInt(a.revId, b.revId)
    case o => o
  }

  function BucketTypeChanged(a: Option<Bucket>, b: Option<Bucket>): bool {
    match (a, b)
    case (None, None) => false
    case (Some(x), Some(y)) => x.bucketType != y.bucketType
    case _ => true
  }

  /** can_update_config: a bucket takeover always wins, otherwise only a newer version does. */
  function CanUpdate(new_: ParsedConfig, old_: ParsedConfig): bool {
    BucketTypeChanged(new_.bucket, old_.bucket) || Compare(new_, old_) == Greater
  }

  datatype Version = Version(epoch: int, rev: int)

  function VersionOf(c: ParsedConfig): Version {
    Version(c.revEpoch, c.revId)
  }

  predicate Before(v: Version, w: Version) {
    v.epoch < w.epoch || (v.epoch == w.epoch && v.rev < w.rev)
  }

  /**
   `accepted` lists the configs stored so far, oldest first, and `delivered` all configs handed in; both
   are history and begin with the first config.  `pending` are handlers between the lock and the send,
   with the position of the config they accepted; `sent` is the position of the last version sent.
   */
  datatype System = System(
    stored: ParsedConfig, channel: Version, pending: map<HandlerId, nat>,
    delivered: seq<ParsedConfig>, accepted: seq<ParsedConfig>, sent: nat)

  datatype Event =
    | Deliver(handler: HandlerId, config: ParsedConfig)
    | Send(handler: HandlerId)
    | SendFails(handler: HandlerId)  // nobody listens: the channel keeps its value

  function Step(s: System, e: Event): System {
    match e
    case Deliver(h, c) =>
      if h in s.pending then s
      else if CanUpdate(c, s.stored) then
        s.(stored := c, pending := s.pending[h := |s.accepted|],
           delivered := s.delivered + [c], accepted := s.accepted + [c])
      else s.(delivered := s.delivered + [c])
    case Send(h) =>
      if h in s.pending && s.pending[h] < |s.accepted| then
        s.(channel := VersionOf(s.accepted[s.pending[h]]), pending := s.pending - {h}, sent := s.pending[h])
      else s
    case SendFails(h) => s.(pending := s.pending - {h})
  }

  function Start(first: ParsedConfig): System {
    System(first, VersionOf(first), map[], [first], [first], 0)
  }

  function Exec(s: System, es: seq<Event>): System {
    Machine.Exec(Step, s, es)
  }

  function Run(first: ParsedConfig, es: seq<Event>): System {
    Exec(Start(first), es)
  }

  /** All configs handed in agree with the first one on whether there is a bucket and of what type. */
  ghost predicate SameBucket(first: ParsedConfig, es: seq<Event>) {
    forall i :: 0 <= i < |es| && es[i].Deliver? ==> SameKind(es[i].config, first)
  }

  // ---------------------------------------------------------------- the order

  /** The comparison is the lexicographic order of versions. */
  lemma CompareIsLexicographic(a: ParsedConfig, b: ParsedConfig)
    ensures Compare(a, b) == Greater <==> Before(VersionOf(b), VersionOf(a))
    ensures Compare(a, b) == Less <==> Before(VersionOf(a), VersionOf(b))
    ensures Compare(a, b) == Equal <==> VersionOf(a) == VersionOf(b)
  {}

  /** Both configs have no bucket, or both have one of the same type. */
  ghost predicate SameKind(a: ParsedConfig, b: ParsedConfig) {
    (a.bucket.Some? <==> b.bucket.Some?)
    && (a.bucket.Some? && b.bucket.Some? ==> a.bucket.value.bucketType == b.bucket.value.bucketType)
  }

  /** A config is accepted exactly if its bucket is of another kind than the stored one's, or its version is newer. */
  lemma AcceptedIff(s: System, h: HandlerId, c: ParsedConfig)
    requires h !in s.pending
    ensures var t := Step(s, Deliver(h, c));
            && t.delivered == s.delivered + [c]
            && if !SameKind(c, s.stored) || Before(VersionOf(s.stored), VersionOf(c))
               then t.stored == c && h in t.pending
               else t.stored == s.stored && t.pending == s.pending
  {
    CompareIsLexicographic(c, s.stored);
  }

  /** A handler ends with its send, which shows the version it accepted or, if nobody listens, nothing. */
  lemma SendEnds(s: System, h: HandlerId)
    requires h in s.pending && s.pending[h] < |s.accepted|
    ensures var t := Step(s, Send(h));
            && t.stored == s.stored && t.pending.Keys == s.pending.Keys - {h}
            && t.channel.epoch == s.accepted[s.pending[h]].revEpoch && t.channel.rev == s.accepted[s.pending[h]].revId
    ensures var t := Step(s, SendFails(h));
            t.stored == s.stored && t.pending.Keys == s.pending.Keys - {h} && t.channel == s.channel
  {}

  // ---------------------------------------------------------------- invariant

  ghost predicate Positions(s: System) {
    && |s.accepted| > 0 && s.stored == s.accepted[|s.accepted| - 1]
    && s.sent < |s.accepted| && s.channel == VersionOf(s.accepted[s.sent])
    && forall h :: h in s.pending ==> s.pending[h] < |s.accepted|
  }

  predicate Rising(accepted: seq<ParsedConfig>) {
    forall i, j :: 0 <= i < j < |accepted| ==> Before(VersionOf(accepted[i]), VersionOf(accepted[j]))
  }

  /** The stored config was delivered, and nothing delivered is newer; among the newest it came first. */
  ghost predicate IsFirstMaximum(delivered: seq<ParsedConfig>, stored: ParsedConfig) {
    exists i :: 0 <= i < |delivered| && delivered[i] == stored
      && (forall j :: 0 <= j < i ==> Before(VersionOf(delivered[j]), VersionOf(stored)))
      && (forall j :: i <= j < |delivered| ==> !Before(VersionOf(stored), VersionOf(delivered[j])))
  }

  ghost predicate Inv(first: ParsedConfig, s: System) {
    && Positions(s) && Rising(s.accepted) && IsFirstMaximum(s.delivered, s.stored)
    && !BucketTypeChanged(s.stored.bucket, first.bucket)
  }

  lemma {:induction false} RunPositions(first: ParsedConfig, es: seq<Event>)
    ensures Positions(Run(first, es))
  {
    if es != [] {
      RunPositions(first, es[..|es| - 1]);
    }
  }

  /** A newer config becomes the first maximum; any other one leaves it where it is. */
  lemma FirstMaximumSnoc(delivered: seq<ParsedConfig>, stored: ParsedConfig, c: ParsedConfig)
    requires IsFirstMaximum(delivered, stored)
    ensures IsFirstMaximum(delivered + [c], if Before(VersionOf(stored), VersionOf(c)) then c else stored)
  {
    var i :| 0 <= i < |delivered| && delivered[i] == stored
      && (forall j :: 0 <= j < i ==> Before(VersionOf(delivered[j]), VersionOf(stored)))
      && (forall j :: i <= j < |delivered| ==> !Before(VersionOf(stored), VersionOf(delivered[j])));
    var n := |delivered|;
    if Before(VersionOf(stored), VersionOf(c)) {
      assert (delivered + [c])[n] == c;
    } else {
      assert (delivered + [c])[i] == stored;
    }
  }

  lemma DeliverInv(first: ParsedConfig, s: System, h: HandlerId, c: ParsedConfig)
    requires Inv(first, s) && !BucketTypeChanged(c.bucket, first.bucket) && h !in s.pending
    ensures Inv(first, Step(s, Deliver(h, c)))
  {
    CompareIsLexicographic(c, s.stored);
    FirstMaximumSnoc(s.delivered, s.stored, c);
  }

  lemma {:induction false} RunInv(first: ParsedConfig, es: seq<Event>)
    requires SameBucket(first, es)
    ensures Inv(first, Run(first, es))
  {
    if es == [] {
      assert Start(first).delivered[0] == first;
    } else {
      var n := |es| - 1;
      RunInv(first, es[..n]);
      var s := Run(first, es[..n]);
      if es[n].Deliver? && es[n].handler !in s.pending {
        DeliverInv(first, s, es[n].handler, es[n].config);
      }
    }
  }

  // ---------------------------------------------------------------- main results

  /**
   With an unchanged bucket the stored config is the first delivered one of the greatest version, in every
   interleaving.
   */
  lemma StoredIsFirstMaximum(first: ParsedConfig, es: seq<Event>)
    requires SameBucket(first, es)
    ensures var s := Run(first, es); IsFirstMaximum(s.delivered, s.stored) && Rising(s.accepted)
  {
    RunInv(first, es);
  }

  /** The published version is never ahead of the stored one, although sends may overtake each other or fail. */
  lemma ChannelNeverAhead(first: ParsedConfig, es: seq<Event>)
    requires SameBucket(first, es)
    ensures var s := Run(first, es); !Before(VersionOf(s.stored), s.channel)
  {
    RunInv(first, es);
  }

  // ---------------------------------------------------------------- what is left on the channel

  /** Nothing is left to send and the channel does not show the stored version. */
  predicate EndsOld(s: System) {
    s.pending == map[] && s.channel != VersionOf(s.stored)
  }

  predicate OnlySends(es: seq<Event>) {
    forall i :: 0 <= i < |es| ==> es[i].Send?
  }

  /** Some order of the outstanding sends leaves an old version on the channel. */
  ghost predicate MayEndOld(s: System) {
    exists es :: OnlySends(es) && EndsOld(Exec(s, es))
  }

  /** This handler has yet to send a version that is not the stored one. */
  predicate HoldsOld(s: System, h: HandlerId) {
    h in s.pending && s.pending[h] < |s.accepted| && VersionOf(s.accepted[s.pending[h]]) != VersionOf(s.stored)
  }

  lemma MayEndOldBefore(s: System, h: HandlerId)
    requires MayEndOld(Step(s, Send(h)))
    ensures MayEndOld(s)
  {
    var es :| OnlySends(es) && EndsOld(Exec(Step(s, Send(h)), es));
    Machine.ExecCons(Step, s, Send(h), es);
    assert OnlySends([Send(h)] + es);
  }

  /** The handler that holds an old version sends last. */
  lemma {:induction false} OldOneLast(s: System, h: HandlerId)
    requires Positions(s) && HoldsOld(s, h)
    ensures MayEndOld(s)
    decreases |s.pending|
  {
    var others := s.pending.Keys - {h};
    if others == {} {
      assert s.pending.Keys == {h};
      var t := Step(s, Send(h));
      assert t.pending.Keys == {};
      assert OnlySends([]) && EndsOld(Exec(t, []));
      MayEndOldBefore(s, h);
    } else {
      var g :| g in others;
      FewerPending(s, g);
      OldOneLast(Step(s, Send(g)), h);
      MayEndOldBefore(s, g);
    }
  }

  lemma FewerPending(s: System, g: HandlerId)
    requires Positions(s) && g in s.pending
    ensures var t := Step(s, Send(g)); Positions(t) && t.pending == s.pending - {g} && |t.pending| < |s.pending|
  {
    assert s.pending.Keys == (s.pending - {g}).Keys + {g};
    assert |(s.pending - {g}).Keys| + 1 == |s.pending.Keys|;
  }

  /** Everything that is left to send is the stored version, and without anything left the channel shows it. */
  ghost predicate WillBeCurrent(s: System) {
    Positions(s) && (forall h :: !HoldsOld(s, h)) && !EndsOld(s)
  }

  lemma {:induction false} StaysCurrent(s: System, es: seq<Event>)
    requires WillBeCurrent(s) && OnlySends(es)
    ensures WillBeCurrent(Exec(s, es))
  {
    if es != [] {
      var n := |es| - 1;
      StaysCurrent(s, es[..n]);
      SendStaysCurrent(Exec(s, es[..n]), es[n].handler);
    }
  }

  lemma SendStaysCurrent(s: System, h: HandlerId)
    requires WillBeCurrent(s)
    ensures WillBeCurrent(Step(s, Send(h)))
  {
    var t := Step(s, Send(h));
    assert !HoldsOld(s, h);
    forall g
      ensures !HoldsOld(t, g)
    {
      assert !HoldsOld(s, g);
    }
  }

  /**
   Exactly when an old version can be left on the channel, in every reachable state: when a handler has an
   old version yet to send, or nothing is left to send and the channel is behind already.
   */
  lemma MayEndOldIffOldVersionOutstanding(first: ParsedConfig, es: seq<Event>)
    ensures var s := Run(first, es); MayEndOld(s) <==> (exists h :: HoldsOld(s, h)) || EndsOld(s)
  {
    var s := Run(first, es);
    RunPositions(first, es);
    if exists h :: HoldsOld(s, h) {
      var h :| HoldsOld(s, h);
      OldOneLast(s, h);
    } else if EndsOld(s) {
      assert OnlySends([]) && EndsOld(Exec(s, []));
    } else if MayEndOld(s) {
      var more :| OnlySends(more) && EndsOld(Exec(s, more));
      StaysCurrent(s, more);
    }
  }

  /** Handlers never overlap and their sends succeed. */
  predicate Serialized(first: ParsedConfig, es: seq<Event>) {
    forall k :: 0 <= k < |es| ==> SerializedAt(first, es, k)
  }

  predicate SerializedAt(first: ParsedConfig, es: seq<Event>, k: nat)
    requires k < |es|
  {
    !es[k].SendFails? && (es[k].Deliver? ==> Run(first, es[..k]).pending == map[])
  }

  /** Then every quiet moment shows the stored version. */
  lemma {:induction false} SerializedChannelIsCurrent(first: ParsedConfig, es: seq<Event>)
    requires Serialized(first, es)
    ensures var s := Run(first, es);
            && (s.pending == map[] ==> s.channel == VersionOf(s.stored))
            && (forall h :: h in s.pending ==> s.pending == map[h := |s.accepted| - 1])
  {
    if es != [] {
      var n := |es| - 1;
      forall k | 0 <= k < n
        ensures SerializedAt(first, es[..n], k)
      {
        assert SerializedAt(first, es, k) && es[..n][..k] == es[..k];
      }
      assert SerializedAt(first, es, n);
      SerializedChannelIsCurrent(first, es[..n]);
      RunPositions(first, es[..n]);
      var s, s' := Run(first, es[..n]), Run(first, es);
      if es[n].Send? && es[n].handler in s.pending {
        assert s'.pending.Keys == {};
      } else if es[n].Deliver? {
        assert s.pending == map[];
      }
    }
  }

  /**
   Overlapping handlers can leave an old version on the channel for good: both sends are done, and the last one
   was the older.
   */
  lemma OverlapLeavesOldVersion(first: ParsedConfig, c1: ParsedConfig, c2: ParsedConfig) returns (es: seq<Event>)
    requires CanUpdate(c1, first) && CanUpdate(c2, c1) && !BucketTypeChanged(c2.bucket, c1.bucket)
    ensures var s := Run(first, es); s.pending == map[] && s.stored == c2 && s.channel == VersionOf(c1)
    ensures Before(VersionOf(c1), VersionOf(c2))
  {
    es := [Deliver(1, c1), Deliver(2, c2)];
    BothAccepted(first, c1, c2);
    RunSnoc(first, es, Send(2));
    es := es + [Send(2)];
    assert Run(first, es).pending == map[1 := 1];
    RunSnoc(first, es, Send(1));
    es := es + [Send(1)];
  }

  lemma BothAccepted(first: ParsedConfig, c1: ParsedConfig, c2: ParsedConfig)
    requires CanUpdate(c1, first) && CanUpdate(c2, c1)
    ensures var s := Run(first, [Deliver(1, c1), Deliver(2, c2)]);
            s.stored == c2 && s.accepted == [first, c1, c2] && s.pending == map[1 := 1, 2 := 2]
  {
    var es: seq<Event> := [];
    RunSnoc(first, es, Deliver(1, c1));
    assert es + [Deliver(1, c1)] == [Deliver(1, c1)];
    RunSnoc(first, [Deliver(1, c1)], Deliver(2, c2));
    assert [Deliver(1, c1)] + [Deliver(2, c2)] == [Deliver(1, c1), Deliver(2, c2)];
  }

  lemma RunSnoc(first: ParsedConfig, es: seq<Event>, e: Event)
    ensures Run(first, es + [e]) == Step(Run(first, es), e)
  {
    Machine.ExecSnoc(Step, Start(first), es, e);
  }

  /** The stored version falls exactly when a bucket takeover brings an older config. */
  lemma VersionFallsIffTakeover(s: System, h: HandlerId, c: ParsedConfig)
    requires h !in s.pending
    ensures Before(VersionOf(Step(s, Deliver(h, c)).stored), VersionOf(s.stored)) <==>
            !SameKind(c, s.stored) && Before(VersionOf(c), VersionOf(s.stored))
  {
    CompareIsLexicographic(c, s.stored);
  }

  // ---------------------------------------------------------------- the code

  /** The shared state of the handlers; `sys` is the run of the state machine that it realizes. */
  class ConfigManager {
    var latest: ParsedConfig
    var channel: Version
    ghost var sys: System

    ghost predicate Tied()
      reads this
    {
      sys.stored == latest && sys.channel == channel
    }

    constructor (first: ParsedConfig)
      ensures Tied() && sys == Start(first)
    {
      latest, channel := first, VersionOf(first);
      sys := Start(first);
    }

    /** The locked part of handle_config; an accepted version still has to be sent. */
    method Accept(config: ParsedConfig, ghost h: HandlerId) returns (toSend: Option<Version>)
      requires Tied() && h !in sys.pending
      modifies this`latest, this`sys
      ensures Tied() && sys == Step(old(sys), Deliver(h, config))
      ensures toSend == if h in sys.pending then Some(VersionOf(sys.stored)) else None
    {
      if BucketTypeChanged(config.bucket, latest.bucket) || Compare(config, latest) == Greater {
        latest := config;
        toSend := Some(VersionOf(config));
      } else {
        toSend := None;
      }
      sys := Step(sys, Deliver(h, config));
    }

    /** The send after the lock is released. */
    method SendVersion(v: Version, ghost h: HandlerId)
      requires Tied() && h in sys.pending && sys.pending[h] < |sys.accepted|
      requires v == VersionOf(sys.accepted[sys.pending[h]])
      modifies this`channel, this`sys
      ensures Tied() && sys == Step(old(sys), Send(h))
    {
      channel := v;
      sys := Step(sys, Send(h));
    }
  }
}
