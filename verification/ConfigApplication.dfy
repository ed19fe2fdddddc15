/**
 From the config manager to the agent (sdk/couchbase-core/src/agent.rs, apply_config and its three callers).
 A not-my-vbucket reply or a server notification that is accepted is applied by the task that delivered it.
 A polled config that is accepted is first posted on a watch channel, which holds only the last one, and a
 task of the agent takes it from there and applies it.  Applying overwrites the agent's config without
 comparing versions.  Each acceptance, post, take and application is one atomic step.
 */
module ConfigApplication {
  import Machine
  import opened Wrappers
  import opened ClusterConfig
  import opened ConfigArbitration

  /**
   `direct` are the accepted configs that their own tasks have yet to apply; `posting`, `notice` and `taken`
   are where an accepted poll may be: not posted yet, posted and unseen, or in the hands of the agent's task.
   */
  datatype Agent = Agent(
    stored: ParsedConfig, applied: ParsedConfig, direct: map<HandlerId, ParsedConfig>,
    posting: Option<ParsedConfig>, notice: Option<ParsedConfig>, taken: Option<ParsedConfig>)

  datatype Action =
    | Arrive(handler: HandlerId, config: ParsedConfig)
    | ApplyDirect(handler: HandlerId)
    | Poll(config: ParsedConfig)
    | Post
    | Take
    | ApplyTaken

  function Act(s: Agent, e: Action): Agent {
    match e
    case Arrive(h, c) =>
      if h in s.direct || !CanUpdate(c, s.stored) then s else s.(stored := c, direct := s.direct[h := c])
    case ApplyDirect(h) =>
      if h in s.direct then s.(applied := s.direct[h], direct := s.direct - {h}) else s
    case Poll(c) =>
      if s.posting.Some? || !CanUpdate(c, s.stored) then s else s.(stored := c, posting := Some(c))
    case Post =>
      if s.posting.Some? then s.(notice := s.posting, posting := None) else s
    case Take =>
      if s.notice.Some? && s.taken.None? then s.(taken := s.notice, notice := None) else s
    case ApplyTaken =>
      if s.taken.Some? then s.(applied := s.taken.value, taken := None) else s
  }

  function Exec(s: Agent, es: seq<Action>): Agent {
    Machine.Exec(Act, s, es)
  }

  function Begin(first: ParsedConfig): Agent {
    Agent(first, first, map[], None, None, None)
  }

  /** Every accepted config has been applied or overwritten. */
  predicate Quiet(s: Agent) {
    s.direct == map[] && s.posting.None? && s.notice.None? && s.taken.None?
  }

  /** The agent routes by another config than the stored one, and nothing is left to apply. */
  predicate LeftBehind(s: Agent) {
    Quiet(s) && s.applied != s.stored
  }

  predicate Arrives(e: Action) {
    e.Arrive? || e.Poll?
  }

  predicate NoArrivals(es: seq<Action>) {
    forall i :: 0 <= i < |es| ==> !Arrives(es[i])
  }

  /** Some order of what is outstanding leaves the agent behind. */
  ghost predicate MayBeLeftBehind(s: Agent) {
    exists es :: NoArrivals(es) && LeftBehind(Exec(s, es))
  }

  // ---------------------------------------------------------------- who may be last

  /** The polled config that the agent's task will apply after all others. */
  function LastPolled(s: Agent): Option<ParsedConfig> {
    if s.posting.Some? then s.posting else if s.notice.Some? then s.notice else s.taken
  }

  predicate DirectIsOld(s: Agent, h: HandlerId) {
    h in s.direct && s.direct[h] != s.stored
  }

  predicate PolledIsOld(s: Agent) {
    LastPolled(s).Some? && LastPolled(s).value != s.stored
  }

  lemma LeftBehindBefore(s: Agent, e: Action)
    requires MayBeLeftBehind(Act(s, e)) && !Arrives(e)
    ensures MayBeLeftBehind(s)
  {
    var es :| NoArrivals(es) && LeftBehind(Exec(Act(s, e), es));
    Machine.ExecCons(Act, s, e, es);
    assert NoArrivals([e] + es);
  }

  lemma LeftBehindNow(s: Agent)
    requires LeftBehind(s)
    ensures MayBeLeftBehind(s)
  {
    assert NoArrivals([]) && LeftBehind(Exec(s, []));
  }

  /** How much is left to do with polled configs. */
  function PolledWork(s: Agent): nat {
    (if s.posting.Some? then 3 else 0) + (if s.notice.Some? then 2 else 0) + (if s.taken.Some? then 1 else 0)
  }

  /** The next thing to do with a polled config. */
  function NextPolled(s: Agent): Action {
    if s.posting.Some? then Post else if s.taken.Some? then ApplyTaken else Take
  }

  lemma PolledStep(s: Agent)
    requires PolledWork(s) > 0
    ensures var t := Act(s, NextPolled(s));
            && PolledWork(t) < PolledWork(s) && t.direct == s.direct && t.stored == s.stored
            && (PolledWork(t) > 0 ==> LastPolled(t) == LastPolled(s))
            && (PolledWork(t) == 0 ==> LastPolled(s) == Some(t.applied))
  {}

  lemma DirectStep(s: Agent, h: HandlerId)
    requires h in s.direct
    ensures var t := Act(s, ApplyDirect(h));
            t.direct == s.direct - {h} && |t.direct| < |s.direct| && PolledWork(t) == PolledWork(s)
  {
    assert s.direct.Keys == (s.direct - {h}).Keys + {h};
    assert |(s.direct - {h}).Keys| + 1 == |s.direct.Keys|;
  }

  /** All others are applied first, then the old config of this handler. */
  lemma {:induction false} OldDirectLast(s: Agent, h: HandlerId)
    requires DirectIsOld(s, h)
    ensures MayBeLeftBehind(s)
    decreases |s.direct| + PolledWork(s)
  {
    if PolledWork(s) > 0 {
      PolledStep(s);
      OldDirectLast(Act(s, NextPolled(s)), h);
      LeftBehindBefore(s, NextPolled(s));
    } else if s.direct.Keys - {h} == {} {
      var t := Act(s, ApplyDirect(h));
      assert t.direct.Keys == {};
      LeftBehindNow(t);
      LeftBehindBefore(s, ApplyDirect(h));
    } else {
      var g :| g in s.direct.Keys - {h};
      DirectStep(s, g);
      OldDirectLast(Act(s, ApplyDirect(g)), h);
      LeftBehindBefore(s, ApplyDirect(g));
    }
  }

  /** All direct ones are applied first, then the polled ones in their order. */
  lemma {:induction false} OldPolledLast(s: Agent)
    requires PolledIsOld(s)
    ensures MayBeLeftBehind(s)
    decreases |s.direct| + PolledWork(s)
  {
    if s.direct.Keys != {} {
      var g :| g in s.direct.Keys;
      DirectStep(s, g);
      OldPolledLast(Act(s, ApplyDirect(g)));
      LeftBehindBefore(s, ApplyDirect(g));
    } else {
      PolledStep(s);
      var t := Act(s, NextPolled(s));
      if PolledWork(t) > 0 {
        OldPolledLast(t);
      } else {
        LeftBehindNow(t);
      }
      LeftBehindBefore(s, NextPolled(s));
    }
  }

  // ---------------------------------------------------------------- when nobody old can be last

  ghost predicate WillCatchUp(s: Agent) {
    (forall h :: !DirectIsOld(s, h)) && !PolledIsOld(s) && !LeftBehind(s)
  }

  lemma CatchUpStep(s: Agent, e: Action)
    requires WillCatchUp(s) && !Arrives(e)
    ensures WillCatchUp(Act(s, e))
  {
    var t := Act(s, e);
    assert e.ApplyDirect? ==> !DirectIsOld(s, e.handler);
    forall h
      ensures !DirectIsOld(t, h)
    {
      assert !DirectIsOld(s, h);
    }
  }

  lemma {:induction false} CatchUpExec(s: Agent, es: seq<Action>)
    requires WillCatchUp(s) && NoArrivals(es)
    ensures WillCatchUp(Exec(s, es))
  {
    if es != [] {
      CatchUpExec(s, es[..|es| - 1]);
      CatchUpStep(Exec(s, es[..|es| - 1]), es[|es| - 1]);
    }
  }

  // ---------------------------------------------------------------- main results

  /**
   Exactly when the agent can end up routing by another config than the stored one, in every state: when a
   task has yet to apply an old config itself, when the last polled config in the pipeline is old, or when
   nothing is outstanding and the agent is behind already.
   */
  lemma MayBeLeftBehindIff(s: Agent)
    ensures MayBeLeftBehind(s) <==> (exists h :: DirectIsOld(s, h)) || PolledIsOld(s) || LeftBehind(s)
  {
    if exists h :: DirectIsOld(s, h) {
      var h :| DirectIsOld(s, h);
      OldDirectLast(s, h);
    } else if PolledIsOld(s) {
      OldPolledLast(s);
    } else if LeftBehind(s) {
      LeftBehindNow(s);
    } else if MayBeLeftBehind(s) {
      var es :| NoArrivals(es) && LeftBehind(Exec(s, es));
      CatchUpExec(s, es);
    }
  }

  /** Two overlapping handlers: the older config may be applied last, whatever the two configs are. */
  lemma OverlapMayLeaveBehind(first: ParsedConfig, c1: ParsedConfig, c2: ParsedConfig, h1: HandlerId, h2: HandlerId)
    requires CanUpdate(c1, first) && CanUpdate(c2, c1) && h1 != h2
    ensures var s := Exec(Begin(first), [Arrive(h1, c1), Arrive(h2, c2)]); s.stored == c2 && MayBeLeftBehind(s)
  {
    var s := Act(Act(Begin(first), Arrive(h1, c1)), Arrive(h2, c2));
    Machine.ExecConcat(Act, Begin(first), [Arrive(h1, c1)], [Arrive(h2, c2)]);
    Machine.ExecOne(Act, Begin(first), Arrive(h1, c1));
    Machine.ExecOne(Act, Act(Begin(first), Arrive(h1, c1)), Arrive(h2, c2));
    assert [Arrive(h1, c1)] + [Arrive(h2, c2)] == [Arrive(h1, c1), Arrive(h2, c2)];
    DiffersFromItsUpdate(c2, c1);
    assert DirectIsOld(s, h1);
    MayBeLeftBehindIff(s);
  }

  /** A config never updates itself, so what it updates is another one. */
  lemma DiffersFromItsUpdate(new_: ParsedConfig, old_: ParsedConfig)
    requires CanUpdate(new_, old_)
    ensures new_ != old_
  {
    CompareIsLexicographic(new_, old_);
  }

  /** Only configs arrive that the stored one does not give way to. */
  predicate NothingNewer(es: seq<Action>, stored: ParsedConfig) {
    forall i :: 0 <= i < |es| && Arrives(es[i]) ==> !CanUpdate(es[i].config, stored)
  }

  /** An agent that is left behind stays so however often the stored config, or an older one, is delivered again. */
  lemma {:induction false} NoRedeliveryRepairs(s: Agent, es: seq<Action>)
    requires LeftBehind(s) && NothingNewer(es, s.stored)
    ensures Exec(s, es) == s && !CanUpdate(s.stored, s.stored)
  {
    CompareIsLexicographic(s.stored, s.stored);
    if es != [] {
      NoRedeliveryRepairs(s, es[..|es| - 1]);
    }
  }

  /** Exactly which delivery repairs it: one that the stored config gives way to. */
  lemma RepairedIffUpdated(s: Agent, h: HandlerId, c: ParsedConfig)
    requires LeftBehind(s)
    ensures var t := Act(Act(s, Arrive(h, c)), ApplyDirect(h));
            Quiet(t) && (t.applied == t.stored <==> CanUpdate(c, s.stored))
  {
    var t := Act(Act(s, Arrive(h, c)), ApplyDirect(h));
    assert t.direct.Keys == {};
  }

  // ---------------------------------------------------------------- nothing is lost on the way

  /** A config that a task has yet to apply waits for that task alone. */
  lemma {:induction false} DirectWaits(s: Agent, es: seq<Action>, h: HandlerId)
    requires h in s.direct && ApplyDirect(h) !in es
    ensures var t := Exec(s, es); h in t.direct && t.direct[h] == s.direct[h]
  {
    if es != [] {
      assert es[|es| - 1] in es;
      DirectWaits(s, es[..|es| - 1], h);
    }
  }

  /** A config that the agent's task has taken is applied before another one is taken. */
  lemma {:induction false} TakenWaits(s: Agent, es: seq<Action>)
    requires s.taken.Some? && ApplyTaken !in es
    ensures Exec(s, es).taken == s.taken
  {
    if es != [] {
      assert es[|es| - 1] in es;
      TakenWaits(s, es[..|es| - 1]);
    }
  }

  /** A polled config that was accepted is posted before the poller hands in another one. */
  lemma {:induction false} PostingWaits(s: Agent, es: seq<Action>)
    requires s.posting.Some? && Post !in es
    ensures Exec(s, es).posting == s.posting
  {
    if es != [] {
      assert es[|es| - 1] in es;
      PostingWaits(s, es[..|es| - 1]);
    }
  }

  /** The channel holds what was posted last until it is taken; a post that nobody took is overwritten. */
  lemma {:induction false} NoticeWaits(s: Agent, es: seq<Action>)
    requires s.notice.Some? && Post !in es && Take !in es
    ensures Exec(s, es).notice == s.notice
  {
    if es != [] {
      assert es[|es| - 1] in es;
      NoticeWaits(s, es[..|es| - 1]);
    }
  }

  /** With nothing else on the way, an accepted config is stored and then applied, on either path. */
  lemma AcceptedIsApplied(s: Agent, h: HandlerId, c: ParsedConfig)
    requires Quiet(s) && CanUpdate(c, s.stored)
    ensures var t := Act(Act(s, Arrive(h, c)), ApplyDirect(h)); t.stored == c && t.applied == c
    ensures var t := Act(Act(Act(Act(s, Poll(c)), Post), Take), ApplyTaken); t.stored == c && t.applied == c
  {
    var u := Act(Act(s, Poll(c)), Post);
    assert u.notice == Some(c) && u.taken.None? && u.stored == c;
  }

  /** Posting replaces whatever was not taken yet. */
  lemma PostReplaces(s: Agent)
    requires s.posting.Some?
    ensures var t := Act(s, Post);
            t.notice == s.posting && t.posting.None? && t.taken == s.taken && t.direct == s.direct
  {}
}
