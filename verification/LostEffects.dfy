/** A run of the outbox after which an effect is nowhere.

    It is given up, retried, and given up again; the second time its incident is not written,
    for the key of the first one is taken. */
module LostEffects {
  import opened Options
  import opened Outbox
  import opened OutboxRuns

  const LOST := Key(0, 1, 0)

  /** What is left when the effect was given up. */
  function GivenUp(s: State): State
    requires LOST in s.t.queue
  {
    s.(t := s.t.(queue := s.t.queue - {LOST},
                 incidents := if DeadLetter(LOST) in s.t.incidents then s.t.incidents
                              else s.t.incidents[DeadLetter(LOST) :=
                                Incident("effectDispatchFailed", Open, Some(s.t.queue[LOST].effect))]),
       deaths := s.deaths + multiset{LOST})
  }

  /** No dispatcher gives up earlier or later. */
  predicate Allowing(steps: seq<Step>, maxAttempts: int) {
    forall i :: 0 <= i < |steps| && steps[i].Commit? ==> steps[i].maxAttempts == maxAttempts
  }

  lemma Joined(a: seq<State>, p: seq<Step>, b: seq<State>, q: seq<Step>)
    requires IsPath(a, p) && IsPath(b, q) && a[|a| - 1] == b[0]
    ensures IsPath(a + b[1..], p + q)
    ensures (a + b[1..])[0] == a[0] && (a + b[1..])[|a + b[1..]| - 1] == b[|b| - 1]
  {
    hide Enabled, Next;
    var states, steps := a + b[1..], p + q;
    forall i | 0 <= i < |steps|
      ensures Enabled(states[i], steps[i]) && states[i + 1] == Next(states[i], steps[i])
    {
      if i >= |p| {
        assert steps[i] == q[i - |p|] && states[i + 1] == b[i - |p| + 1] && states[i] == b[i - |p|];
      }
    }
  }

  /** A dispatcher claims the row when it is due, and its effect fails. */
  lemma OneAttempt(s: State, maxAttempts: int) returns (states: seq<State>, steps: seq<Step>)
    requires s.claims == map[] && LOST in s.t.queue
    ensures IsPath(states, steps) && |states| > 0 && states[0] == s && Allowing(steps, maxAttempts)
    ensures states[|states| - 1] == Turn(s, LOST, true, s.t.queue[LOST].due, maxAttempts)
  {
    var now := s.t.queue[LOST].due;
    var held := s.(claims := map[0 := [LOST]]);
    var done := Turn(s, LOST, true, now, maxAttempts);
    states, steps := [s, held, done], [Claim(0, [LOST], now), Commit(0, {LOST}, now, maxAttempts)];
    assert held.(claims := held.claims - {0}) == s;
    assert [LOST][..0] == [];
    assert Turns(s, [], {LOST}, now, maxAttempts) == s;
    hide Turn;
    assert Turns(s, [LOST], {LOST}, now, maxAttempts) == done;
  }

  lemma AttemptIs(s: State, now: int, maxAttempts: int)
    requires LOST in s.t.queue && CanBreak(s.t.queue[LOST].effect)
    ensures var s', row := Turn(s, LOST, true, now, maxAttempts), s.t.queue[LOST];
            if row.attempts + 1 >= maxAttempts then s' == GivenUp(s)
            else s' == s.(t := s.t.(queue := s.t.queue[LOST :=
                              Row(row.effect, row.attempts + 1, now + BackoffSeconds(row.attempts + 1))]))
  {
    hide Applied;
  }

  /** However many attempts there are, an effect can fail at all of them. */
  lemma {:induction false} AllAttemptsFail(s: State, maxAttempts: int) returns (states: seq<State>, steps: seq<Step>)
    requires s.claims == map[] && LOST in s.t.queue && CanBreak(s.t.queue[LOST].effect)
    ensures IsPath(states, steps) && |states| > 0 && Allowing(steps, maxAttempts)
    ensures states[0] == s && states[|states| - 1] == GivenUp(s)
    decreases maxAttempts - s.t.queue[LOST].attempts
  {
    hide Turn, IsPath;
    states, steps := OneAttempt(s, maxAttempts);
    AttemptIs(s, s.t.queue[LOST].due, maxAttempts);
    if s.t.queue[LOST].attempts + 1 < maxAttempts {
      var next := states[|states| - 1];
      assert next.t.queue - {LOST} == s.t.queue - {LOST};
      var more, further := AllAttemptsFail(next, maxAttempts);
      Joined(states, steps, more, further);
      states, steps := states + more[1..], steps + further;
    }
  }

  lemma {:induction false} NoneUsed(instance: nat, lo: nat, hi: nat)
    requires lo <= hi
    ensures AfterLast(map[], instance, lo, hi) == lo
    decreases hi - lo
  {
    if lo < hi { NoneUsed(instance, lo, hi - 1); }
  }

  lemma OneStep(s: State, step: Step)
    requires Enabled(s, step)
    ensures IsPath([s, Next(s, step)], [step])
  {
    hide Enabled, Next;
  }

  /** The one effect of an advance. */
  function Waiting1(effect: Effect): State { Next(EMPTY, Advance(0, [effect], 0)) }

  lemma WaitingIs(effect: Effect)
    ensures Waiting1(effect) ==
            EMPTY.(t := EMPTY.t.(queue := map[LOST := Row(effect, 0, 0)], revisions := map[0 := 1]),
                   issued := map[LOST := effect])
  {
    assert [effect][..0] == [] && Enqueued(map[], 0, 1, [], 0) == map[];
    assert Issued(map[], 0, 1, [effect]) == map[LOST := effect];
  }

  lemma RetryIs(effect: Effect)
    ensures LOST in Waiting1(effect).t.queue
    ensures var s := GivenUp(Waiting1(effect));
            Enabled(s, Retry(DeadLetter(LOST), 0)) &&
            var s' := Next(s, Retry(DeadLetter(LOST), 0));
            && s'.claims == map[] && s'.t.queue == map[LOST := Row(effect, 0, 0)]
            && s'.issued == map[LOST := effect] && s'.applied == multiset{} && s'.dismissed == {}
            && DeadLetter(LOST) in s'.t.incidents && s'.t.incidents[DeadLetter(LOST)].state.Retried?
  {
    WaitingIs(effect);
    hide Next;
    var s := GivenUp(Waiting1(effect));
    assert s.t.queue == map[] && s.t.history == map[];
    NoneUsed(0, HistorySeq(1, AUDIT), HistorySeq(1, SPAN));
    hide AfterLast;
    assert HasRoom(s.t, 0);
    hide NextAudit, HasRoom;
    RetriedIs(s);
  }

  lemma RetriedIs(s: State)
    requires s.t.queue == map[] && HasRoom(s.t, 0) && DeadLetter(LOST) in s.t.incidents
    requires s.t.incidents[DeadLetter(LOST)].state.Open? && s.t.incidents[DeadLetter(LOST)].effect.Some?
    ensures var i, s' := DeadLetter(LOST), Next(s, Retry(DeadLetter(LOST), 0));
            Enabled(s, Retry(i, 0)) && s' == s.(t := s'.t)
            && s'.t.queue == map[LOST := Row(s.t.incidents[i].effect.value, 0, 0)]
            && i in s'.t.incidents && s'.t.incidents[i].state.Retried?
  {
    hide NextAudit, HasRoom;
  }

  /** The effect is issued, given up, and retried. */
  lemma UntilRetried(effect: Effect, maxAttempts: int) returns (states: seq<State>, steps: seq<Step>)
    requires CanBreak(effect)
    ensures LOST in Waiting1(effect).t.queue
    ensures IsPath(states, steps) && Allowing(steps, maxAttempts) && |states| > 0 && states[0] == EMPTY
    ensures Enabled(GivenUp(Waiting1(effect)), Retry(DeadLetter(LOST), 0))
    ensures states[|states| - 1] == Next(GivenUp(Waiting1(effect)), Retry(DeadLetter(LOST), 0))
  {
    WaitingIs(effect);
    RetryIs(effect);
    var s1, retry := Waiting1(effect), Retry(DeadLetter(LOST), 0);
    OneStep(EMPTY, Advance(0, [effect], 0));
    hide IsPath, Next, Enabled;
    var front, first := [EMPTY, s1], [Advance(0, [effect], 0)];
    var more, further := AllAttemptsFail(s1, maxAttempts);
    Joined(front, first, more, further);
    hide Waiting1;
    var last := [GivenUp(s1), Next(GivenUp(s1), retry)];
    OneStep(GivenUp(s1), retry);
    Joined(front + more[1..], first + further, last, [retry]);
    states, steps := (front + more[1..]) + last[1..], first + further + [retry];
  }

  /** So the promise is not kept: whatever the effect, if its data can be defective at all, and
      however many attempts there are, there is a run after which it neither waits nor was
      applied, and no incident is open. */
  lemma EffectLost(effect: Effect, maxAttempts: int) returns (states: seq<State>, steps: seq<Step>)
    requires CanBreak(effect)
    ensures IsRun(states, steps)
    ensures Allowing(steps, maxAttempts)
    ensures var s := states[|states| - 1];
            s.issued == map[LOST := effect] && s.dismissed == {} && !Accounted(s, LOST)
  {
    RetryIs(effect);
    states, steps := UntilRetried(effect, maxAttempts);
    hide IsPath, Next, Enabled, Waiting1;
    var more, further := AllAttemptsFail(states[|states| - 1], maxAttempts);
    Joined(states, steps, more, further);
    states, steps := states + more[1..], steps + further;
  }
}
