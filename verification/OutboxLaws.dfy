/** What each effect, retry and pass does to the tables, in literal values. */
module OutboxLaws {
  import opened Options
  import opened Outbox
  import opened OutboxRuns

  // ------------------------------------------------------------ one effect

  /** A wait is created once, live and for the instance of the effect. */
  lemma CreateMeans(t: Tables, k: Key, a: Anchor)
    ensures Applied(t, k, Create(a)) ==
            Some(if a in t.anchors then t else t.(anchors := t.anchors[a := Waiting(k.instance, Live)]))
  {
  }

  /** An agent's job likewise if its element is pinned, and otherwise there is an incident, once. */
  lemma CreateAgentMeans(t: Tables, k: Key, a: Anchor, element: Option<string>)
    ensures Applied(t, k, CreateAgent(a, element)) ==
            if element.Some? && (k.instance, element.value) in t.pins then Applied(t, k, Create(a))
            else Applied(t, k, RaiseIncident("agentPinMissing"))
  {
  }

  /** A cancellation cancels what is live and nothing else: what is done, failed or paused stays
      as it is. */
  lemma CancelMeans(t: Tables, k: Key, a: Anchor)
    ensures Applied(t, k, Cancel(a)).Some?
    ensures var t' := Applied(t, k, Cancel(a)).value;
            && t' == t.(anchors := t'.anchors) && t'.anchors.Keys == t.anchors.Keys
            && forall b <- t.anchors :: t'.anchors[b] ==
                 if b == a && t.anchors[b].status == Live then Waiting(t.anchors[b].instance, Cancelled)
                 else t.anchors[b]
  {
  }

  /** An effect emits its event once, under 100000 times the revision plus its place. */
  lemma EmitMeans(t: Tables, k: Key, kind: string)
    ensures var place := (k.instance, k.revision * 100000 + k.index);
            Applied(t, k, EmitHistory(kind)) ==
            if exists p <- t.history.Keys :: t.history[p].source == OfEffect(k) then Some(t)
            else if place in t.history then None
            else Some(t.(history := t.history[place := Event(OfEffect(k), kind)]))
  {
  }

  lemma RaiseMeans(t: Tables, k: Key, kind: string)
    ensures Applied(t, k, RaiseIncident(kind)) ==
            Some(if Raised(k) in t.incidents then t
                 else t.(incidents := t.incidents[Raised(k) := Incident(kind, Open, None)]))
    ensures Applied(t, k, CompleteInstance) == Some(t)
  {
  }

  // ------------------------------------------------------------ one row

  /** Main result: a row is applied and deleted, or else it is put off by 2, 4, 8, 16, 32 and
      then 60 seconds, or given up at the last of its attempts: then it is deleted, and has an
      incident with its effect unless it had one. */
  lemma RowMeans(t: Tables, k: Key, breaks: bool, now: int, maxAttempts: int)
    requires k in t.queue
    ensures var row, t' := t.queue[k], Dispatched(t, k, breaks, now, maxAttempts);
            var works := !(breaks && row.effect != CompleteInstance) && Applied(t, k, row.effect).Some?;
            if works then t' == Applied(t, k, row.effect).value.(queue := t.queue - {k})
            else if row.attempts + 1 < maxAttempts then
              t' == t.(queue := t.queue[k := Row(row.effect, row.attempts + 1, now + Wait(row.attempts + 1))])
            else
              && t' == t.(queue := t.queue - {k}, incidents := t'.incidents)
              && t'.incidents == if DeadLetter(k) in t.incidents then t.incidents
                                 else t.incidents[DeadLetter(k) :=
                                        Incident("effectDispatchFailed", Open, Some(row.effect))]
  {
    AppliedLeavesQueue(t, k, t.queue[k].effect);
    WaitIs(t.queue[k].attempts + 1);
    hide Applied, BackoffSeconds, Wait;
  }

  /** The seconds after so many failures. */
  function Wait(failures: nat): nat {
    match failures
    case 0 => 1
    case 1 => 2
    case 2 => 4
    case 3 => 8
    case 4 => 16
    case 5 => 32
    case _ => 60
  }

  lemma WaitIs(failures: nat)
    ensures BackoffSeconds(failures) == Wait(failures)
  {
    assert Power2(5) == 2 * Power2(4) && Power2(4) == 2 * Power2(3) && Power2(3) == 2 * Power2(2);
    if failures >= 6 { PowerGrows(failures); }
  }

  lemma {:induction false} PowerGrows(n: nat)
    requires n >= 6
    ensures Power2(n) >= 64
  {
    if n > 6 {
      PowerGrows(n - 1);
    } else {
      assert Power2(6) == 2 * Power2(5) && Power2(5) == 2 * Power2(4) && Power2(4) == 2 * Power2(3);
      assert Power2(3) == 2 * Power2(2) && Power2(2) == 2 * Power2(1);
    }
  }

  // ------------------------------------------------------------ cancellations in a run

  /** Main result: in every run, what a dispatched cancellation found live is cancelled, for its
      instance and for good: no step sets it free, not even the retry of an incident. */
  lemma CancelledForGood(states: seq<State>, steps: seq<Step>, m: nat, n: nat, a: Anchor)
    requires IsRun(states, steps) && m <= n < |states| && a in states[m].t.anchors
    requires states[m].t.anchors[a].status == Cancelled || states[m].t.anchors[a].status == Done
    ensures a in states[n].t.anchors && states[n].t.anchors[a] == states[m].t.anchors[a]
  {
    RunExtends(states, steps, m, n);
  }

  /** The turn of a cancellation. */
  lemma CancelTurn(s: State, k: Key, a: Anchor, now: int, maxAttempts: int)
    requires k in s.t.queue && s.t.queue[k].effect == Cancel(a)
    ensures var s' := Turn(s, k, false, now, maxAttempts);
            && s'.applied == s.applied + multiset{k} && k !in s'.t.queue && s'.t.anchors.Keys == s.t.anchors.Keys
            && forall b <- s.t.anchors :: s'.t.anchors[b] ==
                 if b == a && s.t.anchors[b].status == Live then Waiting(s.t.anchors[b].instance, Cancelled)
                 else s.t.anchors[b]
  {
    CancelMeans(s.t, k, a);
    RowMeans(s.t, k, false, now, maxAttempts);
    hide Applied, Dispatched;
  }

  /** The turn of a creation. */
  lemma CreateTurn(s: State, k: Key, a: Anchor, now: int, maxAttempts: int)
    requires k in s.t.queue && s.t.queue[k].effect == Create(a)
    ensures var s' := Turn(s, k, false, now, maxAttempts);
            && s'.applied == s.applied + multiset{k} && k !in s'.t.queue
            && s'.t.anchors == if a in s.t.anchors then s.t.anchors else s.t.anchors[a := Waiting(k.instance, Live)]
  {
    CreateMeans(s.t, k, a);
    RowMeans(s.t, k, false, now, maxAttempts);
    hide Applied, Dispatched;
  }

  // ------------------------------------------------------------ retries and the host's events

  /** A retried dead letter waits afresh; any other retried incident sets the failed jobs of its
      instance free, and needs one. Either way it is retried, and the audit has an event. */
  lemma RetryMeans(t: Tables, i: IncidentKey, now: int)
    ensures var letter := i in t.incidents && i.DeadLetter? && t.incidents[i].effect.Some?;
            var broken := set a | a in t.anchors && a.kind == Job && t.anchors[a] == Waiting(i.key.instance, Broken);
            var can := i in t.incidents && t.incidents[i].state == Open && HasRoom(t, i.key.instance);
            && (Retrying(t, i, now).Some? <==> can && (letter || broken != {}))
            && (Retrying(t, i, now).Some? ==>
                  var t' := Retrying(t, i, now).value;
                  && t'.incidents == t.incidents[i := t.incidents[i].(state := Retried)]
                  && t'.history == t.history[(i.key.instance, NextAudit(t, i.key.instance)) :=
                                             Event(OfAudit, "incidentRetried")]
                  && t'.revisions == t.revisions && t'.pins == t.pins
                  && t'.queue == (if letter && i.key !in t.queue
                                  then t.queue[i.key := Row(t.incidents[i].effect.value, 0, now)] else t.queue)
                  && t'.anchors.Keys == t.anchors.Keys
                  && forall a <- t.anchors :: t'.anchors[a] ==
                       if !letter && a in broken then Waiting(i.key.instance, Live) else t.anchors[a])
  {
    var broken := set a | a in t.anchors && a.kind == Job && t.anchors[a] == Waiting(i.key.instance, Broken);
    assert BrokenJobs(t, i.key.instance) == broken;
    hide NextAudit, HasRoom;
    if i in t.incidents {
      SameRoom(t, t.(anchors := Rearmed(t, i.key.instance), incidents := IncidentWith(t, i, Retried)), i.key.instance);
      if t.incidents[i].effect.Some? {
        SameRoom(t, t.(queue := Requeued(t.queue, i.key, t.incidents[i].effect.value, now),
                       incidents := IncidentWith(t, i, Retried)), i.key.instance);
      }
    }
  }

  lemma ResolveMeans(t: Tables, i: IncidentKey)
    ensures Resolving(t, i).Some? <==>
            i in t.incidents && t.incidents[i].state != Resolved && HasRoom(t, i.key.instance)
    ensures Resolving(t, i).Some? ==>
            Resolving(t, i).value ==
            t.(incidents := t.incidents[i := t.incidents[i].(state := Resolved)],
               history := t.history[(i.key.instance, NextAudit(t, i.key.instance)) :=
                                    Event(OfAudit, "incidentResolved")])
  {
    hide NextAudit, HasRoom;
    if i in t.incidents { SameRoom(t, t.(incidents := IncidentWith(t, i, Resolved)), i.key.instance); }
  }

  /** A note is one event under its number, once; a pin is recorded besides, whether or not its
      event was there. */
  lemma NoteMeans(t: Tables, instance: nat, note: Note)
    ensures var place := (instance, NumberIn(note));
            var noted := exists p <- t.history.Keys :: p.0 == instance && t.history[p].source.OfHost? &&
                           SameKey(t.history[p].source.note, note);
            && (Noted(t, instance, note).Some? <==> noted || place !in t.history)
            && (Noted(t, instance, note).Some? ==>
                  Noted(t, instance, note).value ==
                  t.(history := if noted then t.history else t.history[place := Event(OfHost(note), "")],
                     pins := match note case Pin(e, _) => t.pins + {(instance, e)} case _ => t.pins))
  {
  }

  /** An agent's job is created once its element was pinned for the instance. */
  lemma PinnedCreates(t: Tables, k: Key, a: Anchor, element: string, index: nat)
    requires Noted(t, k.instance, Pin(element, index)).Some?
    ensures var t' := Noted(t, k.instance, Pin(element, index)).value;
            Applied(t', k, CreateAgent(a, Some(element))) ==
            Some(if a in t.anchors then t' else t'.(anchors := t.anchors[a := Waiting(k.instance, Live)]))
  {
  }

  /** The next number of the audit: the one after the greatest used of the revision's last 10000,
      or the first of them. */
  lemma NextAuditMeans(t: Tables, instance: nat)
    ensures var r := if instance in t.revisions then t.revisions[instance] else 0;
            var lo, hi, n := r * 100000 + 90000, r * 100000 + 100000, NextAudit(t, instance);
            && lo <= n <= hi && (n > lo ==> (instance, n - 1) in t.history)
            && (forall m :: n <= m < hi ==> (instance, m) !in t.history)
            && (HasRoom(t, instance) <==> n < hi)
  {
    var r := RevisionOf(t, instance);
    LastUsed(t.history, instance, r * 100000 + 90000, r * 100000 + 100000);
    hide AfterLast;
  }

  lemma {:induction false} LastUsed(history: map<(nat, nat), Event>, instance: nat, lo: nat, hi: nat)
    requires lo <= hi
    ensures var n := AfterLast(history, instance, lo, hi); n > lo ==> (instance, n - 1) in history
    decreases hi - lo
  {
    if hi > lo && (instance, hi - 1) !in history { LastUsed(history, instance, lo, hi - 1); }
  }
}
