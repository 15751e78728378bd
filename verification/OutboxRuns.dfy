/** Advances, dispatchers, retries and the work on what was created, interleaved. */
module OutboxRuns {
  import opened Options
  import opened Outbox

  // Any number of dispatchers lock rows, commit a batch or crash; a batch takes effect as a
  // whole. The effects of an instance are issued by its advances, each under a new revision.

  // ------------------------------------------------------------ the protocol

  /** `claims` are the rows that each dispatcher has locked. For the proof only: the effects
      that were issued, how often each was applied and given up, and the dead letters that
      were resolved by hand before any retry. */
  datatype State = State(
    t: Tables, claims: map<nat, seq<Key>>, issued: map<Key, Effect>,
    applied: multiset<Key>, deaths: multiset<Key>, dismissed: set<Key>)

  datatype Step =
    | Advance(instance: nat, effects: seq<Effect>, now: int)
    | Claim(worker: nat, keys: seq<Key>, now: int)
    | Commit(worker: nat, broken: set<Key>, now: int, maxAttempts: int)
    | Crash(worker: nat)
    | Retry(incident: IncidentKey, now: int)
    | Resolve(incident: IncidentKey)
    | Work(anchor: Anchor, status: Status)
    | Audit(instance: nat, kind: string)
    | Write(instance: nat, notes: seq<Note>)

  /** What becomes of a wait outside: it is done, fails or is paused, and a paused one goes on; a
      failed one only a retry sets free. */
  predicate CanBecome(from: Status, to: Status) {
    match from
    case Live => to != Cancelled
    case Paused => to == Live
    case _ => false
  }

  predicate Locked(s: State, k: Key) { exists w <- s.claims.Keys :: k in s.claims[w] }

  predicate Enabled(s: State, step: Step) {
    match step
    case Advance(_, _, _) => true
    case Claim(w, keys, now) =>
      w !in s.claims && Distinct(keys) && forall k <- keys :: k in s.t.queue && s.t.queue[k].due <= now && !Locked(s, k)
    case Commit(w, _, _, _) => w in s.claims
    case Crash(w) => w in s.claims
    case Retry(i, now) => Retrying(s.t, i, now).Some?
    case Resolve(i) => Resolving(s.t, i).Some?
    case Work(a, status) => a in s.t.anchors && CanBecome(s.t.anchors[a].status, status)
    case Audit(instance, _) => HasRoom(s.t, instance)
    case Write(instance, notes) =>
      (forall note <- notes :: RevisionIn(note) <= RevisionOf(s.t, instance)) && NotedAll(s.t, instance, notes).Some?
  }

  /** One row of a batch. */
  function Turn(s: State, k: Key, breaks: bool, now: int, maxAttempts: int): State
    requires k in s.t.queue
  {
    var v := VerdictOf(s.t, k, breaks, maxAttempts);
    s.(t := Dispatched(s.t, k, breaks, now, maxAttempts),
       applied := if v.Processed? then s.applied + multiset{k} else s.applied,
       deaths := if v.DeadLettered? then s.deaths + multiset{k} else s.deaths)
  }

  /** The rows of a batch, in order: the tables are those of `Batch`. */
  function Turns(s: State, keys: seq<Key>, broken: set<Key>, now: int, maxAttempts: int): State {
    if keys == [] then s
    else
      var m, k := Turns(s, keys[..|keys| - 1], broken, now, maxAttempts), keys[|keys| - 1];
      if k in m.t.queue then Turn(m, k, k in broken, now, maxAttempts) else m
  }

  function Issued(issued: map<Key, Effect>, instance: nat, revision: nat, effects: seq<Effect>): map<Key, Effect> {
    issued + map j: nat | j < |effects| :: Key(instance, revision, j) := effects[j]
  }

  function Next(s: State, step: Step): State
    requires Enabled(s, step)
  {
    match step
    case Advance(instance, effects, now) =>
      var revision := RevisionOf(s.t, instance) + 1;
      s.(t := s.t.(queue := Enqueued(s.t.queue, instance, revision, effects, now),
                   revisions := s.t.revisions[instance := revision]),
         issued := Issued(s.issued, instance, revision, effects))
    case Claim(w, keys, _) => s.(claims := s.claims[w := keys])
    case Commit(w, broken, now, maxAttempts) =>
      Turns(s.(claims := s.claims - {w}), s.claims[w], broken, now, maxAttempts)
    case Crash(w) => s.(claims := s.claims - {w})
    case Retry(i, now) => s.(t := Retrying(s.t, i, now).value)
    case Resolve(i) =>
      s.(t := Resolving(s.t, i).value,
         dismissed := if i.DeadLetter? && s.t.incidents[i].state.Open? then s.dismissed + {i.key} else s.dismissed)
    case Work(a, status) => s.(t := s.t.(anchors := s.t.anchors[a := s.t.anchors[a].(status := status)]))
    case Audit(instance, kind) => s.(t := Audited(s.t, instance, kind))
    case Write(instance, notes) => s.(t := NotedAll(s.t, instance, notes).value)
  }

  // ------------------------------------------------------------ the invariant

  predicate IsOpen(s: State, k: Key) {
    DeadLetter(k) in s.t.incidents && s.t.incidents[DeadLetter(k)].state.Open?
  }

  /** Where an issued effect stands, by how often it was given up. Never: it waits or was
      applied, once. Once: its incident is open, or was resolved at once, or was retried and
      the effect waits or was applied. Twice: it is nowhere. */
  predicate FateOk(s: State, k: Key) {
    var waits, done := k in s.t.queue, s.applied[k];
    var incident := DeadLetter(k) in s.t.incidents;
    match s.deaths[k]
    case 0 => !incident && k !in s.dismissed && (if waits then done == 0 else done == 1)
    case 1 =>
      && incident
      && if IsOpen(s, k) then k !in s.dismissed && !waits && done == 0
         else if k in s.dismissed then !waits && done == 0
         else if waits then done == 0 else done == 1
    case 2 => incident && !IsOpen(s, k) && k !in s.dismissed && !waits && done == 0
    case _ => false
  }

  /** What an applied effect leaves behind. */
  predicate Left(t: Tables, k: Key, effect: Effect) {
    match effect
    case Create(a) => a in t.anchors
    case CreateAgent(a, _) => a in t.anchors || Raised(k) in t.incidents
    case Cancel(_) => true
    case EmitHistory(kind) =>
      var place := (k.instance, SeqOf(k));
      place in t.history && t.history[place] == Event(OfEffect(k), kind)
    case RaiseIncident(_) => Raised(k) in t.incidents
    case CompleteInstance => true
  }

  predicate TraceOk(s: State, k: Key)
    requires k in s.issued
  {
    Left(s.t, k, s.issued[k])
  }

  predicate KeyOk(s: State, k: Key) {
    if k in s.issued then
      && 1 <= k.revision <= RevisionOf(s.t, k.instance)
      && FateOk(s, k)
      && (k in s.t.queue ==> s.t.queue[k].effect == s.issued[k])
      && (DeadLetter(k) in s.t.incidents ==> s.t.incidents[DeadLetter(k)].effect == Some(s.issued[k]))
      && (s.applied[k] == 1 ==> TraceOk(s, k))
    else
      k !in s.t.queue && s.applied[k] == 0 && s.deaths[k] == 0 && DeadLetter(k) !in s.t.incidents && k !in s.dismissed
  }

  /** An event of an effect was emitted by it, under its number; the host's audit lies in the
      band of a revision, and its notes have the numbers they ask for. */
  predicate EventOk(s: State, p: (nat, nat))
    requires p in s.t.history
  {
    match s.t.history[p].source
    case OfEffect(k) => k in s.issued && s.applied[k] == 1 && p == (k.instance, SeqOf(k)) && s.issued[k].EmitHistory?
    case OfAudit => exists r: nat :: r <= RevisionOf(s.t, p.0) && HistorySeq(r, AUDIT) <= p.1 < HistorySeq(r, SPAN)
    case OfHost(note) => p.1 == NumberIn(note) && RevisionIn(note) <= RevisionOf(s.t, p.0)
  }

  predicate ClaimOk(s: State, w: nat)
    requires w in s.claims
  {
    Distinct(s.claims[w]) && forall k <- s.claims[w] :: k in s.t.queue
  }

  predicate Apart(s: State, v: nat, w: nat)
    requires v in s.claims && w in s.claims
  {
    forall k <- s.claims[v] :: k !in s.claims[w]
  }

  ghost predicate Inv(s: State) {
    && (forall k :: KeyOk(s, k))
    && (forall p <- s.t.history :: EventOk(s, p))
    && (forall w <- s.claims :: ClaimOk(s, w))
    && (forall v <- s.claims, w <- s.claims :: v != w ==> Apart(s, v, w))
  }

  // ------------------------------------------------------------ what a step leaves alone

  /** A wait belongs to its instance, and what is done or cancelled stays so. */
  predicate Stays(a: Waiting, b: Waiting) {
    a.instance == b.instance && (a.status == Done || a.status == Cancelled ==> b == a)
  }

  /** Nothing that an effect has left behind is taken back. */
  ghost predicate Grows(t: Tables, t': Tables) {
    && (forall a <- t.anchors :: a in t'.anchors && Stays(t.anchors[a], t'.anchors[a]))
    && (forall p <- t.history :: p in t'.history && t'.history[p] == t.history[p])
    && (forall i <- t.incidents :: i in t'.incidents)
    && (forall i :: RevisionOf(t, i) <= RevisionOf(t', i))
  }

  ghost predicate Extends(s: State, s': State) {
    && Grows(s.t, s'.t)
    && (forall k <- s.issued :: k in s'.issued && s'.issued[k] == s.issued[k])
    && (forall k :: s.applied[k] <= s'.applied[k] && s.deaths[k] <= s'.deaths[k])
  }

  /** Nothing has changed that an effect's fate depends on. */
  ghost predicate SameFor(s: State, s': State, k: Key) {
    && (k in s.issued <==> k in s'.issued) && (k in s.issued ==> s'.issued[k] == s.issued[k])
    && (k in s.t.queue <==> k in s'.t.queue) && (k in s.t.queue ==> s'.t.queue[k].effect == s.t.queue[k].effect)
    && s.applied[k] == s'.applied[k] && s.deaths[k] == s'.deaths[k]
    && (k in s.dismissed <==> k in s'.dismissed)
    && (DeadLetter(k) in s.t.incidents <==> DeadLetter(k) in s'.t.incidents)
    && (DeadLetter(k) in s.t.incidents ==> s'.t.incidents[DeadLetter(k)] == s.t.incidents[DeadLetter(k)])
  }

  lemma TraceStays(s: State, s': State, k: Key)
    requires k in s.issued && k in s'.issued && s'.issued[k] == s.issued[k] && Grows(s.t, s'.t) && TraceOk(s, k)
    ensures TraceOk(s', k)
  {
  }

  lemma OtherKey(s: State, s': State, k: Key)
    requires KeyOk(s, k) && SameFor(s, s', k) && Grows(s.t, s'.t)
    ensures KeyOk(s', k)
  {
    hide TraceOk, Grows;
    if k in s.issued {
      assert RevisionOf(s.t, k.instance) <= RevisionOf(s'.t, k.instance) by { RevisionGrows(s.t, s'.t, k.instance); }
      if s.applied[k] == 1 { TraceStays(s, s', k); }
    }
  }

  lemma RevisionGrows(t: Tables, t': Tables, i: nat)
    requires Grows(t, t')
    ensures RevisionOf(t, i) <= RevisionOf(t', i)
  {
  }

  /** An event that was there before stays in order. */
  lemma EventStays(s: State, s': State, p: (nat, nat))
    requires p in s.t.history && EventOk(s, p) && Extends(s, s')
    requires forall k :: KeyOk(s', k)
    ensures p in s'.t.history && EventOk(s', p)
  {
    match s.t.history[p].source
    case OfEffect(k) => assert KeyOk(s', k);
    case OfAudit =>
      var r: nat :| r <= RevisionOf(s.t, p.0) && HistorySeq(r, AUDIT) <= p.1 < HistorySeq(r, SPAN);
      assert RevisionOf(s.t, p.0) <= RevisionOf(s'.t, p.0);
    case OfHost(_) => assert RevisionOf(s.t, p.0) <= RevisionOf(s'.t, p.0);
  }

  /** The invariant from its parts. */
  lemma Reassemble(s: State, s': State)
    requires Inv(s) && Extends(s, s')
    requires forall k :: KeyOk(s', k)
    requires forall p <- s'.t.history :: p !in s.t.history ==> EventOk(s', p)
    requires forall w <- s'.claims :: ClaimOk(s', w)
    requires forall v <- s'.claims, w <- s'.claims :: v != w ==> Apart(s', v, w)
    ensures Inv(s')
  {
    hide KeyOk, EventOk, ClaimOk, Apart, Extends;
    forall p <- s'.t.history ensures EventOk(s', p) {
      if p in s.t.history { EventStays(s, s', p); }
    }
  }

  // ------------------------------------------------------------ one row

  /** A waiting effect has no event yet. */
  lemma NoEventYet(s: State, k: Key)
    requires Inv(s) && k in s.t.queue
    ensures k in s.issued && s.applied[k] == 0 && !HasEvent(s.t, k)
  {
    assert KeyOk(s, k);
    forall p <- s.t.history ensures s.t.history[p].source != OfEffect(k) {
      assert EventOk(s, p);
    }
  }

  lemma AppliedGrows(t: Tables, k: Key, effect: Effect)
    requires Applied(t, k, effect).Some?
    ensures Grows(t, Applied(t, k, effect).value)
  {
    AppliedAnchors(t, k, effect);
    AppliedEvents(t, k, effect);
    AppliedIncidents(t, k, effect);
    hide Applied;
  }

  lemma AppliedAnchors(t: Tables, k: Key, effect: Effect)
    requires Applied(t, k, effect).Some?
    ensures forall a <- t.anchors ::
              a in Applied(t, k, effect).value.anchors && Stays(t.anchors[a], Applied(t, k, effect).value.anchors[a])
    ensures Applied(t, k, effect).value.revisions == t.revisions
  {
    hide HasEvent, RaisedOnce;
  }

  lemma AppliedEvents(t: Tables, k: Key, effect: Effect)
    requires Applied(t, k, effect).Some?
    ensures var t' := Applied(t, k, effect).value;
            forall p <- t.history :: p in t'.history && t'.history[p] == t.history[p]
  {
    hide HasEvent, RaisedOnce, Created;
  }

  lemma AppliedIncidents(t: Tables, k: Key, effect: Effect)
    requires Applied(t, k, effect).Some?
    ensures forall i <- t.incidents :: i in Applied(t, k, effect).value.incidents
  {
    hide HasEvent, Created;
  }

  lemma AppliedKeepsLetters(t: Tables, k: Key, effect: Effect)
    requires Applied(t, k, effect).Some?
    ensures var t' := Applied(t, k, effect).value;
            && t'.queue == t.queue && t'.revisions == t.revisions
            && forall j :: (DeadLetter(j) in t'.incidents <==> DeadLetter(j) in t.incidents)
                 && (DeadLetter(j) in t.incidents ==> t'.incidents[DeadLetter(j)] == t.incidents[DeadLetter(j)])
  {
    hide HasEvent;
  }

  /** Applying an effect leaves its trace, and no other event. */
  lemma AppliedLeft(t: Tables, k: Key, effect: Effect)
    requires !HasEvent(t, k) && Applied(t, k, effect).Some?
    ensures var t' := Applied(t, k, effect).value;
            && Left(t', k, effect)
            && forall p <- t'.history :: p !in t.history ==>
                 p == (k.instance, SeqOf(k)) && effect.EmitHistory? && t'.history[p].source == OfEffect(k)
  {
    hide HasEvent;
  }

  /** Claims survive a step that takes an unlocked row off the queue. */
  lemma ClaimsStay(s: State, s': State, k: Key)
    requires Inv(s) && !Locked(s, k) && s'.claims == s.claims
    requires forall j :: j in s.t.queue && j != k ==> j in s'.t.queue
    ensures forall w <- s'.claims :: ClaimOk(s', w)
    ensures forall v <- s'.claims, w <- s'.claims :: v != w ==> Apart(s', v, w)
  {
    forall w <- s'.claims ensures ClaimOk(s', w) {
      assert ClaimOk(s, w);
    }
    forall v <- s'.claims, w <- s'.claims | v != w ensures Apart(s', v, w) {
      assert Apart(s, v, w);
    }
  }

  lemma TurnOk(s: State, k: Key, breaks: bool, now: int, maxAttempts: int)
    requires Inv(s) && k in s.t.queue && !Locked(s, k)
    ensures Inv(Turn(s, k, breaks, now, maxAttempts)) && Extends(s, Turn(s, k, breaks, now, maxAttempts))
  {
    hide Inv, Applied, Extends;
    match VerdictOf(s.t, k, breaks, maxAttempts)
    case Processed => ProcessedOk(s, k, breaks, now, maxAttempts);
    case DeadLettered => DeadLetteredOk(s, k, breaks, now, maxAttempts);
    case Failed => FailedOk(s, k, breaks, now, maxAttempts);
  }

  lemma ProcessedOk(s: State, k: Key, breaks: bool, now: int, maxAttempts: int)
    requires Inv(s) && k in s.t.queue && !Locked(s, k) && VerdictOf(s.t, k, breaks, maxAttempts).Processed?
    ensures Inv(Turn(s, k, breaks, now, maxAttempts)) && Extends(s, Turn(s, k, breaks, now, maxAttempts))
  {
    hide Applied, Grows, Left, HasEvent;
    var s' := Turn(s, k, breaks, now, maxAttempts);
    var effect := s.t.queue[k].effect;
    assert KeyOk(s, k);
    NoEventYet(s, k);
    AppliedGrows(s.t, k, effect);
    AppliedKeepsLetters(s.t, k, effect);
    GrowsQueue(s.t, Applied(s.t, k, effect).value, s'.t);
    AppliedLeft(s.t, k, effect);
    LeftStays(Applied(s.t, k, effect).value, s'.t, k, effect);
    forall j ensures KeyOk(s', j) {
      assert KeyOk(s, j);
      if j != k { OtherKey(s, s', j); }
    }
    ClaimsStay(s, s', k);
    hide KeyOk, Inv, ClaimOk, Apart;
    Reassemble(s, s');
  }

  lemma LeftStays(t: Tables, t': Tables, k: Key, effect: Effect)
    requires Left(t, k, effect) && t' == t.(queue := t'.queue)
    ensures Left(t', k, effect)
  {
  }

  /** The queue is not what `Grows` is about. */
  lemma GrowsQueue(t: Tables, m: Tables, t': Tables)
    requires Grows(t, m) && t' == m.(queue := t'.queue)
    ensures Grows(t, t')
  {
  }

  lemma DeadLetteredOk(s: State, k: Key, breaks: bool, now: int, maxAttempts: int)
    requires Inv(s) && k in s.t.queue && !Locked(s, k) && VerdictOf(s.t, k, breaks, maxAttempts).DeadLettered?
    ensures Inv(Turn(s, k, breaks, now, maxAttempts)) && Extends(s, Turn(s, k, breaks, now, maxAttempts))
  {
    hide Applied, TraceOk, EventOk;
    var s' := Turn(s, k, breaks, now, maxAttempts);
    assert KeyOk(s, k);
    assert Grows(s.t, s'.t);
    forall j ensures KeyOk(s', j) {
      assert KeyOk(s, j);
      if j != k { OtherKey(s, s', j); }
    }
    ClaimsStay(s, s', k);
    hide KeyOk, Inv, ClaimOk, Apart;
    Reassemble(s, s');
  }

  lemma FailedOk(s: State, k: Key, breaks: bool, now: int, maxAttempts: int)
    requires Inv(s) && k in s.t.queue && !Locked(s, k) && VerdictOf(s.t, k, breaks, maxAttempts).Failed?
    ensures Inv(Turn(s, k, breaks, now, maxAttempts)) && Extends(s, Turn(s, k, breaks, now, maxAttempts))
  {
    hide Applied, TraceOk, EventOk;
    var s' := Turn(s, k, breaks, now, maxAttempts);
    assert Grows(s.t, s'.t);
    forall j ensures KeyOk(s', j) {
      assert KeyOk(s, j);
      OtherKey(s, s', j);
    }
    ClaimsStay(s, s', k);
    hide KeyOk, Inv, ClaimOk, Apart;
    Reassemble(s, s');
  }

  // ------------------------------------------------------------ a batch

  /** The batch of the protocol is the batch of the code, and it counts what it reports. */
  lemma {:induction false} TurnsAreBatch(s: State, keys: seq<Key>, broken: set<Key>, now: int, maxAttempts: int)
    ensures var s', p := Turns(s, keys, broken, now, maxAttempts), Batch(s.t, keys, broken, now, maxAttempts);
            s'.t == p.t && |s'.applied| == |s.applied| + p.processed && |s'.deaths| == |s.deaths| + p.deadLettered
  {
    if keys != [] {
      TurnsAreBatch(s, keys[..|keys| - 1], broken, now, maxAttempts);
    }
    hide Dispatched, VerdictOf;
  }

  lemma TurnLeaves(s: State, k: Key, breaks: bool, now: int, maxAttempts: int)
    requires k in s.t.queue
    ensures var s' := Turn(s, k, breaks, now, maxAttempts);
            s'.claims == s.claims && forall j :: j != k ==> (j in s'.t.queue <==> j in s.t.queue)
  {
    DispatchedLeaves(s.t, k, breaks, now, maxAttempts);
  }

  /** Every row of a batch gets its turn, and the others keep their place. */
  lemma {:induction false} TurnsOk(s: State, keys: seq<Key>, broken: set<Key>, now: int, maxAttempts: int)
    requires Inv(s) && Distinct(keys) && forall k <- keys :: k in s.t.queue && !Locked(s, k)
    ensures var s' := Turns(s, keys, broken, now, maxAttempts);
            && Inv(s') && Extends(s, s') && s'.claims == s.claims
            && forall j :: j !in keys ==> (j in s'.t.queue <==> j in s.t.queue)
  {
    ExtendsItself(s);
    hide Inv, Turn, Extends;
    if keys != [] {
      var front, k := keys[..|keys| - 1], keys[|keys| - 1];
      TurnsOk(s, front, broken, now, maxAttempts);
      var m := Turns(s, front, broken, now, maxAttempts);
      assert k !in front;
      assert k in m.t.queue && !Locked(m, k);
      TurnOk(m, k, k in broken, now, maxAttempts);
      TurnLeaves(m, k, k in broken, now, maxAttempts);
      ExtendsChain(s, m, Turn(m, k, k in broken, now, maxAttempts));
    }
  }

  lemma ExtendsItself(s: State)
    ensures Extends(s, s)
  {
  }

  lemma ExtendsChain(a: State, b: State, c: State)
    requires Extends(a, b) && Extends(b, c)
    ensures Extends(a, c)
  {
    assert Grows(a.t, c.t);
  }

  // ------------------------------------------------------------ the steps

  /** A dispatcher lets go of its rows. */
  lemma ReleaseOk(s: State, w: nat)
    requires Inv(s) && w in s.claims
    ensures var s' := s.(claims := s.claims - {w});
            Inv(s') && Extends(s, s') && forall k <- s.claims[w] :: !Locked(s', k)
  {
    var s' := s.(claims := s.claims - {w});
    forall k ensures KeyOk(s', k) { assert KeyOk(s, k); }
    forall p <- s'.t.history ensures EventOk(s', p) { assert EventOk(s, p); }
    forall v <- s'.claims ensures ClaimOk(s', v) { assert ClaimOk(s, v); }
    forall u <- s'.claims, v <- s'.claims | u != v ensures Apart(s', u, v) { assert Apart(s, u, v); }
    forall k <- s.claims[w] ensures !Locked(s', k) {
      forall v <- s'.claims ensures k !in s'.claims[v] { assert Apart(s, w, v); }
    }
  }

  lemma CommitOk(s: State, w: nat, broken: set<Key>, now: int, maxAttempts: int)
    requires Inv(s) && w in s.claims
    ensures Inv(Next(s, Commit(w, broken, now, maxAttempts)))
    ensures Extends(s, Next(s, Commit(w, broken, now, maxAttempts)))
  {
    assert ClaimOk(s, w);
    ReleaseOk(s, w);
    hide Inv, Locked, Turns, Extends;
    var free := s.(claims := s.claims - {w});
    TurnsOk(free, s.claims[w], broken, now, maxAttempts);
    ExtendsChain(s, free, Turns(free, s.claims[w], broken, now, maxAttempts));
  }

  lemma ClaimStepOk(s: State, w: nat, keys: seq<Key>, now: int)
    requires Inv(s) && Enabled(s, Claim(w, keys, now))
    ensures Inv(Next(s, Claim(w, keys, now))) && Extends(s, Next(s, Claim(w, keys, now)))
  {
    var s' := s.(claims := s.claims[w := keys]);
    forall k ensures KeyOk(s', k) { assert KeyOk(s, k); }
    forall p <- s'.t.history ensures EventOk(s', p) { assert EventOk(s, p); }
    forall v <- s'.claims ensures ClaimOk(s', v) {
      if v != w { assert ClaimOk(s, v); }
    }
    forall u <- s'.claims, v <- s'.claims | u != v ensures Apart(s', u, v) {
      if u != w && v != w { assert Apart(s, u, v); }
    }
  }

  lemma IssuedAt(issued: map<Key, Effect>, instance: nat, revision: nat, effects: seq<Effect>, k: Key)
    ensures var all := Issued(issued, instance, revision, effects);
            && (k in all <==> k in issued || KeyOf(k, instance, revision, |effects|))
            && (k in all ==> all[k] == if KeyOf(k, instance, revision, |effects|) then effects[k.index] else issued[k])
  {
    if KeyOf(k, instance, revision, |effects|) { assert k == Key(instance, revision, k.index); }
  }

  lemma AdvanceGrows(s: State, instance: nat, effects: seq<Effect>, now: int)
    ensures Grows(s.t, Next(s, Advance(instance, effects, now)).t)
  {
    hide Enqueued, Issued;
  }

  /** What an advance does to an effect: one of its own waits, the others are as before. */
  lemma AdvanceKey(s: State, instance: nat, effects: seq<Effect>, now: int, k: Key)
    requires KeyOk(s, k)
    ensures var s' := Next(s, Advance(instance, effects, now));
            && KeyOk(s', k) && (k in s.t.queue ==> k in s'.t.queue)
            && (k in s.issued ==> k in s'.issued && s'.issued[k] == s.issued[k])
  {
    var s' := Next(s, Advance(instance, effects, now));
    AdvanceGrows(s, instance, effects, now);
    AdvanceIs(s, instance, effects, now, k);
    hide Next, Grows, TraceOk, FateOk;
    if KeyOf(k, instance, RevisionOf(s.t, instance) + 1, |effects|) {
      NewKey(s, s', k);
    } else {
      OtherKey(s, s', k);
    }
  }

  lemma AdvanceIs(s: State, instance: nat, effects: seq<Effect>, now: int, k: Key)
    requires KeyOk(s, k)
    ensures var s', revision := Next(s, Advance(instance, effects, now)), RevisionOf(s.t, instance) + 1;
            && RevisionOf(s'.t, instance) == revision && s'.t.incidents == s.t.incidents
            && s'.applied == s.applied && s'.deaths == s.deaths && s'.dismissed == s.dismissed
            && if KeyOf(k, instance, revision, |effects|)
               then k !in s.issued && k in s'.issued && k in s'.t.queue && s'.t.queue[k].effect == s'.issued[k]
               else SameFor(s, s', k)
  {
    EnqueuedAt(s.t.queue, instance, RevisionOf(s.t, instance) + 1, effects, now, k);
    IssuedAt(s.issued, instance, RevisionOf(s.t, instance) + 1, effects, k);
    hide Enqueued, Issued, TraceOk, FateOk;
  }

  lemma NewKey(s: State, s': State, k: Key)
    requires KeyOk(s, k) && RevisionOf(s.t, k.instance) < k.revision <= RevisionOf(s'.t, k.instance)
    requires k in s'.issued && k in s'.t.queue && s'.t.queue[k].effect == s'.issued[k]
    requires s'.t.incidents == s.t.incidents && s'.applied == s.applied && s'.deaths == s.deaths
    requires s'.dismissed == s.dismissed
    ensures k !in s.issued && k !in s.t.queue && KeyOk(s', k)
  {
    hide TraceOk;
  }

  /** The effects of an advance have keys that were never seen. */
  lemma AdvanceOk(s: State, instance: nat, effects: seq<Effect>, now: int)
    requires Inv(s)
    ensures Inv(Next(s, Advance(instance, effects, now))) && Extends(s, Next(s, Advance(instance, effects, now)))
  {
    hide Enqueued, Issued;
    var s' := Next(s, Advance(instance, effects, now));
    AdvanceGrows(s, instance, effects, now);
    hide KeyOk, Grows, EventOk;
    forall k
      ensures KeyOk(s', k) && (k in s.t.queue ==> k in s'.t.queue)
      ensures k in s.issued ==> k in s'.issued && s'.issued[k] == s.issued[k]
    {
      assert KeyOk(s, k);
      AdvanceKey(s, instance, effects, now, k);
    }
    forall w <- s'.claims ensures ClaimOk(s', w) { assert ClaimOk(s, w); }
    forall v <- s'.claims, w <- s'.claims | v != w ensures Apart(s', v, w) { assert Apart(s, v, w); }
    hide Inv, ClaimOk, Apart;
    Reassemble(s, s');
  }

  /** The host's own event lies in the band of the current revision. */
  lemma AuditOk(s: State, instance: nat, kind: string)
    requires Inv(s) && HasRoom(s.t, instance)
    ensures Inv(s.(t := Audited(s.t, instance, kind))) && Extends(s, s.(t := Audited(s.t, instance, kind)))
  {
    var s' := s.(t := Audited(s.t, instance, kind));
    var place := (instance, NextAudit(s.t, instance));
    FreePlace(s.t, instance);
    assert Grows(s.t, s'.t);
    forall k ensures KeyOk(s', k) {
      assert KeyOk(s, k);
      OtherKey(s, s', k);
    }
    forall w <- s'.claims ensures ClaimOk(s', w) { assert ClaimOk(s, w); }
    forall v <- s'.claims, w <- s'.claims | v != w ensures Apart(s', v, w) { assert Apart(s, v, w); }
    assert EventOk(s', place) by {
      var r := RevisionOf(s.t, instance);
      assert HistorySeq(r, AUDIT) <= place.1 < HistorySeq(r, SPAN);
    }
    hide KeyOk, Inv, ClaimOk, Apart, Grows, EventOk;
    Reassemble(s, s');
  }

  lemma FreePlace(t: Tables, instance: nat)
    requires HasRoom(t, instance)
    ensures (instance, NextAudit(t, instance)) !in t.history
    ensures HistorySeq(RevisionOf(t, instance), AUDIT) <= NextAudit(t, instance)
  {
  }

  /** The incidents, the queue and the hand-resolved change; the rest is as it was. */
  lemma LetterOk(s: State, m: State)
    requires Inv(s) && m == s.(t := s.t.(queue := m.t.queue, anchors := m.t.anchors, incidents := m.t.incidents),
                               dismissed := m.dismissed)
    requires forall a <- s.t.anchors :: a in m.t.anchors && Stays(s.t.anchors[a], m.t.anchors[a])
    requires forall i <- s.t.incidents :: i in m.t.incidents
    requires forall k <- s.t.queue :: k in m.t.queue
    requires forall k :: KeyOk(m, k)
    ensures Inv(m) && Extends(s, m)
  {
    assert Grows(s.t, m.t);
    hide KeyOk, EventOk;
    forall w <- m.claims ensures ClaimOk(m, w) { assert ClaimOk(s, w); }
    forall v <- m.claims, w <- m.claims | v != w ensures Apart(m, v, w) { assert Apart(s, v, w); }
    hide Inv, ClaimOk, Apart, Grows;
    Reassemble(s, m);
  }

  predicate IsLetter(s: State, i: IncidentKey) {
    i in s.t.incidents && i.DeadLetter? && s.t.incidents[i].effect.Some?
  }

  /** An incident after its retry, but for the event. */
  function Reopened(s: State, i: IncidentKey, now: int): State
    requires Enabled(s, Retry(i, now))
  {
    if IsLetter(s, i) then
      s.(t := s.t.(queue := Requeued(s.t.queue, i.key, s.t.incidents[i].effect.value, now),
                   incidents := IncidentWith(s.t, i, Retried)))
    else
      s.(t := s.t.(anchors := Rearmed(s.t, i.key.instance), incidents := IncidentWith(s.t, i, Retried)))
  }

  /** An incident after it was resolved, but for the event. */
  function Settled(s: State, i: IncidentKey): State
    requires Enabled(s, Resolve(i))
  {
    s.(t := s.t.(incidents := IncidentWith(s.t, i, Resolved)),
       dismissed := if i.DeadLetter? && s.t.incidents[i].state.Open? then s.dismissed + {i.key} else s.dismissed)
  }

  lemma ReopenedGrows(s: State, i: IncidentKey, now: int)
    requires Enabled(s, Retry(i, now))
    ensures Grows(s.t, Reopened(s, i, now).t)
  {
    hide NextAudit, HasRoom;
  }

  lemma ReopenedKey(s: State, i: IncidentKey, now: int, j: Key)
    requires Enabled(s, Retry(i, now)) && KeyOk(s, j)
    ensures KeyOk(Reopened(s, i, now), j)
  {
    hide NextAudit, TraceOk, Rearmed;
    var m := Reopened(s, i, now);
    ReopenedGrows(s, i, now);
    hide Grows, HasRoom;
    if i != DeadLetter(j) {
      OtherKey(s, m, j);
    } else if s.applied[j] == 1 {
      TraceStays(s, m, j);
    }
  }

  lemma SettledKey(s: State, i: IncidentKey, j: Key)
    requires Enabled(s, Resolve(i)) && KeyOk(s, j)
    ensures KeyOk(Settled(s, i), j)
  {
    hide NextAudit, TraceOk;
    var m := Settled(s, i);
    assert Grows(s.t, m.t);
    hide Grows;
    if i != DeadLetter(j) {
      OtherKey(s, m, j);
    } else if s.applied[j] == 1 {
      TraceStays(s, m, j);
    }
  }

  lemma RetryOk(s: State, i: IncidentKey, now: int)
    requires Inv(s) && Enabled(s, Retry(i, now))
    ensures Inv(Next(s, Retry(i, now))) && Extends(s, Next(s, Retry(i, now)))
  {
    var m := Reopened(s, i, now);
    SameRoom(s.t, m.t, i.key.instance);
    assert Next(s, Retry(i, now)) == m.(t := Audited(m.t, i.key.instance, "incidentRetried"));
    forall j ensures KeyOk(m, j) { ReopenedKey(s, i, now, j); }
    hide KeyOk, HasRoom, Audited, Next;
    LetterOk(s, m);
    hide Inv, Extends;
    AuditOk(m, i.key.instance, "incidentRetried");
    ExtendsChain(s, m, Next(s, Retry(i, now)));
  }

  lemma ResolveOk(s: State, i: IncidentKey)
    requires Inv(s) && Enabled(s, Resolve(i))
    ensures Inv(Next(s, Resolve(i))) && Extends(s, Next(s, Resolve(i)))
  {
    var m := Settled(s, i);
    SameRoom(s.t, m.t, i.key.instance);
    assert Next(s, Resolve(i)) == m.(t := Audited(m.t, i.key.instance, "incidentResolved"));
    forall j ensures KeyOk(m, j) { SettledKey(s, i, j); }
    hide KeyOk, HasRoom, Audited, Next;
    LetterOk(s, m);
    hide Inv, Extends;
    AuditOk(m, i.key.instance, "incidentResolved");
    ExtendsChain(s, m, Next(s, Resolve(i)));
  }

  lemma WorkOk(s: State, a: Anchor, status: Status)
    requires Inv(s) && a in s.t.anchors && CanBecome(s.t.anchors[a].status, status)
    ensures Inv(Next(s, Work(a, status))) && Extends(s, Next(s, Work(a, status)))
  {
    hide EventOk;
    var s' := Next(s, Work(a, status));
    assert Grows(s.t, s'.t);
    forall k ensures KeyOk(s', k) {
      assert KeyOk(s, k);
      OtherKey(s, s', k);
    }
    forall w <- s'.claims ensures ClaimOk(s', w) { assert ClaimOk(s, w); }
    forall v <- s'.claims, w <- s'.claims | v != w ensures Apart(s', v, w) { assert Apart(s, v, w); }
    hide KeyOk, Inv, ClaimOk, Apart, Grows;
    Reassemble(s, s');
  }

  /** A note changes the history in its own place at most, and records a pin. */
  lemma NotedIs(t: Tables, instance: nat, note: Note)
    requires Noted(t, instance, note).Some?
    ensures var t', place := Noted(t, instance, note).value, (instance, NumberIn(note));
            && t' == t.(pins := t'.pins, history := t'.history)
            && (t'.history == t.history
                || (place !in t.history && t'.history == t.history[place := Event(OfHost(note), "")]))
  {
    hide HasNote;
  }

  lemma NoteOk(s: State, instance: nat, note: Note)
    requires Inv(s) && RevisionIn(note) <= RevisionOf(s.t, instance) && Noted(s.t, instance, note).Some?
    ensures var s' := s.(t := Noted(s.t, instance, note).value); Inv(s') && Extends(s, s')
  {
    var s' := s.(t := Noted(s.t, instance, note).value);
    NotedIs(s.t, instance, note);
    hide Noted;
    assert Grows(s.t, s'.t);
    hide EventOk, Grows;
    forall k ensures KeyOk(s', k) { NoteKey(s, s', k); }
    hide KeyOk;
    forall w <- s'.claims ensures ClaimOk(s', w) { assert ClaimOk(s, w); }
    forall v <- s'.claims, w <- s'.claims | v != w ensures Apart(s', v, w) { assert Apart(s, v, w); }
    forall p <- s'.t.history | p !in s.t.history ensures EventOk(s', p) { NewNoteOk(s', instance, note, p); }
    hide Inv, ClaimOk, Apart;
    Reassemble(s, s');
  }

  lemma NoteKey(s: State, s': State, k: Key)
    requires Inv(s) && Grows(s.t, s'.t) && s' == s.(t := s.t.(pins := s'.t.pins, history := s'.t.history))
    ensures KeyOk(s', k)
  {
    assert KeyOk(s, k);
    hide Inv, KeyOk, Grows;
    OtherKey(s, s', k);
  }

  lemma NewNoteOk(s: State, instance: nat, note: Note, p: (nat, nat))
    requires p == (instance, NumberIn(note)) && p in s.t.history && s.t.history[p].source == OfHost(note)
    requires RevisionIn(note) <= RevisionOf(s.t, instance)
    ensures EventOk(s, p)
  {
  }

  lemma {:induction false} WriteOk(s: State, instance: nat, notes: seq<Note>)
    requires Inv(s) && Enabled(s, Write(instance, notes))
    ensures Inv(Next(s, Write(instance, notes))) && Extends(s, Next(s, Write(instance, notes)))
    ensures Next(s, Write(instance, notes)).t.revisions == s.t.revisions
    decreases |notes|
  {
    hide Inv, Extends, Noted;
    if notes == [] {
      ExtendsItself(s);
    } else {
      var front, note := notes[..|notes| - 1], notes[|notes| - 1];
      WriteOk(s, instance, front);
      var m := Next(s, Write(instance, front));
      NotedIs(m.t, instance, note);
      assert note in notes;
      NoteOk(m, instance, note);
      ExtendsChain(s, m, Next(s, Write(instance, notes)));
    }
  }

  /** Every step keeps the invariant and takes nothing back. */
  lemma StepOk(s: State, step: Step)
    requires Inv(s) && Enabled(s, step)
    ensures Inv(Next(s, step)) && Extends(s, Next(s, step))
  {
    hide Inv, Extends;
    match step
    case Advance(instance, effects, now) => AdvanceOk(s, instance, effects, now);
    case Claim(w, keys, now) => ClaimStepOk(s, w, keys, now);
    case Commit(w, broken, now, maxAttempts) => CommitOk(s, w, broken, now, maxAttempts);
    case Crash(w) => ReleaseOk(s, w);
    case Retry(i, now) => RetryOk(s, i, now);
    case Resolve(i) => ResolveOk(s, i);
    case Work(a, status) => WorkOk(s, a, status);
    case Audit(instance, kind) => AuditOk(s, instance, kind);
    case Write(instance, notes) => WriteOk(s, instance, notes);
  }

  // ------------------------------------------------------------ every run

  const EMPTY := State(Tables(map[], map[], {}, map[], map[], map[]), map[], map[], multiset{}, multiset{}, {})

  ghost predicate IsPath(states: seq<State>, steps: seq<Step>) {
    && |states| == |steps| + 1
    && forall i :: 0 <= i < |steps| ==> Enabled(states[i], steps[i]) && states[i + 1] == Next(states[i], steps[i])
  }

  ghost predicate IsRun(states: seq<State>, steps: seq<Step>) { IsPath(states, steps) && states[0] == EMPTY }

  lemma {:induction false} RunOk(states: seq<State>, steps: seq<Step>, n: nat)
    requires IsRun(states, steps) && n < |states|
    ensures Inv(states[n])
  {
    if n == 0 {
      assert forall k :: KeyOk(EMPTY, k);
    } else {
      hide Inv;
      RunOk(states, steps, n - 1);
      StepOk(states[n - 1], steps[n - 1]);
    }
  }

  lemma {:induction false} RunExtends(states: seq<State>, steps: seq<Step>, m: nat, n: nat)
    requires IsRun(states, steps) && m <= n < |states|
    ensures Extends(states[m], states[n])
  {
    hide Inv, Extends, Enabled, Next;
    if m == n {
      ExtendsItself(states[m]);
    } else {
      RunOk(states, steps, n - 1);
      StepOk(states[n - 1], steps[n - 1]);
      RunExtends(states, steps, m, n - 1);
      ExtendsChain(states[m], states[n - 1], states[n]);
    }
  }

  /** Main result: however dispatchers interleave, crash and try again, and however often
      incidents are retried, no effect is applied twice; one that was applied has left its
      trace, and never waits again. */
  lemma AppliedOnce(states: seq<State>, steps: seq<Step>, m: nat, n: nat, k: Key)
    requires IsRun(states, steps) && m <= n < |states|
    ensures states[n].applied[k] <= 1
    ensures states[m].applied[k] == 1 ==>
              states[n].applied[k] == 1 && k !in states[n].t.queue && k in states[n].issued && TraceOk(states[n], k)
  {
    RunOk(states, steps, n);
    RunExtends(states, steps, m, n);
    assert KeyOk(states[n], k);
  }

  /** The effect waits, was applied, or is somebody's business: its incident is open, or was
      resolved instead of retried. */
  predicate Accounted(s: State, k: Key) {
    k in s.t.queue || s.applied[k] == 1 || IsOpen(s, k) || k in s.dismissed
  }

  /** Main result, the exact condition of the promise that an effect is applied or becomes an
      incident: it holds of an issued effect if and only if it was not given up twice; and
      then just one of the four is the case. */
  lemma AccountedIff(states: seq<State>, steps: seq<Step>, n: nat, k: Key)
    requires IsRun(states, steps) && n < |states| && k in states[n].issued
    ensures var s := states[n];
            && (Accounted(s, k) <==> s.deaths[k] < 2)
            && (k in s.t.queue ==> s.applied[k] == 0 && !IsOpen(s, k) && k !in s.dismissed)
            && (s.applied[k] == 1 ==> !IsOpen(s, k) && k !in s.dismissed)
            && (IsOpen(s, k) ==> k !in s.dismissed)
  {
    RunOk(states, steps, n);
    assert KeyOk(states[n], k);
  }

  /** What is lost stays lost. */
  lemma LostForGood(states: seq<State>, steps: seq<Step>, m: nat, n: nat, k: Key)
    requires IsRun(states, steps) && m <= n < |states| && k in states[m].issued && !Accounted(states[m], k)
    ensures k in states[n].issued && !Accounted(states[n], k)
  {
    RunExtends(states, steps, m, n);
    AccountedIff(states, steps, m, k);
    AccountedIff(states, steps, n, k);
  }

  /** When a row is given up, the effect is lost exactly if it had an incident already: the
      incident that should be written is not, for its key is taken. */
  lemma GivenUpLostIff(s: State, k: Key, breaks: bool, now: int, maxAttempts: int)
    requires Inv(s) && k in s.t.queue && VerdictOf(s.t, k, breaks, maxAttempts).DeadLettered?
    ensures !Accounted(Turn(s, k, breaks, now, maxAttempts), k) <==> DeadLetter(k) in s.t.incidents
  {
    assert KeyOk(s, k);
    hide Applied;
  }

  /** Main result: a number, once given, is kept, and it is the number of the effect or the
      note. */
  lemma NumberKept(states: seq<State>, steps: seq<Step>, m: nat, n: nat, p: (nat, nat))
    requires IsRun(states, steps) && m <= n < |states| && p in states[m].t.history
    ensures p in states[n].t.history && states[n].t.history[p] == states[m].t.history[p]
    ensures match states[n].t.history[p].source
            case OfEffect(k) => p == (k.instance, SeqOf(k)) && states[n].applied[k] == 1
            case OfAudit => true
            case OfHost(note) => p.1 == NumberIn(note)
  {
    RunOk(states, steps, n);
    RunExtends(states, steps, m, n);
    assert EventOk(states[n], p);
  }

  /** The numbers of effects are ordered as the advances were, and within one as its effects. */
  lemma SeqOrder(r: nat, i: nat, r': nat, i': nat)
    requires i < SPAN && i' < SPAN
    ensures HistorySeq(r, i) < HistorySeq(r', i') <==> r < r' || (r == r' && i < i')
    ensures HistorySeq(r, i) == HistorySeq(r', i') <==> r == r' && i == i'
  {
  }

  /** Every number lies in the revision it was taken for: no advance and no trail is so long
      that its numbers run into the next one's. */
  ghost predicate WithinSpan(s: State) {
    && (forall k <- s.issued :: k.index < SPAN)
    && (forall p <- s.t.history :: s.t.history[p].source.OfHost? ==> IndexIn(s.t.history[p].source.note) < SPAN)
  }

  /** Main result: the database refuses a waiting effect only because the host has taken its
      number, with an event of the same revision and from index 50000 on; never because of
      another effect. */
  lemma RefusedByHost(states: seq<State>, steps: seq<Step>, n: nat, k: Key)
    requires IsRun(states, steps) && n < |states| && k in states[n].t.queue && WithinSpan(states[n])
    requires Applied(states[n].t, k, states[n].t.queue[k].effect).None?
    ensures (k.instance, SeqOf(k)) in states[n].t.history
    ensures match states[n].t.history[(k.instance, SeqOf(k))].source
            case OfEffect(_) => false
            case OfAudit => AUDIT <= k.index
            case OfHost(note) => RevisionIn(note) == k.revision && IndexIn(note) == k.index && HOST <= k.index
  {
    RunOk(states, steps, n);
    var s := states[n];
    NoEventYet(s, k);
    assert KeyOk(s, k);
    var place := (k.instance, SeqOf(k));
    assert EventOk(s, place);
    hide Inv, KeyOk, HasEvent;
    match s.t.history[place].source
    case OfEffect(j) => SeqOrder(j.revision, j.index, k.revision, k.index);
    case OfAudit =>
      var r: nat :| r <= RevisionOf(s.t, place.0) && HistorySeq(r, AUDIT) <= place.1 < HistorySeq(r, SPAN);
      SeqOrder(k.revision, k.index, r, AUDIT);
    case OfHost(note) => SeqOrder(k.revision, k.index, RevisionIn(note), IndexIn(note));
  }

  /** So while no advance has more than 50000 effects the database refuses none of them, and one
      fails only for its own data. */
  lemma NoneRefused(states: seq<State>, steps: seq<Step>, n: nat, k: Key)
    requires IsRun(states, steps) && n < |states| && k in states[n].t.queue && WithinSpan(states[n])
    requires forall j <- states[n].issued :: j.index < HOST
    ensures Applied(states[n].t, k, states[n].t.queue[k].effect).Some?
  {
    RunOk(states, steps, n);
    NoEventYet(states[n], k);
    hide Inv;
    if Applied(states[n].t, k, states[n].t.queue[k].effect).None? {
      RefusedByHost(states, steps, n, k);
    }
  }

  /** The bound is needed: the host's audit can take the number of a later effect, which the
      database then refuses. */
  lemma BandTaken(s: State, k: Key, kind: string)
    requires Inv(s) && k in s.t.queue && s.t.queue[k].effect.EmitHistory?
    requires HasRoom(s.t, k.instance) && SeqOf(k) == NextAudit(s.t, k.instance)
    ensures Applied(Next(s, Audit(k.instance, kind)).t, k, s.t.queue[k].effect).None?
  {
    NoEventYet(s, k);
    FreePlace(s.t, k.instance);
  }

  /** And so can a fact of an agent's trail take the number of any effect from index 50000 on. */
  lemma FactTakes(s: State, k: Key, element: string)
    requires Inv(s) && k in s.t.queue && s.t.queue[k].effect.EmitHistory? && HOST <= k.index
    requires (k.instance, SeqOf(k)) !in s.t.history
    requires !HasNote(s.t, k.instance, Fact(element, k.index - HOST, k.revision))
    ensures var write := Write(k.instance, [Fact(element, k.index - HOST, k.revision)]);
            Enabled(s, write) && Applied(Next(s, write).t, k, s.t.queue[k].effect).None?
  {
    NoEventYet(s, k);
    assert KeyOk(s, k);
    hide Inv, KeyOk;
    var note := Fact(element, k.index - HOST, k.revision);
    assert [note][..0] == [] && NotedAll(s.t, k.instance, []) == Some(s.t);
    assert NotedAll(s.t, k.instance, [note]) == Noted(s.t, k.instance, note);
    var t' := Noted(s.t, k.instance, note).value;
    assert forall p <- t'.history.Keys :: t'.history[p].source == OfEffect(k) ==> p in s.t.history.Keys;
  }
}
