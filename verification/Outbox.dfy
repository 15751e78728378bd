/** The outbox: effects that an advance leaves behind, and the dispatchers that apply them.

    A row is applied and deleted in one transaction; a row that fails is tried again later,
    and becomes an incident when its attempts are used up. A retry of that incident puts it
    back into the queue. */
module Outbox {
  import opened Options

  /** An effect's key, a hash of what it is made of; equal hashes mean equal parts. */
  datatype Key = Key(instance: nat, revision: nat, index: nat)

  /** What instances wait for, by a key that is unique in its table. */
  datatype Kind = Job | Timer | UserTask

  datatype Anchor = Anchor(kind: Kind, waitKey: string)

  /** Only a live wait is cancelled; a paused one can become live again. */
  datatype Status = Live | Paused | Done | Broken | Cancelled

  datatype Waiting = Waiting(instance: nat, status: Status)

  /** An agent's job is created only if the element it runs for was pinned. */
  datatype Effect =
    | Create(anchor: Anchor)
    | CreateAgent(anchor: Anchor, element: Option<string>)
    | Cancel(anchor: Anchor)
    | EmitHistory(kind: string)
    | RaiseIncident(kind: string)
    | CompleteInstance

  datatype Row = Row(effect: Effect, attempts: nat, due: int)

  /** What the host writes into the history besides the audit: the facts of an agent's trail,
      the seal of an effect behind a gate, a new proposal at a gate, the resumption of paused
      jobs, and the pins resolved at the start. */
  datatype Note =
    | Fact(element: string, step: nat, revision: nat)
    | Seal(gate: string, revision: nat)
    | Reproposal(element: string, count: nat, revision: nat)
    | Resumption(n: nat)
    | Pin(element: string, index: nat)

  /** A history event comes of an effect, or is the host's own. */
  datatype Source = OfEffect(key: Key) | OfAudit | OfHost(note: Note)

  datatype Event = Event(source: Source, kind: string)

  datatype IncidentKey = Raised(key: Key) | DeadLetter(key: Key)

  datatype IncidentState = Open | Retried | Resolved

  /** The effect is kept with a dead letter. */
  datatype Incident = Incident(kind: string, state: IncidentState, effect: Option<Effect>)

  /** The tables by their unique keys; a history event's is its instance and number. */
  datatype Tables = Tables(
    queue: map<Key, Row>, anchors: map<Anchor, Waiting>, pins: set<(nat, string)>, history: map<(nat, nat), Event>,
    incidents: map<IncidentKey, Incident>, revisions: map<nat, nat>)

  // ------------------------------------------------------------ numbers of history events

  const SPAN: nat := 100000
  const HOST: nat := 50000
  const SEAL: nat := 55000
  const RESUME: nat := 60000
  const REPROPOSE: nat := 61000
  const AUDIT: nat := 90000

  /** The number of the event that an effect emits. */
  function HistorySeq(revision: nat, index: nat): nat { revision * SPAN + index }

  function SeqOf(k: Key): nat { HistorySeq(k.revision, k.index) }

  function RevisionOf(t: Tables, instance: nat): nat {
    if instance in t.revisions then t.revisions[instance] else 0
  }

  /** One more than the greatest number below `hi` that the instance has used from `lo` on. */
  function AfterLast(history: map<(nat, nat), Event>, instance: nat, lo: nat, hi: nat): (n: nat)
    requires lo <= hi
    ensures lo <= n <= hi
    ensures forall m :: n <= m < hi ==> (instance, m) !in history
  {
    if hi == lo || (instance, hi - 1) in history then hi else AfterLast(history, instance, lo, hi - 1)
  }

  /** The next number in the band that a revision keeps for the host's events. */
  function NextAudit(t: Tables, instance: nat): nat {
    var base := HistorySeq(RevisionOf(t, instance), AUDIT);
    AfterLast(t.history, instance, base, base + (SPAN - AUDIT))
  }

  /** The band is not used up. */
  predicate HasRoom(t: Tables, instance: nat) { NextAudit(t, instance) < HistorySeq(RevisionOf(t, instance), SPAN) }

  function Audited(t: Tables, instance: nat, kind: string): Tables {
    t.(history := t.history[(instance, NextAudit(t, instance)) := Event(OfAudit, kind)])
  }

  // ------------------------------------------------------------ the host's notes

  function RevisionIn(note: Note): nat {
    match note
    case Fact(_, _, r) => r
    case Seal(_, r) => r
    case Reproposal(_, _, r) => r
    case Resumption(_) => 0
    case Pin(_, _) => 0
  }

  function IndexIn(note: Note): nat {
    match note
    case Fact(_, step, _) => HOST + step
    case Seal(_, _) => SEAL
    case Reproposal(_, count, _) => REPROPOSE + count
    case Resumption(n) => RESUME + n
    case Pin(_, index) => index
  }

  function NumberIn(note: Note): nat { HistorySeq(RevisionIn(note), IndexIn(note)) }

  /** The two have one key, so that the second is not written. A key has no revision in it. */
  predicate SameKey(a: Note, b: Note) {
    match (a, b)
    case (Fact(x, i, _), Fact(y, j, _)) => x == y && i == j
    case (Seal(x, _), Seal(y, _)) => x == y
    case (Reproposal(x, i, _), Reproposal(y, j, _)) => x == y && i == j
    case (Resumption(i), Resumption(j)) => i == j
    case (Pin(x, _), Pin(y, _)) => x == y
    case _ => false
  }

  predicate NoteAt(t: Tables, instance: nat, p: (nat, nat), note: Note) {
    p in t.history && p.0 == instance && t.history[p].source.OfHost? && SameKey(t.history[p].source.note, note)
  }

  predicate HasNote(t: Tables, instance: nat, note: Note) {
    exists p <- t.history.Keys :: NoteAt(t, instance, p, note)
  }

  /** A note leaves an earlier one with its key alone; the database refuses it where another
      event has its number. A pin is recorded with its note. */
  function Noted(t: Tables, instance: nat, note: Note): Option<Tables> {
    var u := if note.Pin? then t.(pins := t.pins + {(instance, note.element)}) else t;
    if HasNote(t, instance, note) then Some(u)
    else if (instance, NumberIn(note)) in t.history then None
    else Some(u.(history := t.history[(instance, NumberIn(note)) := Event(OfHost(note), "")]))
  }

  /** The notes of one transaction: all of them, or none. */
  function NotedAll(t: Tables, instance: nat, notes: seq<Note>): Option<Tables> {
    if notes == [] then Some(t)
    else
      var m := NotedAll(t, instance, notes[..|notes| - 1]);
      if m.None? then None else Noted(m.value, instance, notes[|notes| - 1])
  }

  /** An agent's trail: its facts, step by step. */
  function Trail(element: string, revision: nat, n: nat): (notes: seq<Note>)
    ensures |notes| == n && forall i :: 0 <= i < n ==> notes[i] == Fact(element, i, revision)
  {
    seq(n, i requires 0 <= i < n => Fact(element, i, revision))
  }

  // ------------------------------------------------------------ one effect

  predicate HasEvent(t: Tables, k: Key) { exists p <- t.history.Keys :: t.history[p].source == OfEffect(k) }

  /** A row under a wait key, unless there is one. */
  function Created(anchors: map<Anchor, Waiting>, instance: nat, a: Anchor): map<Anchor, Waiting> {
    if a in anchors then anchors else anchors[a := Waiting(instance, Live)]
  }

  function RaisedOnce(incidents: map<IncidentKey, Incident>, k: Key, kind: string): map<IncidentKey, Incident> {
    if Raised(k) in incidents then incidents else incidents[Raised(k) := Incident(kind, Open, None)]
  }

  /** What applying an effect writes; none where the database refuses it, because another
      event of the instance has the number. */
  function Applied(t: Tables, k: Key, effect: Effect): Option<Tables> {
    match effect
    case Create(a) => Some(t.(anchors := Created(t.anchors, k.instance, a)))
    case CreateAgent(a, element) =>
      Some(if element.Some? && (k.instance, element.value) in t.pins
           then t.(anchors := Created(t.anchors, k.instance, a))
           else t.(incidents := RaisedOnce(t.incidents, k, "agentPinMissing")))
    case Cancel(a) =>
      Some(if a in t.anchors && t.anchors[a].status.Live?
           then t.(anchors := t.anchors[a := t.anchors[a].(status := Cancelled)]) else t)
    case EmitHistory(kind) =>
      var place := (k.instance, SeqOf(k));
      if HasEvent(t, k) then Some(t)
      else if place in t.history then None
      else Some(t.(history := t.history[place := Event(OfEffect(k), kind)]))
    case RaiseIncident(kind) => Some(t.(incidents := RaisedOnce(t.incidents, k, kind)))
    case CompleteInstance => Some(t)
  }

  lemma AppliedLeavesQueue(t: Tables, k: Key, effect: Effect)
    ensures Applied(t, k, effect).Some? ==> Applied(t, k, effect).value.queue == t.queue
  {
  }

  datatype Verdict = Processed | Failed | DeadLettered

  function Power2(n: nat): nat { if n == 0 then 1 else 2 * Power2(n - 1) }

  function BackoffSeconds(attempts: nat): nat { if Power2(attempts) < 60 then Power2(attempts) else 60 }

  /** Data that can be defective: the completion of an instance writes none. */
  predicate CanBreak(effect: Effect) { !effect.CompleteInstance? }

  /** What becomes of a row; `breaks` is whether the data of its effect is defective. */
  function VerdictOf(t: Tables, k: Key, breaks: bool, maxAttempts: int): Verdict
    requires k in t.queue
  {
    if !(breaks && CanBreak(t.queue[k].effect)) && Applied(t, k, t.queue[k].effect).Some? then Processed
    else if t.queue[k].attempts + 1 >= maxAttempts then DeadLettered
    else Failed
  }

  function Dispatched(t: Tables, k: Key, breaks: bool, now: int, maxAttempts: int): Tables
    requires k in t.queue
  {
    var row := t.queue[k];
    match VerdictOf(t, k, breaks, maxAttempts)
    case Processed =>
      var done := Applied(t, k, row.effect).value;
      done.(queue := done.queue - {k})
    case DeadLettered =>
      t.(queue := t.queue - {k},
         incidents := if DeadLetter(k) in t.incidents then t.incidents
                      else t.incidents[DeadLetter(k) := Incident("effectDispatchFailed", Open, Some(row.effect))])
    case Failed =>
      t.(queue := t.queue[k := Row(row.effect, row.attempts + 1, now + BackoffSeconds(row.attempts + 1))])
  }

  /** An effect joins the queue, unless its key is there. */
  function Requeued(queue: map<Key, Row>, k: Key, effect: Effect, now: int): map<Key, Row> {
    if k in queue then queue else queue[k := Row(effect, 0, now)]
  }

  /** The effects of an advance join the queue one by one. */
  function Enqueued(queue: map<Key, Row>, instance: nat, revision: nat, effects: seq<Effect>, now: int): map<Key, Row> {
    if effects == [] then queue
    else
      var n := |effects| - 1;
      Requeued(Enqueued(queue, instance, revision, effects[..n], now), Key(instance, revision, n), effects[n], now)
  }

  /** The keys of the first `n` effects of an advance. */
  predicate KeyOf(k: Key, instance: nat, revision: nat, n: nat) {
    k.instance == instance && k.revision == revision && k.index < n
  }

  /** What waited before waits as it did, and of the effects those whose keys are new. */
  lemma {:induction false} EnqueuedAt(queue: map<Key, Row>, instance: nat, revision: nat, effects: seq<Effect>,
                                      now: int, k: Key)
    ensures var q := Enqueued(queue, instance, revision, effects, now);
            && (k in q <==> k in queue || KeyOf(k, instance, revision, |effects|))
            && (k in q ==> q[k] == if k in queue then queue[k] else Row(effects[k.index], 0, now))
  {
    if effects != [] {
      EnqueuedAt(queue, instance, revision, effects[..|effects| - 1], now, k);
    }
  }

  function IncidentWith(t: Tables, i: IncidentKey, state: IncidentState): map<IncidentKey, Incident>
    requires i in t.incidents
  {
    t.incidents[i := t.incidents[i].(state := state)]
  }

  /** The failed jobs of an instance. */
  function BrokenJobs(t: Tables, instance: nat): set<Anchor> {
    set a <- t.anchors.Keys | a.kind.Job? && t.anchors[a] == Waiting(instance, Broken)
  }

  /** They are free to be run again. */
  function Rearmed(t: Tables, instance: nat): map<Anchor, Waiting> {
    map a <- t.anchors.Keys :: if a in BrokenJobs(t, instance) then Waiting(instance, Live) else t.anchors[a]
  }

  /** An incident is retried: a dead letter goes back into the queue, any other sets failed jobs
      free. None where it is not open, no job has failed, or there is no room for the event. */
  function Retrying(t: Tables, i: IncidentKey, now: int): Option<Tables> {
    if i !in t.incidents || !t.incidents[i].state.Open? || !HasRoom(t, i.key.instance) then None
    else if i.DeadLetter? && t.incidents[i].effect.Some? then
      var m := t.(queue := Requeued(t.queue, i.key, t.incidents[i].effect.value, now),
                  incidents := IncidentWith(t, i, Retried));
      Some(Audited(m, i.key.instance, "incidentRetried"))
    else if BrokenJobs(t, i.key.instance) == {} then None
    else
      var m := t.(anchors := Rearmed(t, i.key.instance), incidents := IncidentWith(t, i, Retried));
      Some(Audited(m, i.key.instance, "incidentRetried"))
  }

  /** An incident is resolved by hand, once. */
  function Resolving(t: Tables, i: IncidentKey): Option<Tables> {
    if i !in t.incidents || t.incidents[i].state.Resolved? || !HasRoom(t, i.key.instance) then None
    else Some(Audited(t.(incidents := IncidentWith(t, i, Resolved)), i.key.instance, "incidentResolved"))
  }

  // ------------------------------------------------------------ a batch

  predicate Distinct(keys: seq<Key>) { forall i, j :: 0 <= i < j < |keys| ==> keys[i] != keys[j] }

  /** What a pass of a dispatcher reports, with the tables it leaves. */
  datatype Pass = Pass(t: Tables, processed: nat, failed: nat, deadLettered: nat)

  function Counted(p: Pass, t: Tables, verdict: Verdict): Pass {
    match verdict
    case Processed => Pass(t, p.processed + 1, p.failed, p.deadLettered)
    case Failed => Pass(t, p.processed, p.failed + 1, p.deadLettered)
    case DeadLettered => Pass(t, p.processed, p.failed, p.deadLettered + 1)
  }

  /** The rows of a batch, in order. */
  function Batch(t: Tables, keys: seq<Key>, broken: set<Key>, now: int, maxAttempts: int): Pass {
    if keys == [] then Pass(t, 0, 0, 0)
    else
      var p, k := Batch(t, keys[..|keys| - 1], broken, now, maxAttempts), keys[|keys| - 1];
      if k !in p.t.queue then p
      else Counted(p, Dispatched(p.t, k, k in broken, now, maxAttempts), VerdictOf(p.t, k, k in broken, maxAttempts))
  }

  lemma DispatchedLeaves(t: Tables, k: Key, breaks: bool, now: int, maxAttempts: int)
    requires k in t.queue
    ensures var t' := Dispatched(t, k, breaks, now, maxAttempts);
            forall j :: j != k ==> (j in t'.queue <==> j in t.queue)
  {
  }

  /** Every row of a batch has its turn, and the others keep their place. */
  lemma {:induction false} BatchLeaves(t: Tables, keys: seq<Key>, broken: set<Key>, now: int, maxAttempts: int)
    requires Distinct(keys) && forall k <- keys :: k in t.queue
    ensures var p := Batch(t, keys, broken, now, maxAttempts);
            && p.processed + p.failed + p.deadLettered == |keys|
            && forall j :: j !in keys ==> (j in p.t.queue <==> j in t.queue)
  {
    hide Dispatched, VerdictOf;
    if keys != [] {
      var front, k := keys[..|keys| - 1], keys[|keys| - 1];
      BatchLeaves(t, front, broken, now, maxAttempts);
      assert k !in front;
      DispatchedLeaves(Batch(t, front, broken, now, maxAttempts).t, k, k in broken, now, maxAttempts);
    }
  }

  // ------------------------------------------------------------ the code

  lemma NextRow(t: Tables, keys: seq<Key>, broken: set<Key>, now: int, maxAttempts: int, n: nat)
    requires Distinct(keys) && n < |keys| && forall k <- keys :: k in t.queue
    ensures var p, k := Batch(t, keys[..n], broken, now, maxAttempts), keys[n];
            && k in p.t.queue
            && Batch(t, keys[..n + 1], broken, now, maxAttempts) ==
               Counted(p, Dispatched(p.t, k, k in broken, now, maxAttempts),
                       VerdictOf(p.t, k, k in broken, maxAttempts))
  {
    hide Dispatched, VerdictOf;
    var front, grown := keys[..n], keys[..n + 1];
    assert grown != [] && grown[..n] == front && grown[n] == keys[n];
    assert Distinct(front) && keys[n] !in front;
    hide Distinct;
    BatchLeaves(t, front, broken, now, maxAttempts);
  }

  /** The room for the host's events depends on the history and the revision only. */
  lemma SameRoom(t: Tables, t': Tables, instance: nat)
    requires t'.history == t.history && t'.revisions == t.revisions
    ensures NextAudit(t', instance) == NextAudit(t, instance)
    ensures HasRoom(t', instance) <==> HasRoom(t, instance)
  {
  }

  lemma OneMoreNote(t: Tables, instance: nat, notes: seq<Note>, i: nat)
    requires i < |notes| && NotedAll(t, instance, notes[..i]).Some?
    ensures NotedAll(t, instance, notes[..i + 1]) == Noted(NotedAll(t, instance, notes[..i]).value, instance, notes[i])
  {
    assert notes[..i + 1][..i] == notes[..i];
    hide Noted;
  }

  /** A transaction that is refused at one note is refused. */
  lemma {:induction false} RefusedStays(t: Tables, instance: nat, notes: seq<Note>, i: nat)
    requires i <= |notes| && NotedAll(t, instance, notes[..i]).None?
    ensures NotedAll(t, instance, notes).None?
    decreases |notes|
  {
    hide Noted;
    if i == |notes| {
      assert notes[..i] == notes;
    } else {
      var front := notes[..|notes| - 1];
      assert front[..i] == notes[..i];
      RefusedStays(t, instance, front, i);
    }
  }

  class Database {
    var queue: map<Key, Row>
    var anchors: map<Anchor, Waiting>
    var pins: set<(nat, string)>
    var history: map<(nat, nat), Event>
    var incidents: map<IncidentKey, Incident>
    var revisions: map<nat, nat>

    function Now(): Tables
      reads this
    {
      Tables(queue, anchors, pins, history, incidents, revisions)
    }

    /** The effects of an advance, one after another. */
    method InsertEffects(instance: nat, revision: nat, effects: seq<Effect>, now: int)
      modifies this
      ensures Now() == old(Now()).(queue := Enqueued(old(queue), instance, revision, effects, now))
    {
      var position := 0;
      while position < |effects|
        invariant position <= |effects|
        invariant Now() == old(Now()).(queue := queue)
        invariant queue == Enqueued(old(queue), instance, revision, effects[..position], now)
      {
        var k := Key(instance, revision, position);
        assert effects[..position + 1][..position] == effects[..position];
        Insert(k, effects[position], now);
        position := position + 1;
      }
      assert effects[..|effects|] == effects;
    }

    /** What a retried effect and an advance's have in common: a key that waits is left alone. */
    method Insert(k: Key, effect: Effect, now: int)
      modifies this
      ensures Now() == old(Now()).(queue := Requeued(old(queue), k, effect, now))
    {
      if k !in queue {
        queue := queue[k := Row(effect, 0, now)];
      }
    }

    method Raise(k: Key, kind: string)
      modifies this
      ensures Now() == old(Now()).(incidents := RaisedOnce(old(incidents), k, kind))
    {
      if Raised(k) !in incidents {
        incidents := incidents[Raised(k) := Incident(kind, Open, None)];
      }
    }

    /** One effect; refused, it changes nothing. */
    method ApplyEffect(k: Key, effect: Effect) returns (ok: bool)
      modifies this
      ensures ok <==> Applied(old(Now()), k, effect).Some?
      ensures Now() == if ok then Applied(old(Now()), k, effect).value else old(Now())
      ensures effect.Create? && effect.anchor !in old(anchors) ==>
                anchors == old(anchors)[effect.anchor := Waiting(k.instance, Live)]
      ensures effect.Cancel? && effect.anchor in old(anchors) && old(anchors)[effect.anchor].status == Live ==>
                anchors == old(anchors)[effect.anchor := Waiting(old(anchors)[effect.anchor].instance, Cancelled)]
    {
      match effect {
        case Create(a) =>
          if a !in anchors {
            anchors := anchors[a := Waiting(k.instance, Live)];
          }
        case CreateAgent(a, element) =>
          if element.None? || (k.instance, element.value) !in pins {
            Raise(k, "agentPinMissing");
          } else if a !in anchors {
            anchors := anchors[a := Waiting(k.instance, Live)];
          }
        case Cancel(a) =>
          if a in anchors && anchors[a].status.Live? {
            anchors := anchors[a := anchors[a].(status := Cancelled)];
          }
        case EmitHistory(kind) =>
          if !HasEvent(Now(), k) {
            if (k.instance, SeqOf(k)) in history {
              return false;
            }
            history := history[(k.instance, SeqOf(k)) := Event(OfEffect(k), kind)];
          }
        case RaiseIncident(kind) =>
          Raise(k, kind);
        case CompleteInstance =>
      }
      return true;
    }

    /** One row inside its savepoint, and what becomes of it. */
    method DispatchRow(k: Key, breaks: bool, now: int, maxAttempts: int) returns (verdict: Verdict)
      requires k in queue
      modifies this
      ensures verdict == VerdictOf(old(Now()), k, breaks, maxAttempts)
      ensures Now() == Dispatched(old(Now()), k, breaks, now, maxAttempts)
    {
      var row := queue[k];
      AppliedLeavesQueue(Now(), k, row.effect);
      hide Applied;
      if !(breaks && CanBreak(row.effect)) {
        var ok := ApplyEffect(k, row.effect);
        if ok {
          queue := queue - {k};
          return Processed;
        }
      }
      var attempts := row.attempts + 1;
      if attempts >= maxAttempts {
        if DeadLetter(k) !in incidents {
          incidents := incidents[DeadLetter(k) := Incident("effectDispatchFailed", Open, Some(row.effect))];
        }
        queue := queue - {k};
        return DeadLettered;
      }
      queue := queue[k := Row(row.effect, attempts, now + BackoffSeconds(attempts))];
      return Failed;
    }

    /** A transaction that does not commit. */
    method Restore(before: Tables)
      modifies this
      ensures Now() == before
    {
      queue, anchors, pins, history := before.queue, before.anchors, before.pins, before.history;
      incidents, revisions := before.incidents, before.revisions;
    }

    /** The rows a dispatcher has locked. A process that dies at row `crash` leaves everything
        as it was. */
    method DispatchOnce(keys: seq<Key>, broken: set<Key>, now: int, maxAttempts: int, crash: nat)
        returns (processed: nat, failed: nat, deadLettered: nat)
      requires Distinct(keys) && forall k <- keys :: k in queue
      modifies this
      ensures crash < |keys| ==> Now() == old(Now())
      ensures |keys| <= crash ==>
                Pass(Now(), processed, failed, deadLettered) == Batch(old(Now()), keys, broken, now, maxAttempts)
    {
      var before := Now();
      processed, failed, deadLettered := 0, 0, 0;
      var index := 0;
      while index < |keys|
        invariant index <= |keys| && index <= crash
        invariant Pass(Now(), processed, failed, deadLettered) == Batch(before, keys[..index], broken, now, maxAttempts)
      {
        if index == crash {
          Restore(before);
          return;
        }
        hide Dispatched, VerdictOf;
        NextRow(before, keys, broken, now, maxAttempts, index);
        var verdict := DispatchRow(keys[index], keys[index] in broken, now, maxAttempts);
        match verdict {
          case Processed => processed := processed + 1;
          case Failed => failed := failed + 1;
          case DeadLettered => deadLettered := deadLettered + 1;
        }
        index := index + 1;
      }
      assert keys[..|keys|] == keys;
    }

    /** An event of the host's own, in the band of the instance's revision. */
    method InsertAuditEvent(instance: nat, kind: string) returns (ok: bool)
      modifies this
      ensures ok <==> HasRoom(old(Now()), instance)
      ensures Now() == if ok then Audited(old(Now()), instance, kind) else old(Now())
    {
      var next := NextAudit(Now(), instance);
      if next >= HistorySeq(RevisionOf(Now(), instance), SPAN) {
        return false;
      }
      history := history[(instance, next) := Event(OfAudit, kind)];
      return true;
    }

    /** The notes of one transaction, one after another; refused, it changes nothing. */
    method InsertNotes(instance: nat, notes: seq<Note>) returns (ok: bool)
      modifies this
      ensures ok <==> NotedAll(old(Now()), instance, notes).Some?
      ensures Now() == if ok then NotedAll(old(Now()), instance, notes).value else old(Now())
    {
      var before := Now();
      var i := 0;
      while i < |notes|
        invariant i <= |notes| && NotedAll(before, instance, notes[..i]) == Some(Now())
      {
        var note := notes[i];
        OneMoreNote(before, instance, notes, i);
        if !HasNote(Now(), instance, note) {
          if (instance, NumberIn(note)) in history {
            RefusedStays(before, instance, notes, i + 1);
            Restore(before);
            return false;
          }
          history := history[(instance, NumberIn(note)) := Event(OfHost(note), "")];
        }
        if note.Pin? {
          pins := pins + {(instance, note.element)};
        }
        i := i + 1;
      }
      assert notes[..|notes|] == notes;
      return true;
    }

    /** The trail of an agent's run. */
    method PersistAgentTrail(instance: nat, element: string, revision: nat, n: nat) returns (ok: bool)
      modifies this
      ensures ok <==> NotedAll(old(Now()), instance, Trail(element, revision, n)).Some?
      ensures Now() == if ok then NotedAll(old(Now()), instance, Trail(element, revision, n)).value else old(Now())
    {
      ok := InsertNotes(instance, Trail(element, revision, n));
    }

    /** The retry of an incident; where there is nothing to retry, or no room for the event,
        nothing happens. */
    method RetryIncident(i: IncidentKey, now: int) returns (ok: bool)
      modifies this
      ensures ok <==> Retrying(old(Now()), i, now).Some?
      ensures Now() == if ok then Retrying(old(Now()), i, now).value else old(Now())
    {
      var before := Now();
      if i !in incidents || !incidents[i].state.Open? {
        return false;
      }
      hide HasRoom, Audited, Rearmed;
      if i.DeadLetter? && incidents[i].effect.Some? {
        var effect := incidents[i].effect.value;
        SameRoom(before, before.(queue := Requeued(queue, i.key, effect, now),
                                 incidents := IncidentWith(before, i, Retried)), i.key.instance);
        Insert(i.key, effect, now);
      } else {
        if BrokenJobs(Now(), i.key.instance) == {} {
          return false;
        }
        SameRoom(before, before.(anchors := Rearmed(before, i.key.instance),
                                 incidents := IncidentWith(before, i, Retried)), i.key.instance);
        anchors := Rearmed(Now(), i.key.instance);
      }
      incidents := IncidentWith(Now(), i, Retried);
      ok := InsertAuditEvent(i.key.instance, "incidentRetried");
      if !ok {
        Restore(before);
      }
    }

    method ResolveIncident(i: IncidentKey) returns (ok: bool)
      modifies this
      ensures ok <==> Resolving(old(Now()), i).Some?
      ensures Now() == if ok then Resolving(old(Now()), i).value else old(Now())
    {
      var before := Now();
      if i !in incidents || incidents[i].state.Resolved? {
        return false;
      }
      hide HasRoom, Audited;
      SameRoom(before, before.(incidents := IncidentWith(before, i, Resolved)), i.key.instance);
      incidents := IncidentWith(Now(), i, Resolved);
      ok := InsertAuditEvent(i.key.instance, "incidentResolved");
      if !ok {
        incidents := before.incidents;
      }
    }
  }
}
