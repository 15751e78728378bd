/** POST /v1/instances with an Idempotency-Key, interleaved with any other requests. */
module Idempotency {
  import opened Options

  // The handler reads the key's record, creates, writes the record if there is none, and
  // reads it again. Records are never swept here.

  /** A key belongs to a tenant. */
  datatype Key = Key(tenant: string, name: string)

  /** `response` is the number of the instance the stored answer describes. */
  datatype Record = Record(hash: string, response: nat)

  datatype Reply =
    | Created201(instance: nat, replayed: bool)
    | Conflict409
    | Invalid422

  /** Where the handler stands; the awaits are between the stages. */
  datatype Stage = Arrived | Missed | Made(instance: nat) | Stored(instance: nat) | Replied(reply: Reply)

  /** `seen`, for the proof only, is what the first read of the record returned. */
  datatype Request = Request(key: Key, hash: string, stage: Stage, seen: Option<Record>)

  /** `makers[i]` is the request that instance `i` was created for. */
  datatype State = State(store: map<Key, Record>, makers: seq<nat>, requests: seq<Request>)

  datatype Step =
    | Arrive(key: Key, hash: string)
    | Look(r: nat)
    | Make(r: nat, ok: bool)
    | Store(r: nat)
    | Reread(r: nat)

  /** An absent or empty header leaves idempotency out of it. */
  predicate Keyed(q: Request) { q.key.name != "" }

  predicate Enabled(s: State, step: Step) {
    match step
    case Arrive(_, _) => true
    case Look(r) => r < |s.requests| && s.requests[r].stage.Arrived?
    case Make(r, _) => r < |s.requests| && s.requests[r].stage.Missed?
    case Store(r) => r < |s.requests| && s.requests[r].stage.Made?
    case Reread(r) => r < |s.requests| && s.requests[r].stage.Stored?
  }

  function Get(store: map<Key, Record>, key: Key): Option<Record> {
    if key in store then Some(store[key]) else None
  }

  /** Insert unless the key has a record: the first write wins. */
  function Put(store: map<Key, Record>, key: Key, record: Record): map<Key, Record> {
    if key in store then store else store[key := record]
  }

  function AfterLook(q: Request, hit: Option<Record>): Request {
    if !Keyed(q) || hit.None? then q.(stage := Missed)
    else if hit.value.hash != q.hash then q.(stage := Replied(Conflict409), seen := hit)
    else q.(stage := Replied(Created201(hit.value.response, true)), seen := hit)
  }

  function AfterMake(q: Request, ok: bool, instance: nat): Request {
    if !ok then q.(stage := Replied(Invalid422))
    else if Keyed(q) then q.(stage := Made(instance))
    else q.(stage := Replied(Created201(instance, false)))
  }

  function AfterReread(q: Request, winner: Option<Record>): Request
    requires q.stage.Stored?
  {
    if winner.Some? && winner.value.hash == q.hash
    then q.(stage := Replied(Created201(winner.value.response, false)))
    else q.(stage := Replied(Created201(q.stage.instance, false)))
  }

  function Next(s: State, step: Step): State
    requires Enabled(s, step)
  {
    match step
    case Arrive(key, hash) => s.(requests := s.requests + [Request(key, hash, Arrived, None)])
    case Look(r) =>
      s.(requests := s.requests[r := AfterLook(s.requests[r], Get(s.store, s.requests[r].key))])
    case Make(r, ok) =>
      s.(requests := s.requests[r := AfterMake(s.requests[r], ok, |s.makers|)],
         makers := if ok then s.makers + [r] else s.makers)
    case Store(r) =>
      var q := s.requests[r];
      s.(requests := s.requests[r := q.(stage := Stored(q.stage.instance))],
         store := Put(s.store, q.key, Record(q.hash, q.stage.instance)))
    case Reread(r) =>
      s.(requests := s.requests[r := AfterReread(s.requests[r], Get(s.store, s.requests[r].key))])
  }

  const EMPTY := State(map[], [], [])

  // ------------------------------------------------------------ the handler, uninterrupted

  class Records {
    var store: map<Key, Record>

    method Read(key: Key) returns (hit: Option<Record>)
      ensures hit == Get(store, key)
    {
      hit := if key in store then Some(store[key]) else None;
    }

    method Write(key: Key, record: Record)
      modifies this
      ensures store == Put(old(store), key, record)
    {
      if key !in store {
        store := store[key := record];
      }
    }
  }

  /** The handler with nothing running in between: `outcome` is the instance that would
      be created, none when it cannot be. What it answers and writes is what the steps
      of the protocol do in a row. */
  method StartInstance(records: Records, key: Key, hash: string, outcome: Option<nat>) returns (reply: Reply)
    modifies records
    ensures var q := AfterLook(Request(key, hash, Arrived, None), Get(old(records.store), key));
            if q.stage.Replied? then reply == q.stage.reply && records.store == old(records.store)
            else
              var made := AfterMake(q, outcome.Some?, if outcome.Some? then outcome.value else 0);
              if made.stage.Replied? then reply == made.stage.reply && records.store == old(records.store)
              else
                var stored := made.(stage := Stored(made.stage.instance));
                && records.store == Put(old(records.store), key, Record(hash, made.stage.instance))
                && AfterReread(stored, Get(records.store, key)).stage == Replied(reply)
    ensures key.name == "" ==>
              records.store == old(records.store)
              && reply == if outcome.Some? then Created201(outcome.value, false) else Invalid422
    ensures key.name != "" && key in old(records.store) ==>
              records.store == old(records.store)
              && reply == if old(records.store)[key].hash != hash then Conflict409
                          else Created201(old(records.store)[key].response, true)
    ensures key.name != "" && key !in old(records.store) ==>
              if outcome.None? then records.store == old(records.store) && reply == Invalid422
              else records.store == old(records.store)[key := Record(hash, outcome.value)]
                   && reply == Created201(outcome.value, false)
  {
    if key.name != "" {
      var hit := records.Read(key);
      if hit.Some? {
        if hit.value.hash != hash {
          return Conflict409;
        }
        return Created201(hit.value.response, true);
      }
    }
    if outcome.None? {
      return Invalid422;
    }
    if key.name != "" {
      records.Write(key, Record(hash, outcome.value));
      var winner := records.Read(key);
      if winner.Some? && winner.value.hash == hash {
        return Created201(winner.value.response, false);
      }
    }
    return Created201(outcome.value, false);
  }

  // ------------------------------------------------------------ the invariant

  /** The instance was created for request `r`. */
  predicate MadeFor(s: State, instance: nat, r: nat) {
    instance < |s.makers| && s.makers[instance] == r
  }

  /** A record answers for an instance created for a request with its key and body. */
  ghost predicate RecordOk(s: State, key: Key)
    requires key in s.store
  {
    var record := s.store[key];
    && key.name != "" && record.response < |s.makers|
    && var r := s.makers[record.response];
       r < |s.requests| && s.requests[r].key == key && s.requests[r].hash == record.hash
  }

  ghost predicate RequestOk(s: State, r: nat)
    requires r < |s.requests|
  {
    var q := s.requests[r];
    && (q.seen.Some? ==> Keyed(q) && Get(s.store, q.key) == q.seen && q.stage.Replied?)
    && match q.stage
       case Arrived => true
       case Missed => true
       case Made(instance) => Keyed(q) && MadeFor(s, instance, r)
       case Stored(instance) => Keyed(q) && MadeFor(s, instance, r) && q.key in s.store
       case Replied(Invalid422) => q.seen.None?
       case Replied(Conflict409) => q.seen.Some? && q.seen.value.hash != q.hash
       case Replied(Created201(instance, replayed)) =>
         && (replayed <==> q.seen.Some?)
         && (if !Keyed(q) then MadeFor(s, instance, r)
             else q.key in s.store &&
                  if s.store[q.key].hash == q.hash then instance == s.store[q.key].response
                  else MadeFor(s, instance, r) && q.seen.None?)
  }

  /** An instance is made for a request whose first read found nothing, and for each
      such request at most once. */
  ghost predicate MakerOk(s: State, i: nat)
    requires i < |s.makers|
  {
    var r := s.makers[i];
    && r < |s.requests| && s.requests[r].seen.None?
    && !s.requests[r].stage.Arrived? && !s.requests[r].stage.Missed?
    && s.requests[r].stage != Replied(Invalid422) && s.requests[r].stage != Replied(Conflict409)
  }

  ghost predicate Inv(s: State) {
    && (forall k :: k in s.store ==> RecordOk(s, k))
    && (forall r :: 0 <= r < |s.requests| ==> RequestOk(s, r))
    && (forall i :: 0 <= i < |s.makers| ==> MakerOk(s, i))
    && (forall i, j :: 0 <= i < j < |s.makers| ==> s.makers[i] != s.makers[j])
  }

  /** Every record stays as it was written. */
  ghost predicate Keeps(before: map<Key, Record>, after: map<Key, Record>) {
    forall k :: k in before ==> k in after && after[k] == before[k]
  }

  lemma OthersOk(s: State, s': State, r: nat)
    requires Inv(s) && r < |s.requests| && |s'.requests| == |s.requests|
    requires s'.requests == s.requests[r := s'.requests[r]]
    requires s'.requests[r].key == s.requests[r].key && s'.requests[r].hash == s.requests[r].hash
    requires Keeps(s.store, s'.store) && s.makers <= s'.makers
    requires forall k :: k in s'.store ==> RecordOk(s', k)
    requires RequestOk(s', r)
    requires forall i :: 0 <= i < |s'.makers| && s'.makers[i] == r ==> MakerOk(s', i)
    requires |s'.makers| <= |s.makers| + 1 && (|s'.makers| > |s.makers| ==> s'.makers[|s.makers|] == r)
    requires forall i, j :: 0 <= i < j < |s'.makers| ==> s'.makers[i] != s'.makers[j]
    ensures Inv(s')
  {
    forall q | 0 <= q < |s'.requests| ensures RequestOk(s', q) {
      if q != r {
        assert RequestOk(s, q);
        assert s'.requests[q] == s.requests[q];
      }
    }
    forall i | 0 <= i < |s'.makers| ensures MakerOk(s', i) {
      if i < |s.makers| && s'.makers[i] != r {
        assert MakerOk(s, i);
      }
    }
  }

  lemma ArriveOk(s: State, key: Key, hash: string)
    requires Inv(s) && Enabled(s, Arrive(key, hash))
    ensures Inv(Next(s, Arrive(key, hash))) && Keeps(s.store, Next(s, Arrive(key, hash)).store)
  {
    var s' := Next(s, Arrive(key, hash));
    forall k | k in s'.store ensures RecordOk(s', k) {
      assert RecordOk(s, k);
    }
    forall q | 0 <= q < |s'.requests| ensures RequestOk(s', q) {
      if q < |s.requests| {
        assert RequestOk(s, q);
      }
    }
    forall i | 0 <= i < |s'.makers| ensures MakerOk(s', i) {
      assert MakerOk(s, i);
    }
  }

  lemma LookOk(s: State, r: nat)
    requires Inv(s) && Enabled(s, Look(r))
    ensures Inv(Next(s, Look(r))) && Keeps(s.store, Next(s, Look(r)).store)
  {
    var s' := Next(s, Look(r));
    assert RequestOk(s, r);
    forall k | k in s'.store ensures RecordOk(s', k) {
      assert RecordOk(s, k);
    }
    forall i | 0 <= i < |s'.makers| ensures s'.makers[i] != r {
      assert MakerOk(s, i);
    }
    OthersOk(s, s', r);
  }

  lemma MakeOk(s: State, r: nat, ok: bool)
    requires Inv(s) && Enabled(s, Make(r, ok))
    ensures Inv(Next(s, Make(r, ok))) && Keeps(s.store, Next(s, Make(r, ok)).store)
  {
    var s' := Next(s, Make(r, ok));
    assert RequestOk(s, r);
    forall k | k in s'.store ensures RecordOk(s', k) {
      assert RecordOk(s, k);
    }
    forall i | 0 <= i < |s.makers| ensures s.makers[i] != r {
      assert MakerOk(s, i);
    }
    OthersOk(s, s', r);
  }

  lemma StoreOk(s: State, r: nat)
    requires Inv(s) && Enabled(s, Store(r))
    ensures Inv(Next(s, Store(r))) && Keeps(s.store, Next(s, Store(r)).store)
  {
    var s' := Next(s, Store(r));
    assert RequestOk(s, r);
    forall k | k in s'.store ensures RecordOk(s', k) {
      if k in s.store {
        assert RecordOk(s, k);
      }
    }
    forall i | 0 <= i < |s'.makers| && s'.makers[i] == r ensures MakerOk(s', i) {
      assert MakerOk(s, i);
    }
    OthersOk(s, s', r);
  }

  lemma RereadOk(s: State, r: nat)
    requires Inv(s) && Enabled(s, Reread(r))
    ensures Inv(Next(s, Reread(r))) && Keeps(s.store, Next(s, Reread(r)).store)
  {
    var s' := Next(s, Reread(r));
    assert RequestOk(s, r);
    forall k | k in s'.store ensures RecordOk(s', k) {
      assert RecordOk(s, k);
    }
    forall i | 0 <= i < |s'.makers| && s'.makers[i] == r ensures MakerOk(s', i) {
      assert MakerOk(s, i);
    }
    OthersOk(s, s', r);
  }

  /** Every step keeps the invariant and every record. */
  lemma StepOk(s: State, step: Step)
    requires Inv(s) && Enabled(s, step)
    ensures Inv(Next(s, step)) && Keeps(s.store, Next(s, step).store)
  {
    hide Inv;
    hide Keeps;
    hide Next;
    match step
    case Arrive(key, hash) => ArriveOk(s, key, hash);
    case Look(r) => LookOk(s, r);
    case Make(r, ok) => MakeOk(s, r, ok);
    case Store(r) => StoreOk(s, r);
    case Reread(r) => RereadOk(s, r);
  }

  // ------------------------------------------------------------ every run

  ghost predicate IsRun(states: seq<State>, steps: seq<Step>) {
    && |states| == |steps| + 1 && states[0] == EMPTY
    && forall i :: 0 <= i < |steps| ==> Enabled(states[i], steps[i]) && states[i + 1] == Next(states[i], steps[i])
  }

  lemma {:induction false} RunOk(states: seq<State>, steps: seq<Step>, n: nat)
    requires IsRun(states, steps) && n < |states|
    ensures Inv(states[n])
  {
    if n > 0 {
      hide Inv, Next, Enabled;
      RunOk(states, steps, n - 1);
      StepOk(states[n - 1], steps[n - 1]);
    }
  }

  lemma KeepsChain(a: map<Key, Record>, b: map<Key, Record>, c: map<Key, Record>)
    ensures Keeps(a, a)
    ensures Keeps(a, b) && Keeps(b, c) ==> Keeps(a, c)
  {
  }

  /** Main result: a record, once written, is never changed. */
  lemma {:induction false} WriteOnce(states: seq<State>, steps: seq<Step>, m: nat, n: nat)
    requires IsRun(states, steps) && m <= n < |states|
    ensures Keeps(states[m].store, states[n].store)
    decreases n - m
  {
    hide Keeps, Inv, Next, Enabled;
    if m == n {
      KeepsChain(states[m].store, states[m].store, states[m].store);
    } else {
      WriteOnce(states, steps, m, n - 1);
      RunOk(states, steps, n - 1);
      StepOk(states[n - 1], steps[n - 1]);
      KeepsChain(states[m].store, states[n - 1].store, states[n].store);
    }
  }

  /** Main result: every keyed 201 has a record, and a request with the record's body is
      answered with the record's response, which is an instance made for that body. */
  lemma RepliesAgree(states: seq<State>, steps: seq<Step>, n: nat, r: nat)
    requires IsRun(states, steps) && n < |states| && r < |states[n].requests|
    requires var q := states[n].requests[r]; Keyed(q) && q.stage.Replied? && q.stage.reply.Created201?
    ensures var s := states[n];
            var q := s.requests[r];
            q.key in s.store &&
            (s.store[q.key].hash == q.hash ==> q.stage.reply.instance == s.store[q.key].response) &&
            s.store[q.key].response < |s.makers| && s.makers[s.store[q.key].response] < |s.requests| &&
            var maker := s.requests[s.makers[s.store[q.key].response]];
            maker.key == q.key && maker.hash == s.store[q.key].hash
  {
    RunOk(states, steps, n);
    assert RequestOk(states[n], r);
    assert RecordOk(states[n], states[n].requests[r].key);
  }

  /** Main result: no instance is made for a request whose first read found a record,
      and none twice for one request. */
  lemma MadeOnceUnseen(states: seq<State>, steps: seq<Step>, n: nat, i: nat, j: nat)
    requires IsRun(states, steps) && n < |states| && i < |states[n].makers| && j < |states[n].makers|
    ensures states[n].makers[i] < |states[n].requests|
    ensures states[n].requests[states[n].makers[i]].seen.None?
    ensures states[n].makers[i] == states[n].makers[j] ==> i == j
  {
    RunOk(states, steps, n);
    assert MakerOk(states[n], i);
  }

  /** What a request saw when it looked stays with it. */
  lemma {:induction false} SeenSinceLook(states: seq<State>, steps: seq<Step>, i: nat, n: nat)
    requires IsRun(states, steps) && i < n < |states| && steps[i].Look?
    ensures var r := steps[i].r;
            && r < |states[i].requests| && r < |states[n].requests|
            && !states[n].requests[r].stage.Arrived?
            && states[n].requests[r].key == states[i].requests[r].key
            && (Keyed(states[n].requests[r]) ==>
                  states[n].requests[r].seen == Get(states[i].store, states[n].requests[r].key))
  {
    var r := steps[i].r;
    if n == i + 1 {
      RunOk(states, steps, i);
      assert RequestOk(states[i], r);
    } else {
      SeenSinceLook(states, steps, i, n - 1);
      SeenStays(states[n - 1], steps[n - 1], r);
    }
  }

  lemma SeenStays(s: State, step: Step, r: nat)
    requires Enabled(s, step) && r < |s.requests| && !s.requests[r].stage.Arrived?
    ensures r < |Next(s, step).requests| && Next(s, step).requests[r].seen == s.requests[r].seen
    ensures Next(s, step).requests[r].key == s.requests[r].key && !Next(s, step).requests[r].stage.Arrived?
  {
  }

  /** A request that has got on has looked, and just once. */
  lemma {:induction false} LookHappened(states: seq<State>, steps: seq<Step>, n: nat, r: nat) returns (i: nat)
    requires IsRun(states, steps) && n < |states| && r < |states[n].requests| && !states[n].requests[r].stage.Arrived?
    ensures i < n && steps[i] == Look(r)
    ensures forall j :: 0 <= j < n && steps[j] == Look(r) ==> j == i
  {
    if steps[n - 1] == Look(r) {
      i := n - 1;
      forall j | 0 <= j < i && steps[j] == Look(r) ensures false {
        SeenSinceLook(states, steps, j, i);
      }
    } else {
      GotOnBefore(states[n - 1], steps[n - 1], r);
      i := LookHappened(states, steps, n - 1, r);
    }
  }

  lemma GotOnBefore(s: State, step: Step, r: nat)
    requires Enabled(s, step) && step != Look(r)
    requires r < |Next(s, step).requests| && !Next(s, step).requests[r].stage.Arrived?
    ensures r < |s.requests| && !s.requests[r].stage.Arrived?
  {
  }

  /** Main result: every keyed request that was answered has looked at one step `i`, and it is
      answered with the conflict exactly when the store then held a record of its key for
      another body. */
  lemma ConflictIff(states: seq<State>, steps: seq<Step>, n: nat, r: nat) returns (i: nat)
    requires IsRun(states, steps) && n < |states| && r < |states[n].requests|
    requires var q := states[n].requests[r]; Keyed(q) && q.stage.Replied?
    ensures i < n && steps[i] == Look(r) && forall j :: 0 <= j < n && steps[j] == Look(r) ==> j == i
    ensures var q := states[n].requests[r];
            var hit := Get(states[i].store, q.key);
            q.stage.reply == Conflict409 <==> hit.Some? && hit.value.hash != q.hash
  {
    i := LookHappened(states, steps, n, r);
    SeenSinceLook(states, steps, i, n);
    RunOk(states, steps, n);
    assert RequestOk(states[n], r);
    hide Inv;
    WriteOnce(states, steps, i, n);
  }

  /** The same key with a different body: a conflict exactly when the record was there as
      the request looked; a request that raced past it gets its own new instance. */
  lemma DifferentBody(states: seq<State>, steps: seq<Step>, n: nat, r: nat) returns (i: nat)
    requires IsRun(states, steps) && n < |states| && r < |states[n].requests|
    requires var s := states[n]; var q := s.requests[r];
             Keyed(q) && q.stage.Replied? && q.key in s.store && s.store[q.key].hash != q.hash
    ensures i < n && steps[i] == Look(r) && forall j :: 0 <= j < n && steps[j] == Look(r) ==> j == i
    ensures var s := states[n];
            var q := s.requests[r];
            && (q.stage.reply == Conflict409 <==> q.key in states[i].store)
            && (q.stage.reply.Created201? ==> q.key !in states[i].store && MadeFor(s, q.stage.reply.instance, r))
  {
    i := LookHappened(states, steps, n, r);
    SeenSinceLook(states, steps, i, n);
    WriteOnce(states, steps, i, n);
    RunOk(states, steps, n);
    assert RequestOk(states[n], r);
    hide Inv;
  }

  // ------------------------------------------------------------ a race

  /** Two requests with one key and two bodies, step by step. */
  function RaceSteps(key: Key, a: string, b: string): seq<Step> {
    [Arrive(key, a), Arrive(key, b), Look(0), Look(1), Make(0, true), Make(1, true),
     Store(0), Store(1), Reread(0), Reread(1)]
  }

  function Racers(key: Key, a: string, b: string, s: Stage, t: Stage): seq<Request> {
    [Request(key, a, s, None), Request(key, b, t, None)]
  }

  /** How far the race has come after `k` steps. */
  function Race(key: Key, a: string, b: string, k: nat): State
    requires k <= 10
  {
    var kept := map[key := Record(a, 0)];
    match k
    case 0 => EMPTY
    case 1 => State(map[], [], [Request(key, a, Arrived, None)])
    case 2 => State(map[], [], Racers(key, a, b, Arrived, Arrived))
    case 3 => State(map[], [], Racers(key, a, b, Missed, Arrived))
    case 4 => State(map[], [], Racers(key, a, b, Missed, Missed))
    case 5 => State(map[], [0], Racers(key, a, b, Made(0), Missed))
    case 6 => State(map[], [0, 1], Racers(key, a, b, Made(0), Made(1)))
    case 7 => State(kept, [0, 1], Racers(key, a, b, Stored(0), Made(1)))
    case 8 => State(kept, [0, 1], Racers(key, a, b, Stored(0), Stored(1)))
    case 9 => State(kept, [0, 1], Racers(key, a, b, Replied(Created201(0, false)), Stored(1)))
    case 10 => State(kept, [0, 1], Racers(key, a, b, Replied(Created201(0, false)), Replied(Created201(1, false))))
  }

  lemma RaceStep(key: Key, a: string, b: string, k: nat)
    requires key.name != "" && a != b && k < 10
    ensures Enabled(Race(key, a, b, k), RaceSteps(key, a, b)[k])
    ensures Next(Race(key, a, b, k), RaceSteps(key, a, b)[k]) == Race(key, a, b, k + 1)
  {
  }

  /** So the promised 409 is not kept under a race: two requests with one key, whatever
      their two bodies, can both be answered 201, with two instances. */
  lemma RaceAnswersBoth(key: Key, a: string, b: string) returns (states: seq<State>, steps: seq<Step>)
    requires key.name != "" && a != b
    ensures IsRun(states, steps)
    ensures states[|states| - 1].requests
         == Racers(key, a, b, Replied(Created201(0, false)), Replied(Created201(1, false)))
  {
    states := seq(11, k requires 0 <= k <= 10 => Race(key, a, b, k));
    steps := RaceSteps(key, a, b);
    hide Next, Enabled;
    forall k | 0 <= k < 10
      ensures Enabled(states[k], steps[k]) && states[k + 1] == Next(states[k], steps[k])
    {
      RaceStep(key, a, b, k);
    }
  }
}
