/** The worker's polling: its waits between ticks, and the waker that cuts one short. */
module Polling {
  import opened Options

  const BUSY_DELAY_MS: nat := 100
  const IDLE_BASE_MS: nat := 1000
  const FALLBACK_MS: nat := 60000

  function Min(a: nat, b: nat): nat { if a <= b then a else b }

  function NextDelayMs(previousMs: nat, hadWork: bool): nat {
    if hadWork then BUSY_DELAY_MS
    else if previousMs < IDLE_BASE_MS then IDLE_BASE_MS
    else Min(previousMs * 2, FALLBACK_MS)
  }

  // The outer loop.

  /** What a tick came back with: it found work, found none, or threw. */
  datatype Tick = Worked | Idle | Threw

  /** The delay after a sequence of ticks; a tick that threw counts as idle. */
  function DelayAfter(ticks: seq<Tick>): nat {
    if ticks == [] then IDLE_BASE_MS
    else NextDelayMs(DelayAfter(ticks[..|ticks| - 1]), ticks[|ticks| - 1] == Worked)
  }

  /** One turn of the loop: what its tick came to, how long that took, and how long after
      the sleep began a wake came, if one came at all. Times are in milliseconds. */
  datatype Round = Round(tick: Tick, took: nat, wake: Option<nat>)

  function Ticks(rounds: seq<Round>): (r: seq<Tick>)
    ensures |r| == |rounds|
    ensures forall i :: 0 <= i < |rounds| ==> r[i] == rounds[i].tick
  {
    seq(|rounds|, i requires 0 <= i < |rounds| => rounds[i].tick)
  }

  /** A sleep lasts as long as it was set for, or until it is woken. */
  function Slept(delay: nat, wake: Option<nat>): nat {
    if wake.Some? && wake.value < delay then wake.value else delay
  }

  /** When the tick after these rounds starts. */
  function NextStart(rounds: seq<Round>): nat {
    if rounds == [] then 0
    else
      var last := rounds[|rounds| - 1];
      NextStart(rounds[..|rounds| - 1]) + last.took + Slept(DelayAfter(Ticks(rounds)), last.wake)
  }

  lemma OneMoreRound(rounds: seq<Round>, i: nat)
    requires i < |rounds|
    ensures DelayAfter(Ticks(rounds[..i + 1])) == NextDelayMs(DelayAfter(Ticks(rounds[..i])), rounds[i].tick == Worked)
    ensures NextStart(rounds[..i + 1])
         == NextStart(rounds[..i]) + rounds[i].took + Slept(DelayAfter(Ticks(rounds[..i + 1])), rounds[i].wake)
  {
    var grown := rounds[..i + 1];
    assert grown[..i] == rounds[..i] && grown[i] == rounds[i];
    assert Ticks(grown)[..i] == Ticks(rounds[..i]);
    hide NextDelayMs, Slept;
  }

  /** The waits after the first `n` ticks. */
  predicate DelaysUpTo(rounds: seq<Round>, n: nat, delays: seq<nat>)
    requires n <= |rounds|
  {
    |delays| == n && forall i :: 0 <= i < n ==> delays[i] == DelayAfter(Ticks(rounds[..i + 1]))
  }

  /** When the first ticks started, and when the next one does. */
  predicate StartsUpTo(rounds: seq<Round>, n: nat, starts: seq<nat>)
    requires n <= |rounds|
  {
    |starts| == n + 1 && forall i :: 0 <= i <= n ==> starts[i] == NextStart(rounds[..i])
  }

  lemma OneMoreEntry(rounds: seq<Round>, n: nat, delays: seq<nat>, starts: seq<nat>)
    requires n < |rounds| && DelaysUpTo(rounds, n, delays) && StartsUpTo(rounds, n, starts)
    ensures DelaysUpTo(rounds, n + 1, delays + [DelayAfter(Ticks(rounds[..n + 1]))])
    ensures StartsUpTo(rounds, n + 1, starts + [NextStart(rounds[..n + 1])])
  {
    hide DelayAfter, NextStart, Ticks;
  }

  /** The loop, for as long as it runs: the wait after each tick, and when each tick starts. */
  method Loop(rounds: seq<Round>) returns (delays: seq<nat>, starts: seq<nat>)
    ensures DelaysUpTo(rounds, |rounds|, delays) && StartsUpTo(rounds, |rounds|, starts)
  {
    var delay, now := IDLE_BASE_MS, 0;
    delays, starts := [], [0];
    assert Ticks(rounds[..0]) == [] && rounds[..0] == [];
    assert delay == DelayAfter([]) && now == NextStart([]);
    assert DelaysUpTo(rounds, 0, delays) && StartsUpTo(rounds, 0, starts);
    hide NextDelayMs, Slept, DelayAfter, NextStart, Ticks, DelaysUpTo, StartsUpTo;
    for i := 0 to |rounds|
      invariant delay == DelayAfter(Ticks(rounds[..i])) && now == NextStart(rounds[..i])
      invariant DelaysUpTo(rounds, i, delays) && StartsUpTo(rounds, i, starts)
    {
      var hadWork := false;
      match rounds[i].tick {
        case Worked => hadWork := true;
        case Idle =>
        case Threw =>
      }
      assert hadWork == (rounds[i].tick == Worked);
      OneMoreRound(rounds, i);
      delay := NextDelayMs(delay, hadWork);
      now := now + rounds[i].took + Slept(delay, rounds[i].wake);
      OneMoreEntry(rounds, i, delays, starts);
      delays, starts := delays + [delay], starts + [now];
    }
  }

  /** `start` doubled `k` times. */
  function Doubled(start: nat, k: nat): (d: nat)
    ensures d >= start
  {
    if k == 0 then start else 2 * Doubled(start, k - 1)
  }

  predicate NoWork(ticks: seq<Tick>) { forall i :: 0 <= i < |ticks| ==> ticks[i] != Worked }

  /** `k` idle ticks in a row after a delay of at least the idle base. */
  lemma {:induction false} IdleRun(before: seq<Tick>, idle: seq<Tick>, start: nat)
    requires NoWork(idle) && DelayAfter(before) == start && IDLE_BASE_MS <= start <= FALLBACK_MS
    ensures DelayAfter(before + idle) == Min(Doubled(start, |idle|), FALLBACK_MS)
  {
    if idle == [] {
      assert before + idle == before;
    } else {
      var front := idle[..|idle| - 1];
      IdleRun(before, front, start);
      assert (before + idle)[..|before + idle| - 1] == before + front;
      assert (before + idle)[|before + idle| - 1] == idle[|idle| - 1];
      assert DelayAfter(before + front) >= IDLE_BASE_MS;
    }
  }

  lemma DelayStep(ticks: seq<Tick>, t: Tick)
    ensures DelayAfter(ticks + [t]) == NextDelayMs(DelayAfter(ticks), t == Worked)
  {
    assert (ticks + [t])[..|ticks|] == ticks;
  }

  /** After a busy tick the k-th idle wait is 1000 doubled k - 1 times, at most 60000. */
  lemma IdleAfterBusy(before: seq<Tick>, idle: seq<Tick>)
    requires NoWork(idle) && idle != []
    ensures DelayAfter(before + [Worked] + idle) == Min(Doubled(1000, |idle| - 1), 60000)
  {
    hide DelayAfter, Doubled;
    var busy := before + [Worked];
    DelayStep(before, Worked);
    DelayStep(busy, idle[0]);
    IdleRun(busy + [idle[0]], idle[1..], IDLE_BASE_MS);
    assert busy + [idle[0]] + idle[1..] == before + [Worked] + idle;
  }

  /** From the start of the process the waits are one doubling further on: the delay
      begins at the idle base, so the first idle wait is already 2000. */
  lemma {:induction false} IdleFromStart(idle: seq<Tick>)
    requires NoWork(idle)
    ensures DelayAfter(idle) == Min(Doubled(1000, |idle|), 60000)
  {
    IdleRun([], idle, IDLE_BASE_MS);
    assert [] + idle == idle;
  }

  /** Every wait lies between the busy delay and the fallback, whatever the ticks brought;
      it is the busy delay exactly after work. */
  lemma {:induction false} WaitsBounded(ticks: seq<Tick>)
    requires ticks != []
    ensures 100 <= DelayAfter(ticks) <= 60000
    ensures DelayAfter(ticks) == 100 <==> ticks[|ticks| - 1] == Worked
  {
    var front := ticks[..|ticks| - 1];
    if front != [] {
      WaitsBounded(front);
    }
  }

  /** So every tick starts within the fallback of the last one's end, even when no notify
      ever comes; then it starts exactly the chosen wait after it, and else when the notify
      comes, if that is sooner. */
  lemma NextTickWithinFallback(rounds: seq<Round>)
    requires rounds != []
    ensures var last := rounds[|rounds| - 1];
            var end := NextStart(rounds[..|rounds| - 1]) + last.took;
            && end <= NextStart(rounds) <= end + 60000
            && (last.wake.None? ==> NextStart(rounds) == end + DelayAfter(Ticks(rounds)))
            && (last.wake.Some? ==> NextStart(rounds) == end + last.wake.value
                                    || (NextStart(rounds) == end + DelayAfter(Ticks(rounds)) <= end + last.wake.value))
  {
    WaitsBounded(Ticks(rounds));
    hide DelayAfter;
  }

  // The waker.

  /** The resolution of one sleep, by the number of the sleep. */
  datatype Cause = ByTimer | ByWake

  /** The waker; a pending sleep of -1 is none. */
  class Waker {
    /** The sleep a wake would end. */
    var pending: int
    /** The sleeps whose timer is set. */
    var timers: set<nat>
    /** The sleeps begun, and how each was resolved. */
    var begun: nat
    var resolutions: seq<(nat, Cause)>

    function State(): WakerState
      reads this
    {
      WakerState(pending, timers, begun, resolutions)
    }

    constructor ()
      ensures State() == WakerState(-1, {}, 0, [])
    {
      pending, timers, begun, resolutions := -1, {}, 0, [];
    }

    method Sleep() returns (id: nat)
      modifies this
      ensures State() == old(State()).Slept() && id == old(begun)
    {
      id := begun;
      begun := begun + 1;
      timers := timers + {id};
      pending := id;
    }

    /** The timer of sleep `id` goes off. */
    method TimerFires(id: nat)
      requires id in timers
      modifies this
      ensures State() == old(State()).Fired(id)
    {
      timers := timers - {id};
      pending := -1;
      resolutions := resolutions + [(id, ByTimer)];
    }

    method Wake()
      modifies this
      ensures State() == old(State()).Woken()
    {
      if pending >= 0 {
        var id := pending;
        timers := timers - {id};
        pending := -1;
        resolutions := resolutions + [(id, ByWake)];
      }
    }
  }

  datatype WakerState = WakerState(pending: int, timers: set<nat>, begun: nat, resolutions: seq<(nat, Cause)>) {
    function Slept(): WakerState {
      this.(pending := begun, timers := timers + {begun}, begun := begun + 1)
    }

    function Fired(id: nat): WakerState {
      this.(pending := -1, timers := timers - {id}, resolutions := resolutions + [(id, ByTimer)])
    }

    function Woken(): WakerState {
      if pending < 0 then this
      else this.(pending := -1, timers := timers - {pending}, resolutions := resolutions + [(pending, ByWake)])
    }
  }

  datatype Act = BeginSleep | Timer(id: nat) | WakeUp

  predicate Resolved(st: WakerState, id: nat) { exists r <- st.resolutions :: r.0 == id }

  /** A timer goes off only while it is set; there is one sleeper, so a sleep begins only
      once the last one is resolved. */
  predicate CanAct(st: WakerState, a: Act) {
    match a
    case BeginSleep => st.begun == 0 || Resolved(st, st.begun - 1)
    case Timer(id) => id in st.timers
    case WakeUp => true
  }

  function Acted(st: WakerState, a: Act): WakerState
    requires CanAct(st, a)
  {
    match a
    case BeginSleep => st.Slept()
    case Timer(id) => st.Fired(id)
    case WakeUp => st.Woken()
  }

  ghost predicate ActRun(sts: seq<WakerState>, acts: seq<Act>) {
    && |sts| == |acts| + 1
    && sts[0] == WakerState(-1, {}, 0, [])
    && forall i :: 0 <= i < |acts| ==> CanAct(sts[i], acts[i]) && sts[i + 1] == Acted(sts[i], acts[i])
  }

  /** The sleeps are resolved one by one in order; the last one is either resolved, with
      nothing pending and no timer set, or waiting, pending and with its timer set. */
  predicate InOrder(st: WakerState) {
    && (forall i :: 0 <= i < |st.resolutions| ==> st.resolutions[i].0 == i)
    && (|st.resolutions| == st.begun || |st.resolutions| + 1 == st.begun)
    && (|st.resolutions| == st.begun ==> st.pending == -1 && st.timers == {})
    && (|st.resolutions| + 1 == st.begun ==> st.pending == st.begun - 1 && st.timers == {st.begun - 1})
  }

  lemma ActKeepsOrder(st: WakerState, a: Act)
    requires InOrder(st) && CanAct(st, a)
    ensures InOrder(Acted(st, a))
  {
  }

  lemma {:induction false} RunInOrder(sts: seq<WakerState>, acts: seq<Act>, k: nat)
    requires ActRun(sts, acts) && k < |sts|
    ensures InOrder(sts[k])
  {
    hide InOrder, CanAct, Acted;
    if k == 0 {
      assert InOrder(WakerState(-1, {}, 0, [])) by { StartsInOrder(); }
    } else {
      RunInOrder(sts, acts, k - 1);
      ActKeepsOrder(sts[k - 1], acts[k - 1]);
    }
  }

  lemma StartsInOrder()
    ensures InOrder(WakerState(-1, {}, 0, []))
  {
  }

  /** In every interleaving of the sleeper, its timers and wakes: no sleep is resolved
      twice, a sleep that is not resolved can still be resolved by its own timer and by a
      wake, and the only timer that can go off is that of the current sleep, so no stale
      timer ever disarms a later one. */
  lemma EverySleepOnce(sts: seq<WakerState>, acts: seq<Act>, k: nat)
    requires ActRun(sts, acts) && k < |sts|
    ensures forall i, j :: 0 <= i < j < |sts[k].resolutions| ==> sts[k].resolutions[i].0 != sts[k].resolutions[j].0
    ensures forall id :: 0 <= id < sts[k].begun && !Resolved(sts[k], id) ==>
              CanAct(sts[k], Timer(id)) && Resolved(Acted(sts[k], Timer(id)), id) && Resolved(sts[k].Woken(), id)
    ensures forall id :: id in sts[k].timers ==> sts[k].pending == id && !Resolved(sts[k], id)
  {
    RunInOrder(sts, acts, k);
    var st := sts[k];
    forall i | 0 <= i < |st.resolutions| ensures Resolved(st, i) {
      assert st.resolutions[i].0 == i;
    }
    forall id | 0 <= id < st.begun && !Resolved(st, id)
      ensures CanAct(st, Timer(id)) && Resolved(Acted(st, Timer(id)), id) && Resolved(st.Woken(), id)
    {
      assert (st.resolutions + [(id, ByTimer)])[|st.resolutions|] == (id, ByTimer);
      assert (st.resolutions + [(id, ByWake)])[|st.resolutions|] == (id, ByWake);
    }
  }

  /** A resolution is never taken back. */
  lemma {:induction false} ResolvedStays(sts: seq<WakerState>, acts: seq<Act>, j: nat, k: nat)
    requires ActRun(sts, acts) && j <= k < |sts|
    ensures sts[j].resolutions <= sts[k].resolutions
  {
    if j < k {
      ResolvedStays(sts, acts, j, k - 1);
      assert sts[k] == Acted(sts[k - 1], acts[k - 1]);
    }
  }

  /** One sleeper is needed: whenever another sleep's timer goes off while one is pending,
      it disarms that one; a wake then resolves nobody, and the sleep goes on until its own
      timer. */
  lemma StaleTimerDisarms(st: WakerState, id: nat)
    requires id in st.timers && st.pending >= 0 && id != st.pending && !Resolved(st, st.pending)
    ensures var late := st.Fired(id);
            && late.Woken() == late && !Resolved(late, st.pending)
            && (st.pending in st.timers ==> st.pending in late.timers)
  {
  }
}
