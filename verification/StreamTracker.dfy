/** The tracker of streaming components: a map of start times, pruned only when it is
    asked, against the full history of what was pushed. */
module StreamTracker {
  import opened Options

  /** A push that counts: the component started or stopped streaming at a time. */
  datatype Event = Event(name: string, streaming: bool, time: int)

  const STALE_MS := 60000

  /** Since when a name has been streaming, by its last push. */
  function StartOf(history: seq<Event>, name: string): Option<int> {
    if history == [] then None
    else
      var e := history[|history| - 1];
      if e.name == name then (if e.streaming then Some(e.time) else None)
      else StartOf(history[..|history| - 1], name)
  }

  /** A name is live when its last push started it no longer than the limit ago. */
  predicate IsLive(history: seq<Event>, staleMs: int, name: string, now: int) {
    StartOf(history, name).Some? && now - StartOf(history, name).value <= staleMs
  }

  ghost predicate AnyLive(history: seq<Event>, staleMs: int, now: int) {
    exists name :: IsLive(history, staleMs, name, now)
  }

  function Recorded(history: seq<Event>, e: Event): seq<Event> { history + [e] }

  lemma StartAfter(history: seq<Event>, e: Event, name: string)
    ensures StartOf(Recorded(history, e), name)
         == if e.name == name then (if e.streaming then Some(e.time) else None) else StartOf(history, name)
  {
    assert (history + [e])[..|history|] == history;
  }

  /** Staleness only grows: with a clock that never goes back, what may be forgotten stays
      dead until it is pushed again. */
  lemma StaleForGood(history: seq<Event>, staleMs: int, name: string, now: int, later: int)
    requires now <= later && !IsLive(history, staleMs, name, now)
    ensures !IsLive(history, staleMs, name, later)
  {
  }

  predicate NonDecreasing(readings: seq<int>) { forall i, j :: 0 <= i <= j < |readings| ==> readings[i] <= readings[j] }

  /** The names in order without one of them. */
  function Without(names: seq<string>, name: string): (r: seq<string>)
    ensures forall n :: n in r <==> n in names && n != name
  {
    if names == [] then []
    else
      var front, last := Without(names[..|names| - 1], name), names[|names| - 1];
      assert names == names[..|names| - 1] + [last];
      if last == name then front else front + [last]
  }

  lemma {:induction false} WithoutDistinct(names: seq<string>, name: string)
    requires Distinct(names)
    ensures Distinct(Without(names, name))
  {
    if names != [] {
      var front, last := names[..|names| - 1], names[|names| - 1];
      WithoutDistinct(front, name);
      assert last !in front;
    }
  }

  lemma NotStarted(history: seq<Event>, staleMs: int, name: string, now: int)
    requires StartOf(history, name) == None
    ensures !IsLive(history, staleMs, name, now)
  {
  }

  lemma LiveEarlier(history: seq<Event>, staleMs: int, name: string, now: int, later: int)
    requires now <= later && IsLive(history, staleMs, name, later)
    ensures IsLive(history, staleMs, name, now)
  {
  }

  /** A push changes what is live of its own name only. */
  lemma PushedOther(history: seq<Event>, e: Event, staleMs: int, name: string, now: int)
    requires e.name != name
    ensures IsLive(Recorded(history, e), staleMs, name, now) == IsLive(history, staleMs, name, now)
    ensures StartOf(Recorded(history, e), name) == StartOf(history, name)
  {
    StartAfter(history, e, name);
  }

  predicate Distinct(names: seq<string>) { forall i, j :: 0 <= i < j < |names| ==> names[i] != names[j] }

  /** The map holds the start of a name, or the name is dead, and was at the last reading. */
  ghost predicate Holds(since: map<string, int>, order: seq<string>, history: seq<Event>, staleMs: int, clock: int) {
    && Distinct(order) && (forall n :: n in order <==> n in since)
    && (forall n :: n in since ==> StartOf(history, n) == Some(since[n]))
    && (forall n :: n !in since ==> !IsLive(history, staleMs, n, clock))
  }

  lemma StartHolds(since: map<string, int>, order: seq<string>, history: seq<Event>, staleMs: int, clock: int,
                   name: string, now: int)
    requires Holds(since, order, history, staleMs, clock) && clock <= now
    ensures Holds(since[name := now], if name in since then order else order + [name],
                  Recorded(history, Event(name, true, now)), staleMs, now)
  {
    var e := Event(name, true, now);
    StartAfter(history, e, name);
    forall n | n != name
      ensures StartOf(Recorded(history, e), n) == StartOf(history, n)
      ensures n !in since ==> !IsLive(Recorded(history, e), staleMs, n, now)
    {
      PushedOther(history, e, staleMs, n, now);
      if n !in since { StaleForGood(history, staleMs, n, clock, now); }
    }
    hide StartOf, IsLive;
  }

  lemma StopHolds(since: map<string, int>, order: seq<string>, history: seq<Event>, staleMs: int, clock: int,
                  name: string, now: int)
    requires Holds(since, order, history, staleMs, clock)
    ensures Holds(since - {name}, Without(order, name), Recorded(history, Event(name, false, now)), staleMs, clock)
  {
    var e := Event(name, false, now);
    StartAfter(history, e, name);
    NotStarted(Recorded(history, e), staleMs, name, clock);
    WithoutDistinct(order, name);
    forall n | n != name
      ensures StartOf(Recorded(history, e), n) == StartOf(history, n)
      ensures IsLive(Recorded(history, e), staleMs, n, clock) == IsLive(history, staleMs, n, clock)
    {
      PushedOther(history, e, staleMs, n, clock);
    }
    hide StartOf, IsLive;
  }

  class Tracker {
    const staleMs: int
    /** The start times, and the names in the order in which they came. */
    var since: map<string, int>
    var order: seq<string>
    /** Every push that counts, and the last time the clock was read. */
    ghost var history: seq<Event>
    ghost var clock: int

    ghost predicate Valid()
      reads this
    {
      Holds(since, order, history, staleMs, clock)
    }

    constructor (staleMs: int := STALE_MS, ghost start: int)
      ensures Valid() && history == [] && clock == start && this.staleMs == staleMs
    {
      this.staleMs := staleMs;
      since, order := map[], [];
      history, clock := [], start;
    }

    /** A push for the viewport of the model itself is ignored. */
    method Push(name: string, streaming: bool, viewportKey: string, now: int)
      requires Valid() && clock <= now
      modifies this
      ensures Valid() && clock == (if viewportKey != "dc-model" && streaming then now else old(clock))
      ensures history == if viewportKey == "dc-model" then old(history)
                         else Recorded(old(history), Event(name, streaming, now))
    {
      if viewportKey == "dc-model" {
        return;
      }
      hide Holds;
      history := Recorded(history, Event(name, streaming, now));
      if streaming {
        StartHolds(since, order, old(history), staleMs, clock, name, now);
        clock := now;
        order := if name in since then order else order + [name];
        since := since[name := now];
      } else {
        StopHolds(since, order, old(history), staleMs, clock, name, now);
        order := Without(order, name);
        since := since - {name};
      }
    }

    method LiveOne(name: string, now: int) returns (live: bool)
      requires Valid() && clock <= now
      modifies this
      ensures Valid() && clock == (if name in old(since) then now else old(clock)) && history == old(history)
      ensures live == IsLive(history, staleMs, name, now)
    {
      if name !in since {
        StaleForGood(history, staleMs, name, clock, now);
        return false;
      }
      clock := now;
      if now - since[name] > staleMs {
        WithoutDistinct(order, name);
        order := Without(order, name);
        since := since - {name};
        return false;
      }
      return true;
    }

    /** `live(name)`: what the full history says, although the map forgets. */
    method Live(name: string, now: int) returns (live: bool)
      requires Valid() && clock <= now
      modifies this
      ensures Valid() && clock <= now && history == old(history)
      ensures live == IsLive(history, staleMs, name, now)
    {
      live := LiveOne(name, now);
    }

    /** `live()`: the names are asked in order, each at a reading of the clock of its own.
        The answer is whether one of them is live at its reading. So whatever the whole
        history holds live when the last name is asked is found, and what is found was live
        when the first one was asked. */
    method LiveAtAll(readings: seq<int>) returns (live: bool)
      requires Valid() && NonDecreasing(readings) && |order| <= |readings|
      requires forall k :: 0 <= k < |readings| ==> clock <= readings[k]
      modifies this
      ensures Valid() && history == old(history)
      ensures live <==> exists k :: 0 <= k < |old(order)| && IsLive(history, staleMs, old(order)[k], readings[k])
      ensures forall now :: old(clock) <= now && (forall k :: 0 <= k < |old(order)| ==> readings[k] <= now) ==>
                AnyLive(history, staleMs, now) ==> live
      ensures forall now :: (forall k :: 0 <= k < |old(order)| ==> now <= readings[k]) ==>
                live ==> AnyLive(history, staleMs, now)
    {
      var names := order;
      ghost var start := clock;
      ghost var known := since;
      ForgottenStayDead(start);
      var i := 0;
      while i < |names|
        invariant i <= |names| && Valid() && history == old(history)
        invariant forall k :: i <= k < |names| ==> clock <= readings[k]
        invariant forall k :: 0 <= k < i ==> !IsLive(history, staleMs, names[k], readings[k])
      {
        live := LiveOne(names[i], readings[i]);
        if live {
          assert IsLive(history, staleMs, names[i], readings[i]);
          forall now | now <= readings[i] ensures AnyLive(history, staleMs, now) {
            LiveEarlier(history, staleMs, names[i], now, readings[i]);
          }
          return;
        }
        i := i + 1;
      }
      forall now | start <= now && (forall k :: 0 <= k < |names| ==> readings[k] <= now)
        ensures !AnyLive(history, staleMs, now)
      {
        forall n ensures !IsLive(history, staleMs, n, now) {
          if n in names {
            var k :| 0 <= k < |names| && names[k] == n;
            StaleForGood(history, staleMs, n, readings[k], now);
          } else {
            assert n !in known;
          }
        }
      }
      return false;
    }

    /** What the map does not hold is dead from now on. */
    lemma ForgottenStayDead(start: int)
      requires Valid() && start == clock
      ensures forall n, now :: n !in since && start <= now ==> !IsLive(history, staleMs, n, now)
    {
      forall n, now | n !in since && start <= now ensures !IsLive(history, staleMs, n, now) {
        StaleForGood(history, staleMs, n, start, now);
      }
    }
  }

  /** The replay looks at the last push of a name only: pushes of other names in between
      change nothing for it. */
  lemma {:induction false} OthersDoNotMatter(history: seq<Event>, later: seq<Event>, name: string)
    requires forall e <- later :: e.name != name
    ensures StartOf(history + later, name) == StartOf(history, name)
  {
    if later == [] {
      assert history + later == history;
    } else {
      OthersDoNotMatter(history, later[..|later| - 1], name);
      assert (history + later)[..|history + later| - 1] == history + later[..|later| - 1];
    }
  }

  /** A name that was started and not pushed since is live for 60 seconds and no longer, whatever
      else was pushed; one that was stopped is not live. */
  lemma LiveForAMinute(history: seq<Event>, name: string, at: int, later: seq<Event>, now: int)
    requires forall e <- later :: e.name != name
    ensures IsLive(history + [Event(name, true, at)] + later, STALE_MS, name, now) <==> now - at <= 60000
    ensures !IsLive(history + [Event(name, false, at)] + later, STALE_MS, name, now)
  {
    OthersDoNotMatter(history + [Event(name, true, at)], later, name);
    OthersDoNotMatter(history + [Event(name, false, at)], later, name);
    StartAfter(history, Event(name, true, at), name);
    StartAfter(history, Event(name, false, at), name);
  }
}
