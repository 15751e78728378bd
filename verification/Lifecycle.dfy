/** The life of the logic instances behind one streamable component. */
module Lifecycle {
  import opened Options
  import opened JsValues

  // An instance is built when the component is, swapped while rendering when the
  // registry's class changes, and told of mounting, updating and unmounting.

  /** A logic class: the base class, or one the author wrote. */
  datatype Class = Base | User(n: nat)

  /** The registry entry of the component's name as a step finds it. */
  datatype Entry = Entry(logic: Option<Class>, version: nat, hasTemplate: bool)

  /** The author's props by name. */
  type Props = map<string, JsValue>

  /** The names that are compared. */
  function Compared(p: Props): set<string> { p.Keys - {"children"} }

  function PropOf(p: Props, k: string): JsValue { if k in p then p[k] else Undefined }

  /** As many names, and each of the first has the same value in the second, absent ones
      being undefined. */
  predicate ShallowEqual(a: Props, b: Props) {
    |Compared(a)| == |Compared(b)| && forall k <- Compared(a) :: StrictlyEqual(a[k], PropOf(b, k))
  }

  /** Props differ from themselves exactly when one that is compared is not a number. */
  lemma SelfEqualIff(p: Props)
    ensures ShallowEqual(p, p) <==> forall k <- Compared(p) :: p[k] != NaN
  {
    forall k <- Compared(p) ensures StrictlyEqual(p[k], PropOf(p, k)) <==> p[k] != NaN {
    }
    if forall k <- Compared(p) :: p[k] != NaN {
      assert forall k <- Compared(p) :: StrictlyEqual(p[k], PropOf(p, k));
    }
  }

  /** What is remembered of a construction that threw. */
  datatype Failure = Failure(class_: Class, version: nat, props: Props)

  /** A call made on a logic instance. */
  datatype Call = DidMount(id: nat) | DidUpdate(id: nat) | WillUnmount(id: nat)

  /** Where React has the component: not committed yet, committed, or removed. */
  datatype Phase = Fresh | Mounted | Gone

  datatype State = State(
    phase: Phase, logic: nat, class_: Class, needsDidMount: bool,
    failure: Option<Failure>, hasError: bool, nextId: nat, calls: seq<Call>)

  /** What React and the registry do to a component. `throws` is whether the author's
      constructor throws, should one be run. */
  datatype Action =
    | Render(entry: Entry, props: Props, cycle: bool, throws: bool)
    | Commit(entry: Entry)
    | Unmount
    | Crash
    | Notify

  // The logic instance.

  function ClassOf(logic: Option<Class>): Class { if logic.Some? then logic.value else Base }

  /** A new instance; a constructor that throws leaves an instance of the base class and
      a note of the attempt. */
  function MakeLogic(st: State, entry: Entry, props: Props, throws: bool): State {
    var c := ClassOf(entry.logic);
    if throws && c != Base
    then st.(logic := st.nextId, class_ := Base, nextId := st.nextId + 1,
             failure := Some(Failure(c, entry.version, props)))
    else st.(logic := st.nextId, class_ := c, nextId := st.nextId + 1, failure := None)
  }

  function Created(entry: Entry, props: Props, throws: bool): State {
    MakeLogic(State(Fresh, 0, Base, false, None, false, 0, []), entry, props, throws)
  }

  /** The registry still has the class of this instance, or one that is known to fail. */
  predicate Keeps(st: State, entry: Entry, props: Props) {
    || entry.logic == Some(st.class_)
    || (entry.logic == None && st.class_ == Base)
    || (st.failure.Some? && entry.logic == Some(st.failure.value.class_)
        && entry.version == st.failure.value.version
        && ShallowEqual(props, st.failure.value.props))
  }

  function Reconcile(st: State, entry: Entry, props: Props, throws: bool): State {
    if Keeps(st, entry, props) then st
    else
      var left := if st.needsDidMount then st else st.(calls := st.calls + [WillUnmount(st.logic)]);
      MakeLogic(left, entry, props, throws).(needsDidMount := true)
  }

  // Steps.

  function Committed(st: State, entry: Entry): State {
    match st.phase
    case Fresh => st.(phase := Mounted, calls := st.calls + [DidMount(st.logic)])
    case _ =>
      if st.needsDidMount then
        if st.hasError || !entry.hasTemplate then st
        else st.(needsDidMount := false, calls := st.calls + [DidMount(st.logic)])
      else st.(calls := st.calls + [DidUpdate(st.logic)])
  }

  function Step(st: State, a: Action): State {
    match a
    case Render(entry, props, cycle, throws) =>
      if cycle || st.hasError then st else Reconcile(st, entry, props, throws)
    case Commit(entry) => Committed(st, entry)
    case Unmount =>
      var left := if st.needsDidMount then st else st.(calls := st.calls + [WillUnmount(st.logic)]);
      left.(phase := Gone)
    case Crash => st.(hasError := true)
    case Notify => st.(hasError := false)
  }

  /** React neither renders nor commits a component it removed, removes only one it
      committed, and the registry notifies only one that subscribed on its first commit. */
  predicate Enabled(st: State, a: Action) {
    match a
    case Render(_, _, _, _) => !st.phase.Gone?
    case Commit(_) => !st.phase.Gone?
    case Unmount => st.phase.Mounted?
    case Crash => !st.phase.Gone?
    case Notify => st.phase.Mounted?
  }

  predicate IsRun(st: State, actions: seq<Action>)
    decreases |actions|
  {
    actions != [] ==> Enabled(st, actions[0]) && IsRun(Step(st, actions[0]), actions[1..])
  }

  function After(st: State, actions: seq<Action>): State
    decreases |actions|
  {
    if actions == [] then st else After(Step(st, actions[0]), actions[1..])
  }

  /** This step swaps the instance. */
  predicate Swaps(st: State, a: Action) {
    a.Render? && !a.cycle && !st.hasError && !Keeps(st, a.entry, a.props)
  }

  /** Somewhere in the run an instance is swapped before the first commit. */
  predicate SwapsEarly(st: State, actions: seq<Action>)
    decreases |actions|
  {
    actions != [] && ((st.phase.Fresh? && Swaps(st, actions[0])) || SwapsEarly(Step(st, actions[0]), actions[1..]))
  }

  // What an instance may be told.

  datatype Stage = Unseen | Live | Ended | Broken

  function Told(s: Stage, c: Call): Stage {
    match (s, c)
    case (Unseen, DidMount(_)) => Live
    case (Live, DidUpdate(_)) => Live
    case (Live, WillUnmount(_)) => Ended
    case _ => Broken
  }

  /** The stage an instance has reached: one mount, then updates, then one unmount. */
  function StageOf(calls: seq<Call>, id: nat): Stage {
    if calls == [] then Unseen
    else
      var s := StageOf(calls[..|calls| - 1], id);
      var c := calls[|calls| - 1];
      if c.id == id then Told(s, c) else s
  }

  ghost predicate Clean(calls: seq<Call>) { forall id: nat :: StageOf(calls, id) != Broken }

  function Count(calls: seq<Call>, c: Call): nat {
    if calls == [] then 0 else Count(calls[..|calls| - 1], c) + (if calls[|calls| - 1] == c then 1 else 0)
  }

  /** A clean history in numbers: each instance is mounted at most once, unmounted at most
      once, and unmounted only if it was mounted. */
  lemma {:induction false} CleanCounts(calls: seq<Call>, id: nat)
    requires StageOf(calls, id) != Broken
    ensures Count(calls, DidMount(id)) <= 1
    ensures Count(calls, WillUnmount(id)) <= Count(calls, DidMount(id))
    ensures Count(calls, DidMount(id)) == (if StageOf(calls, id) == Unseen then 0 else 1)
    ensures Count(calls, WillUnmount(id)) == (if StageOf(calls, id) == Ended then 1 else 0)
  {
    if calls != [] {
      CleanCounts(calls[..|calls| - 1], id);
    }
  }

  lemma StageAfter(calls: seq<Call>, c: Call, id: nat)
    ensures StageOf(calls + [c], id) == if c.id == id then Told(StageOf(calls, id), c) else StageOf(calls, id)
  {
    assert (calls + [c])[..|calls|] == calls;
  }

  /** What holds of a component in each phase while no instance was swapped early: the
      current instance is live unless it still waits for its mount, later ids are new,
      and before the first commit nobody was told anything. */
  ghost predicate Sound(st: State) {
    && Clean(st.calls)
    && st.logic < st.nextId
    && (forall id: nat :: id >= st.nextId ==> StageOf(st.calls, id) == Unseen)
    && (st.phase.Fresh? ==> !st.needsDidMount && StageOf(st.calls, st.logic) == Unseen)
    && (st.phase.Mounted? ==> StageOf(st.calls, st.logic) == (if st.needsDidMount then Unseen else Live))
    && (forall id: nat :: StageOf(st.calls, id) == Live ==> st.phase.Mounted? && id == st.logic)
    && (st.failure.Some? ==> st.class_ == Base)
  }

  lemma CreatedSound(entry: Entry, props: Props, throws: bool)
    ensures Sound(Created(entry, props, throws)) && Created(entry, props, throws).phase.Fresh?
  {
  }

  lemma CallKeeps(st: State, c: Call)
    requires Sound(st) && c.id == st.logic && Told(StageOf(st.calls, c.id), c) != Broken
    ensures Clean(st.calls + [c])
    ensures forall id: nat :: id != c.id ==> StageOf(st.calls + [c], id) == StageOf(st.calls, id)
    ensures StageOf(st.calls + [c], c.id) == Told(StageOf(st.calls, c.id), c)
  {
    forall id: nat
      ensures StageOf(st.calls + [c], id) ==
              if c.id == id then Told(StageOf(st.calls, id), c) else StageOf(st.calls, id)
    {
      StageAfter(st.calls, c, id);
    }
  }

  /** Every step but an early swap keeps the component sound. */
  lemma StepSound(st: State, a: Action)
    requires Sound(st) && Enabled(st, a)
    requires !(st.phase.Fresh? && Swaps(st, a))
    ensures Sound(Step(st, a))
  {
    hide StageOf;
    match a {
      case Render(entry, props, cycle, throws) =>
        if Swaps(st, a) && !st.needsDidMount {
          CallKeeps(st, WillUnmount(st.logic));
        }
      case Commit(entry) =>
        if st.phase.Fresh? || (st.needsDidMount && !st.hasError && entry.hasTemplate) {
          CallKeeps(st, DidMount(st.logic));
        } else if !st.needsDidMount {
          CallKeeps(st, DidUpdate(st.logic));
        }
      case Unmount =>
        if !st.needsDidMount {
          CallKeeps(st, WillUnmount(st.logic));
        }
      case Crash =>
      case Notify =>
    }
  }

  /** The first early swap tells an instance to unmount that was never mounted. */
  lemma EarlySwapBreaks(st: State, a: Action)
    requires Sound(st) && st.phase.Fresh? && Swaps(st, a)
    ensures !Clean(Step(st, a).calls)
  {
    StageAfter(st.calls, WillUnmount(st.logic), st.logic);
    assert StageOf(Step(st, a).calls, st.logic) == Broken;
  }

  /** Steps only add calls. */
  lemma StepExtends(st: State, a: Action)
    ensures |st.calls| <= |Step(st, a).calls| <= |st.calls| + 1 && Step(st, a).calls[..|st.calls|] == st.calls
  {
  }

  lemma BrokenStays(st: State, a: Action)
    requires !Clean(st.calls)
    ensures !Clean(Step(st, a).calls)
  {
    StepExtends(st, a);
    var id: nat :| StageOf(st.calls, id) == Broken;
    var calls := Step(st, a).calls;
    if |calls| > |st.calls| {
      assert calls == st.calls + [calls[|st.calls|]];
      StageAfter(st.calls, calls[|st.calls|], id);
    } else {
      assert calls == st.calls;
    }
    assert StageOf(calls, id) == Broken;
  }

  lemma {:induction false} BrokenForever(st: State, actions: seq<Action>)
    requires !Clean(st.calls)
    ensures !Clean(After(st, actions).calls)
    decreases |actions|
  {
    hide Step, Clean;
    if actions != [] {
      BrokenStays(st, actions[0]);
      BrokenForever(Step(st, actions[0]), actions[1..]);
    }
  }

  lemma {:induction false} RunIff(st: State, actions: seq<Action>)
    requires Sound(st) && IsRun(st, actions)
    ensures Clean(After(st, actions).calls) <==> !SwapsEarly(st, actions)
    decreases |actions|
  {
    hide Step, Swaps, Clean, Enabled;
    if actions == [] {
    } else {
      var a := actions[0];
      if st.phase.Fresh? && Swaps(st, a) {
        EarlySwapBreaks(st, a);
        BrokenForever(Step(st, a), actions[1..]);
      } else {
        StepSound(st, a);
        RunIff(Step(st, a), actions[1..]);
      }
    }
  }

  /** The exact condition: in every run of renders, commits, hot swaps, failing
      constructors, crashes and the removal, every logic instance is mounted once, then
      updated, then unmounted once, in that order, if and only if no instance is swapped
      before the first commit. */
  lemma LifecycleIff(entry: Entry, props: Props, throws: bool, actions: seq<Action>)
    requires IsRun(Created(entry, props, throws), actions)
    ensures Clean(After(Created(entry, props, throws), actions).calls)
       <==> !SwapsEarly(Created(entry, props, throws), actions)
  {
    CreatedSound(entry, props, throws);
    RunIff(Created(entry, props, throws), actions);
  }

  lemma {:induction false} RunSound(st: State, actions: seq<Action>)
    requires Sound(st) && IsRun(st, actions) && !SwapsEarly(st, actions)
    ensures Sound(After(st, actions))
    decreases |actions|
  {
    hide Step, Swaps, Sound, Enabled;
    if actions != [] {
      StepSound(st, actions[0]);
      RunSound(Step(st, actions[0]), actions[1..]);
    }
  }

  /** Nobody is forgotten either: while the component is there only its current instance
      can be live, and once it is gone every instance that was mounted was unmounted. */
  lemma NobodyLeftMounted(entry: Entry, props: Props, throws: bool, actions: seq<Action>, id: nat)
    requires IsRun(Created(entry, props, throws), actions) && !SwapsEarly(Created(entry, props, throws), actions)
    ensures var st := After(Created(entry, props, throws), actions);
            && (StageOf(st.calls, id) == Live ==> st.phase.Mounted? && id == st.logic)
            && (st.phase.Gone? ==> Count(st.calls, WillUnmount(id)) == Count(st.calls, DidMount(id)))
  {
    CreatedSound(entry, props, throws);
    RunSound(Created(entry, props, throws), actions);
    var st := After(Created(entry, props, throws), actions);
    CleanCounts(st.calls, id);
    hide After, StageOf, Count;
  }

  /** The note of failure is of this class at this version, built with these props or such
      as compare equal to them. */
  predicate KnownToFail(st: State, entry: Entry, props: Props) {
    && st.failure.Some? && st.failure.value.class_ == ClassOf(entry.logic) && st.failure.value.version == entry.version
    && (props == st.failure.value.props || ShallowEqual(props, st.failure.value.props))
  }

  /** The render is followed up: it leaves an instance of the registry's class, or of the
      base class where that class is known to fail, and the next commit without an error
      and with a template leaves that instance mounted. */
  lemma RenderThenCommit(st: State, entry: Entry, props: Props, throws: bool, later: Entry)
    requires Sound(st) && !st.phase.Gone? && !st.hasError && later.hasTemplate
    requires !(st.phase.Fresh? && Swaps(st, Render(entry, props, false, throws)))
    ensures var drawn := Step(st, Render(entry, props, false, throws));
            var shown := Step(drawn, Commit(later));
            && (drawn.class_ == ClassOf(entry.logic)
                || (drawn.class_ == Base && KnownToFail(drawn, entry, props)))
            && shown.logic == drawn.logic && !shown.needsDidMount && StageOf(shown.calls, shown.logic) == Live
  {
    var render := Render(entry, props, false, throws);
    StepSound(st, render);
    var drawn := Step(st, render);
    StepSound(drawn, Commit(later));
    hide StageOf;
  }

  // What each step does, said of the instance that is there.

  /** Main result: the first commit tells the instance of its mount, and so does the first one
      after a swap that finds no error and a template; any other commit of an instance that does
      not wait tells it of an update. Nothing else is told, and nobody is replaced. */
  lemma CommitTells(st: State, entry: Entry)
    requires Enabled(st, Commit(entry))
    ensures var st' := Step(st, Commit(entry));
            && st'.calls == st.calls + (if st.phase.Fresh? then [DidMount(st.logic)]
                                        else if !st.needsDidMount then [DidUpdate(st.logic)]
                                        else if !st.hasError && entry.hasTemplate then [DidMount(st.logic)] else [])
            && st'.phase == Mounted && st'.logic == st.logic && st'.class_ == st.class_
            && st'.failure == st.failure && st'.nextId == st.nextId && st'.hasError == st.hasError
            && (st'.needsDidMount <==> st.needsDidMount && (st.phase.Fresh? || st.hasError || !entry.hasTemplate))
  {
  }

  /** A render replaces the instance exactly if the registry's class is another one and is not
      known to fail with this version and these props; the old instance is told to unmount unless
      it still waits, the new one waits, and a constructor that throws leaves one of the base
      class and is remembered. */
  lemma RenderReplaces(st: State, entry: Entry, props: Props, cycle: bool, throws: bool)
    ensures var st', wanted := Step(st, Render(entry, props, cycle, throws)),
                               if entry.logic.Some? then entry.logic.value else Base;
            var failed := throws && wanted != Base;
            if cycle || st.hasError || wanted == st.class_
               || (st.failure.Some? && entry.logic == Some(st.failure.value.class_)
                   && entry.version == st.failure.value.version && ShallowEqual(props, st.failure.value.props))
            then st' == st
            else st' == State(st.phase, st.nextId, if failed then Base else wanted, true,
                              if failed then Some(Failure(wanted, entry.version, props)) else None, false,
                              st.nextId + 1,
                              if st.needsDidMount then st.calls else st.calls + [WillUnmount(st.logic)])
  {
    hide ShallowEqual;
  }

  /** The removal tells the instance to unmount unless it still waits for its mount. */
  lemma RemovalTells(st: State)
    ensures var st' := Step(st, Unmount);
            && st'.phase == Gone && st'.logic == st.logic
            && st'.calls == if st.needsDidMount then st.calls else st.calls + [WillUnmount(st.logic)]
  {
  }

  /** A crash is remembered until the registry notifies the component, and tells nobody. */
  lemma CrashesAre(st: State)
    ensures Step(st, Crash) == st.(hasError := true) && Step(st, Notify) == st.(hasError := false)
  {
  }

  /** Props are compared name by name, but for the children; names that are missing count as
      undefined. */
  lemma ComparedShallowly(a: Props, b: Props)
    ensures ShallowEqual(a, b) <==>
            && |a.Keys - {"children"}| == |b.Keys - {"children"}|
            && forall k <- a :: k != "children" ==> StrictlyEqual(a[k], if k in b then b[k] else Undefined)
  {
  }

  /** A new component has told nobody, and holds an instance of the registry's class, or of the
      base class and a note if its constructor throws. */
  lemma CreatedIs(entry: Entry, props: Props, throws: bool)
    ensures var st, wanted := Created(entry, props, throws), if entry.logic.Some? then entry.logic.value else Base;
            var failed := throws && wanted != Base;
            st == State(Fresh, 0, if failed then Base else wanted, false,
                        if failed then Some(Failure(wanted, entry.version, props)) else None, false, 1, [])
  {
  }

  /** Before the first commit: the renders see the entry's class, its version and the
      props that the constructor saw. */
  predicate SteadyUntilCommit(entry: Entry, props: Props, actions: seq<Action>) {
    actions != [] && !actions[0].Commit? ==>
      && (actions[0].Render? ==> actions[0].entry.logic == entry.logic && actions[0].entry.version == entry.version
                                 && actions[0].props == props)
      && SteadyUntilCommit(entry, props, actions[1..])
  }

  /** A render that reaches the logic comes before the first commit. */
  predicate DrawnBeforeCommit(actions: seq<Action>) {
    actions != [] && !actions[0].Commit? && !actions[0].Crash?
    && ((actions[0].Render? && !actions[0].cycle) || DrawnBeforeCommit(actions[1..]))
  }

  /** A component whose registry entry and props hold still until the first commit swaps
      early if and only if its constructor throws, a prop is not a number and so differs from
      itself, and it is drawn before the commit. */
  lemma SteadySwapsEarlyIff(entry: Entry, props: Props, throws: bool, actions: seq<Action>)
    requires IsRun(Created(entry, props, throws), actions) && SteadyUntilCommit(entry, props, actions)
    ensures SwapsEarly(Created(entry, props, throws), actions) <==>
            && throws && entry.logic.Some? && entry.logic.value != Base
            && (exists k <- props :: k != "children" && props[k] == NaN) && DrawnBeforeCommit(actions)
  {
    SelfEqualIff(props);
    SteadyFrom(entry, props, throws, actions);
  }

  lemma {:induction false} SteadyFrom(entry: Entry, props: Props, throws: bool, actions: seq<Action>)
    requires IsRun(Created(entry, props, throws), actions) && SteadyUntilCommit(entry, props, actions)
    ensures SwapsEarly(Created(entry, props, throws), actions) <==>
            Created(entry, props, throws).failure.Some? && !ShallowEqual(props, props) && DrawnBeforeCommit(actions)
    decreases |actions|
  {
    hide ShallowEqual;
    var st := Created(entry, props, throws);
    if actions != [] {
      if actions[0].Commit? {
        MountedNeverSwapsEarly(Step(st, actions[0]), actions[1..]);
      } else if actions[0].Crash? {
        CrashedNeverSwapsEarly(Step(st, actions[0]), actions[1..]);
      } else if !Swaps(st, actions[0]) {
        SteadyFrom(entry, props, throws, actions[1..]);
      }
    }
  }

  /** Once it crashed, nothing is drawn before the first commit. */
  lemma {:induction false} CrashedNeverSwapsEarly(st: State, actions: seq<Action>)
    requires st.hasError && IsRun(st, actions)
    ensures !SwapsEarly(st, actions)
    decreases |actions|
  {
    if actions != [] {
      if !st.phase.Fresh? {
        MountedNeverSwapsEarly(st, actions);
      } else {
        CrashedNeverSwapsEarly(Step(st, actions[0]), actions[1..]);
      }
    }
  }

  lemma {:induction false} MountedNeverSwapsEarly(st: State, actions: seq<Action>)
    requires !st.phase.Fresh?
    ensures !SwapsEarly(st, actions)
    decreases |actions|
  {
    if actions != [] {
      MountedNeverSwapsEarly(Step(st, actions[0]), actions[1..]);
    }
  }

  lemma RunFront(st: State, a: Action, rest: seq<Action>)
    requires Enabled(st, a)
    ensures IsRun(st, [a] + rest) <==> IsRun(Step(st, a), rest)
    ensures After(st, [a] + rest) == After(Step(st, a), rest)
  {
    assert ([a] + rest)[0] == a && ([a] + rest)[1..] == rest;
    hide Step, Enabled;
  }

  /** A class that the registry only knew once the component was built. */
  const ARRIVED := Entry(Some(User(0)), 1, true)

  /** How far the run below has come after each of its steps. */
  function Arriving(k: nat): State
    requires k <= 4
  {
    match k
    case 0 => State(Fresh, 0, Base, false, None, false, 1, [])
    case 1 => State(Fresh, 1, User(0), true, None, false, 2, [WillUnmount(0)])
    case 2 => State(Mounted, 1, User(0), true, None, false, 2, [WillUnmount(0), DidMount(1)])
    case 3 => Arriving(2)
    case 4 => State(Mounted, 1, User(0), false, None, false, 2, [WillUnmount(0), DidMount(1), DidMount(1)])
  }

  lemma ArrivingSteps()
    ensures Created(Entry(None, 0, true), map[], false) == Arriving(0)
    ensures Step(Arriving(0), Render(ARRIVED, map[], false, false)) == Arriving(1)
    ensures Step(Arriving(1), Commit(ARRIVED)) == Arriving(2)
    ensures Step(Arriving(2), Render(ARRIVED, map[], false, false)) == Arriving(3)
    ensures Step(Arriving(3), Commit(ARRIVED)) == Arriving(4)
  {
  }

  /** The condition is needed: the class arrives between construction and the first
      commit, the base instance is told to unmount without ever having been mounted, and
      the new one is mounted twice. */
  lemma LateClassMountsTwice()
    ensures var start := Created(Entry(None, 0, true), map[], false);
            var render, commit := Render(ARRIVED, map[], false, false), Commit(ARRIVED);
            var run := [render, commit, render, commit];
            && IsRun(start, run)
            && After(start, run).calls == [WillUnmount(0), DidMount(1), DidMount(1)]
  {
    var render, commit := Render(ARRIVED, map[], false, false), Commit(ARRIVED);
    assert IsRun(Arriving(4), []) && After(Arriving(4), []) == Arriving(4);
    hide IsRun, After, Step, Created;
    ArrivingSteps();
    RunFront(Arriving(3), commit, []);
    RunFront(Arriving(2), render, [commit]);
    RunFront(Arriving(1), commit, [render, commit]);
    RunFront(Arriving(0), render, [commit, render, commit]);
    assert [commit] + [] == [commit];
    assert [render] + [commit] == [render, commit];
    assert [commit] + [render, commit] == [commit, render, commit];
    assert [render] + [commit, render, commit] == [render, commit, render, commit];
  }

  /** The component, whose fields the methods overwrite. */
  class StreamableComponent {
    var phase: Phase
    var logic: nat
    var logicClass: Class
    var needsDidMount: bool
    var failure: Option<Failure>
    var hasError: bool
    var nextId: nat
    var calls: seq<Call>

    function Now(): State
      reads this
    {
      State(phase, logic, logicClass, needsDidMount, failure, hasError, nextId, calls)
    }

    constructor (entry: Entry, props: Props, throws: bool)
      ensures Now() == Created(entry, props, throws)
    {
      phase, needsDidMount, failure, hasError, nextId, calls := Fresh, false, None, false, 0, [];
      logic, logicClass := 0, Base;
      new;
      BuildLogic(entry, props, throws);
    }

    method BuildLogic(entry: Entry, props: Props, throws: bool)
      modifies this
      ensures Now() == MakeLogic(old(Now()), entry, props, throws)
    {
      var c := ClassOf(entry.logic);
      logic := nextId;
      nextId := nextId + 1;
      if throws && c != Base {
        failure := Some(Failure(c, entry.version, props));
        logicClass := Base;
      } else {
        logicClass := c;
        failure := None;
      }
    }

    method ReconcileLogic(entry: Entry, props: Props, throws: bool)
      modifies this
      ensures Now() == Reconcile(old(Now()), entry, props, throws)
    {
      if Keeps(Now(), entry, props) {
        return;
      }
      if !needsDidMount {
        calls := calls + [WillUnmount(logic)];
      }
      BuildLogic(entry, props, throws);
      needsDidMount := true;
    }

    method RenderOnce(entry: Entry, props: Props, cycle: bool, throws: bool)
      modifies this
      ensures Now() == Step(old(Now()), Render(entry, props, cycle, throws))
    {
      if cycle {
        return;
      }
      if hasError {
        return;
      }
      ReconcileLogic(entry, props, throws);
    }

    method ComponentDidMount(entry: Entry)
      requires phase.Fresh?
      modifies this
      ensures Now() == Step(old(Now()), Commit(entry))
    {
      phase := Mounted;
      calls := calls + [DidMount(logic)];
    }

    method ComponentDidUpdate(entry: Entry)
      requires phase.Mounted?
      modifies this
      ensures Now() == Step(old(Now()), Commit(entry))
    {
      if needsDidMount {
        if hasError || !entry.hasTemplate {
          return;
        }
        needsDidMount := false;
        calls := calls + [DidMount(logic)];
      } else {
        calls := calls + [DidUpdate(logic)];
      }
    }

    method ComponentWillUnmount()
      requires phase.Mounted?
      modifies this
      ensures Now() == Step(old(Now()), Unmount)
    {
      phase := Gone;
      if !needsDidMount {
        calls := calls + [WillUnmount(logic)];
      }
    }

    method DerivedStateFromError()
      modifies this
      ensures Now() == Step(old(Now()), Crash)
    {
      hasError := true;
    }

    method Notified()
      modifies this
      ensures Now() == Step(old(Now()), Notify)
    {
      if hasError {
        hasError := false;
      }
    }
  }
}
