/**
 The lazily built live analysis engine (internal/speaker/lazy.go). Callers switch it on
 and off and close it under a lock; the slow build runs on a goroutine of its own, and
 both the build and Close release what they hold outside the lock, one release at a time.
 */
module LazyLive {
  import opened Wrappers

  datatype Status = Disabled | Unavailable | Running | Closed

  /** What a finished build hands over; each part needs the one before it. */
  datatype Chain = Chain(engine: bool, analyzer: bool, adapter: bool, feed: bool, failed: bool)

  /** What startEngine can come back with: a full chain, or a failure part of the way. */
  predicate Buildable(c: Chain)
  {
    && (c.analyzer ==> c.engine) && (c.adapter ==> c.analyzer) && (c.feed ==> c.adapter)
    && (!c.failed ==> c.engine && c.analyzer && c.adapter && c.feed)
  }

  /** Closing the analyzer closes its engine; CloseEngine is for an engine without one. */
  datatype Release = StopFeed | CloseAdapter | CloseAnalyzer | CloseEngine

  /** teardown: the releases of a chain, in dependency order. */
  function Teardown(c: Chain): seq<Release>
  {
    (if c.feed then [StopFeed] else []) + (if c.adapter then [CloseAdapter] else [])
    + (if c.analyzer then [CloseAnalyzer] else if c.engine then [CloseEngine] else [])
  }

  /** The background goroutine. */
  datatype Builder =
    | NotStarted
    | Loading
    | Loaded(chain: Chain)
    | Discarding(todo: seq<Release>)
    | Settling(disable: bool)
    | Finished

  /** The call of Close that found the controller open. */
  datatype Closer = NotCalled | Closing(todo: seq<Release>) | Returned

  /** `built`, `builds` and `log` record the history; `installed` is the adapter, analyzer and feed. */
  datatype State = State(
    status: Status, building: bool, closed: bool, desired: bool, installed: Option<Chain>, adapterOn: bool,
    builder: Builder, closer: Closer, builds: nat, built: Option<Chain>, log: seq<Release>)

  function Start(available: bool): State
  {
    State(if available then Disabled else Unavailable, false, false, false, None, false,
          NotStarted, NotCalled, 0, None, [])
  }

  datatype Event =
    | SetEnabled(on: bool)
    | Stats
    | BuildReturns(chain: Chain)   // builder, analyzer, adapter and feed, as far as they came
    | BuildLands                   // startEngine takes the lock
    | BuildReleases                // it tears down what it built, one release at a time
    | BuildSettles                 // it honours a disable that arrived during the load
    | CloseCalled                  // Close takes the lock
    | CloseReleases                // it tears down what was installed
    | CloseReturns

  function Step(s: State, e: Event): State
  {
    match e
    case Stats => s
    case SetEnabled(on) =>
      if s.closed || s.status == Unavailable then s
      else if s.installed.Some? then s.(desired := on, adapterOn := on)
      else if !on then s.(desired := on, status := Disabled)
      else if s.building then s.(desired := on)
      else s.(desired := on, building := true, status := Running, builder := Loading, builds := s.builds + 1)
    case BuildReturns(chain) =>
      if s.builder == Loading && Buildable(chain) then s.(builder := Loaded(chain), built := Some(chain)) else s
    case BuildLands =>
      if !s.builder.Loaded? then s
      else
        var c := s.builder.chain;
        if s.closed || c.failed then
          s.(building := false, status := if s.closed then Closed else Unavailable, builder := Discarding(Teardown(c)))
        else
          s.(building := false, installed := Some(c), adapterOn := true, builder := Settling(!s.desired))
    case BuildReleases =>
      if !s.builder.Discarding? then s
      else if s.builder.todo == [] then s.(builder := Finished)
      else s.(log := s.log + [s.builder.todo[0]], builder := Discarding(s.builder.todo[1..]))
    case BuildSettles =>
      if !s.builder.Settling? then s
      else s.(adapterOn := if s.builder.disable && s.installed.Some? then false else s.adapterOn, builder := Finished)
    case CloseCalled =>
      if s.closed then s
      else s.(closed := true, status := Closed, installed := None, adapterOn := false,
              closer := Closing(match s.installed case Some(c) => Teardown(c) case None => []))
    case CloseReleases =>
      if !s.closer.Closing? || s.closer.todo == [] then s
      else s.(log := s.log + [s.closer.todo[0]], closer := Closing(s.closer.todo[1..]))
    case CloseReturns => if s.closer == Closing([]) then s.(closer := Returned) else s
  }

  function Run(available: bool, events: seq<Event>): State
  {
    if events == [] then Start(available) else Step(Run(available, events[..|events| - 1]), events[|events| - 1])
  }

  /** Releases still owed: by the build, by Close, or later by whoever closes what is installed. */
  function Owed(s: State): seq<Release>
  {
    match s.builder
    case Loaded(c) => Teardown(c)
    case Discarding(todo) => todo
    case _ =>
      if s.installed.Some? then Teardown(s.installed.value)
      else if s.closer.Closing? then s.closer.todo
      else []
  }

  /** Everything released so far, and everything owed, is the teardown of the one chain ever built. */
  predicate Inv(s: State)
  {
    && (s.builds == 0 <==> s.builder == NotStarted) && s.builds <= 1
    && (s.building <==> s.builder == Loading || s.builder.Loaded?)
    && (s.closed <==> s.closer != NotCalled)
    && (s.built.None? <==> s.builder == NotStarted || s.builder == Loading)
    && (s.builder.Loaded? ==> s.built == Some(s.builder.chain))
    && (s.installed.Some? ==> s.installed == s.built && !s.closed && (s.builder.Settling? || s.builder == Finished))
    && (s.closer.Closing? && s.closer.todo != [] ==> s.builder.Settling? || s.builder == Finished)
    && s.log + Owed(s) == (match s.built case Some(c) => Teardown(c) case None => [])
    && (s.builder.Settling? || s.builder == Finished || s.builder.Discarding? ==>
          s.installed.Some? || s.closed || s.status == Unavailable)
  }

  lemma CallKeepsInv(s: State, e: Event)
    requires Inv(s) && (e.SetEnabled? || e.Stats?)
    ensures Inv(Step(s, e))
  {
    hide Teardown, Buildable;
  }

  lemma BuildKeepsInv(s: State, e: Event)
    requires Inv(s) && (e.BuildReturns? || e.BuildSettles?)
    ensures Inv(Step(s, e))
  {
    hide Teardown, Buildable;
  }

  lemma LandKeepsInv(s: State)
    requires Inv(s)
    ensures Inv(Step(s, BuildLands))
  {
    hide Teardown, Buildable;
  }

  lemma DiscardKeepsInv(s: State)
    requires Inv(s)
    ensures Inv(Step(s, BuildReleases))
  {
    hide Teardown, Buildable;
    if s.builder.Discarding? && s.builder.todo != [] { OneReleased(s.log, s.builder.todo); }
  }

  lemma CloseKeepsInv(s: State, e: Event)
    requires Inv(s) && (e.CloseCalled? || e.CloseReturns?)
    ensures Inv(Step(s, e))
  {
    hide Teardown, Buildable;
  }

  lemma CloseReleaseKeepsInv(s: State)
    requires Inv(s)
    ensures Inv(Step(s, CloseReleases))
  {
    hide Teardown, Buildable;
    if s.closer.Closing? && s.closer.todo != [] { OneReleased(s.log, s.closer.todo); }
  }

  /** A release made is a release no longer owed. */
  lemma OneReleased(log: seq<Release>, todo: seq<Release>)
    requires todo != []
    ensures log + [todo[0]] + todo[1..] == log + todo
  {
  }

  lemma StepKeepsInv(s: State, e: Event)
    requires Inv(s)
    ensures Inv(Step(s, e))
  {
    hide Inv, Step;
    match e
    case BuildLands => LandKeepsInv(s);
    case BuildReleases => DiscardKeepsInv(s);
    case CloseReleases => CloseReleaseKeepsInv(s);
    case SetEnabled(_) => CallKeepsInv(s, e);
    case Stats => CallKeepsInv(s, e);
    case BuildReturns(_) => BuildKeepsInv(s, e);
    case BuildSettles => BuildKeepsInv(s, e);
    case CloseCalled => CloseKeepsInv(s, e);
    case CloseReturns => CloseKeepsInv(s, e);
  }

  lemma {:induction false} RunKeepsInv(available: bool, events: seq<Event>)
    ensures Inv(Run(available, events))
  {
    if events == [] {
      assert Inv(Start(available));
    } else {
      RunKeepsInv(available, events[..|events| - 1]);
      StepKeepsInv(Run(available, events[..|events| - 1]), events[|events| - 1]);
    }
  }

  // ---------------------------------------------------------------- main results

  /** How often the engine of a chain has been closed. */
  function EngineCloses(log: seq<Release>): nat
  {
    if log == [] then 0 else (if log[0] in {CloseAnalyzer, CloseEngine} then 1 else 0) + EngineCloses(log[1..])
  }

  lemma TeardownClosesOnce(c: Chain)
    requires c.analyzer ==> c.engine
    ensures EngineCloses(Teardown(c)) == if c.engine then 1 else 0
  {
    var last := if c.analyzer then [CloseAnalyzer] else if c.engine then [CloseEngine] else [];
    var mid := (if c.adapter then [CloseAdapter] else []) + last;
    assert EngineCloses(last) == if c.engine then 1 else 0;
    assert c.adapter ==> mid[1..] == last;
    assert !c.adapter ==> mid == last;
    assert Teardown(c) == (if c.feed then [StopFeed] else []) + mid;
    assert c.feed ==> Teardown(c)[1..] == mid;
    assert !c.feed ==> Teardown(c) == mid;
  }

  /** The builder is called at most once, in every interleaving. */
  lemma BuildsAtMostOnce(available: bool, events: seq<Event>)
    ensures Run(available, events).builds <= 1
  {
    RunKeepsInv(available, events);
  }

  /** At every moment the releases made are the first of the one chain's teardown, in its order:
      feed, then adapter, then analyzer. */
  lemma ReleasesInOrder(available: bool, events: seq<Event>)
    ensures var s := Run(available, events);
            s.log <= (match s.built case Some(c) => Teardown(c) case None => [])
  {
    RunKeepsInv(available, events);
  }

  /** Wherever `later` is logged, `earlier` stands before it. */
  predicate Precedes(log: seq<Release>, earlier: Release, later: Release)
  {
    forall i :: 0 <= i < |log| && log[i] == later ==> earlier in log[..i]
  }

  lemma PrefixPrecedes(log: seq<Release>, all: seq<Release>, earlier: Release, later: Release)
    requires log <= all && Precedes(all, earlier, later)
    ensures Precedes(log, earlier, later)
  {
    forall i | 0 <= i < |log| && log[i] == later ensures earlier in log[..i] {
      assert all[i] == later && all[..i] == log[..i];
    }
  }

  lemma FirstAt(log: seq<Release>, p: nat, earlier: Release, later: Release)
    requires p < |log| && log[p] == earlier && forall i :: 0 <= i <= p ==> log[i] != later
    ensures Precedes(log, earlier, later)
  {
    forall i | 0 <= i < |log| && log[i] == later ensures earlier in log[..i] { assert log[..i][p] == earlier; }
  }

  lemma TeardownOrder(c: Chain)
    ensures c.feed ==> Precedes(Teardown(c), StopFeed, CloseAdapter) && Precedes(Teardown(c), StopFeed, CloseAnalyzer)
    ensures c.adapter ==> Precedes(Teardown(c), CloseAdapter, CloseAnalyzer)
    ensures c.adapter ==> Precedes(Teardown(c), CloseAdapter, CloseEngine)
  {
    hide Precedes;
    var all, p := Teardown(c), if c.feed then 1 else 0;
    if c.feed {
      assert all[0] == StopFeed;
      FirstAt(all, 0, StopFeed, CloseAdapter);
      FirstAt(all, 0, StopFeed, CloseAnalyzer);
    }
    if c.adapter {
      assert all[p] == CloseAdapter && (c.feed ==> all[0] == StopFeed);
      FirstAt(all, p, CloseAdapter, CloseAnalyzer);
      FirstAt(all, p, CloseAdapter, CloseEngine);
    }
  }

  lemma TeardownCounts(c: Chain)
    ensures var m := multiset(Teardown(c));
      && m[StopFeed] == (if c.feed then 1 else 0) && m[CloseAdapter] == (if c.adapter then 1 else 0)
      && m[CloseAnalyzer] == (if c.analyzer then 1 else 0)
      && m[CloseEngine] == (if c.engine && !c.analyzer then 1 else 0)
  {
    var feed := if c.feed then [StopFeed] else [];
    var adapter := if c.adapter then [CloseAdapter] else [];
    var last := if c.analyzer then [CloseAnalyzer] else if c.engine then [CloseEngine] else [];
    assert multiset(Teardown(c)) == multiset(feed) + multiset(adapter) + multiset(last) by {
      assert Teardown(c) == feed + adapter + last;
    }
  }

  /** At every moment of every run: the feed of the chain is stopped before its adapter is closed, and that before
      its analyzer or its bare engine. */
  lemma FeedThenAdapterThenAnalyzer(available: bool, events: seq<Event>)
    ensures var s := Run(available, events);
      && (s.built.None? ==> s.log == [])
      && (s.built.Some? && s.built.value.feed ==>
            Precedes(s.log, StopFeed, CloseAdapter) && Precedes(s.log, StopFeed, CloseAnalyzer))
      && (s.built.Some? && s.built.value.adapter ==>
            Precedes(s.log, CloseAdapter, CloseAnalyzer) && Precedes(s.log, CloseAdapter, CloseEngine))
  {
    hide Teardown, Run, Precedes;
    var s := Run(available, events);
    ReleasesInOrder(available, events);
    if s.built.Some? {
      var c := s.built.value;
      TeardownOrder(c);
      if c.feed {
        PrefixPrecedes(s.log, Teardown(c), StopFeed, CloseAdapter);
        PrefixPrecedes(s.log, Teardown(c), StopFeed, CloseAnalyzer);
      }
      if c.adapter {
        PrefixPrecedes(s.log, Teardown(c), CloseAdapter, CloseAnalyzer);
        PrefixPrecedes(s.log, Teardown(c), CloseAdapter, CloseEngine);
      }
    }
  }

  lemma StepBuildable(s: State, e: Event)
    requires s.built.Some? ==> Buildable(s.built.value)
    ensures Step(s, e).built.Some? ==> Buildable(Step(s, e).built.value)
  {
    hide Teardown;
  }

  lemma {:induction false} BuiltIsBuildable(available: bool, events: seq<Event>)
    ensures var s := Run(available, events); s.built.Some? ==> Buildable(s.built.value)
  {
    hide Teardown, Buildable;
    if events != [] {
      BuiltIsBuildable(available, events[..|events| - 1]);
      StepBuildable(Run(available, events[..|events| - 1]), events[|events| - 1]);
    }
  }

  /** Once Close has returned and no build is in flight, everything built has been released, the engine
      closed exactly once, and nothing is installed. */
  lemma ClosedMeansReleased(available: bool, events: seq<Event>)
    requires var s := Run(available, events);
             s.closer == Returned && s.builder in {NotStarted, Finished}
    ensures var s := Run(available, events);
            && s.installed.None? && s.status == Closed
            && s.log == (match s.built case Some(c) => Teardown(c) case None => [])
            && EngineCloses(s.log) == (if s.built.Some? && s.built.value.engine then 1 else 0)
  {
    var s := Run(available, events);
    RunKeepsInv(available, events);
    BuiltIsBuildable(available, events);
    ClosedStatus(available, events);
    assert s.log + [] == s.log;
    if s.built.Some? { TeardownClosesOnce(s.built.value); }
  }

  /** Once closed and settled, each part of the chain built has been released exactly once, and nothing else: the
      analyzer closes its engine, which is closed by itself only when there is no analyzer. */
  lemma EachPartReleasedOnce(available: bool, events: seq<Event>)
    requires var s := Run(available, events);
             s.closer == Returned && s.builder in {NotStarted, Finished}
    ensures var s := Run(available, events); var m := multiset(s.log);
      if s.built.None? then s.log == []
      else
        var c := s.built.value;
        && m[StopFeed] == (if c.feed then 1 else 0) && m[CloseAdapter] == (if c.adapter then 1 else 0)
        && m[CloseAnalyzer] == (if c.analyzer then 1 else 0)
        && m[CloseEngine] == (if c.engine && !c.analyzer then 1 else 0)
  {
    hide Teardown, Run;
    ClosedMeansReleased(available, events);
    var s := Run(available, events);
    if s.built.Some? { TeardownCounts(s.built.value); }
  }

  /** The first enable of an open, available controller starts the build; once a chain is installed, the adapter
      follows every wish. */
  lemma WishesTakeEffect(available: bool, events: seq<Event>, on: bool)
    requires var s := Run(available, events); !s.closed && s.status != Unavailable
    ensures var s := Run(available, events); var t := Step(s, SetEnabled(on));
      && t.desired == on
      && (on && s.builder == NotStarted ==> t.builder == Loading && t.builds == 1)
      && (s.installed.Some? ==> t.adapterOn == on)
  {
    RunKeepsInv(available, events);
    hide Run, Teardown;
  }

  lemma StepClosed(s: State, e: Event)
    requires s.closed ==> s.status == Closed
    ensures Step(s, e).closed ==> Step(s, e).status == Closed
  {
    hide Teardown;
  }

  lemma {:induction false} ClosedStatus(available: bool, events: seq<Event>)
    ensures var s := Run(available, events); s.closed ==> s.status == Closed
  {
    if events != [] {
      ClosedStatus(available, events[..|events| - 1]);
      StepClosed(Run(available, events[..|events| - 1]), events[|events| - 1]);
    }
  }

  /** An enabled adapter is an installed one, and a build in flight means a controller that may still run. */
  predicate Installable(s: State)
  {
    && (s.adapterOn ==> s.installed.Some?)
    && (s.builder == NotStarted || s.builder == Loading || s.builder.Loaded? ==> s.installed.None?)
    && (s.builder == Loading || s.builder.Loaded? ==> s.status != Unavailable)
  }

  lemma StepInstallable(s: State, e: Event)
    requires Installable(s) && (s.building <==> s.builder == Loading || s.builder.Loaded?)
    ensures Installable(Step(s, e))
  {
    hide Teardown, Buildable;
  }

  lemma {:induction false} RunInstallable(available: bool, events: seq<Event>)
    ensures Installable(Run(available, events))
  {
    hide Teardown, Buildable, Step, Inv, Installable;
    if events == [] {
      StartInstallable(available);
    } else {
      RunInstallable(available, events[..|events| - 1]);
      RunBuilding(available, events[..|events| - 1]);
      StepInstallable(Run(available, events[..|events| - 1]), events[|events| - 1]);
    }
  }

  lemma StartInstallable(available: bool)
    ensures Installable(Start(available))
  {
  }

  lemma RunBuilding(available: bool, events: seq<Event>)
    ensures var s := Run(available, events); s.building <==> s.builder == Loading || s.builder.Loaded?
  {
    RunKeepsInv(available, events);
    hide Run;
  }

  /** The last wish is off, and whatever the build goroutine has done or still does agrees with it. */
  predicate WantsOff(s: State)
  {
    && (s.closed || !s.desired) && Installable(s)
    && (s.builder.Settling? && !s.closed ==> s.builder.disable)
    && (!s.builder.Settling? || s.closed ==> !s.adapterOn)
  }

  lemma StaysOff(s: State, e: Event)
    requires WantsOff(s) && e != SetEnabled(true)
    requires s.building <==> s.builder == Loading || s.builder.Loaded?
    ensures WantsOff(Step(s, e))
  {
    hide Teardown, Buildable;
  }

  /** A disable that arrives during the load wins: however the run goes on without another enable, when the
      build is over the adapter is off, and what was built is installed unless it failed or Close came. */
  lemma {:induction false} DisableDuringLoadWins(available: bool, before: seq<Event>, after: seq<Event>)
    requires var s := Run(available, before); s.builder == Loading && !s.closed
    requires SetEnabled(true) !in after
    ensures var t := Run(available, before + [SetEnabled(false)] + after);
            && WantsOff(t)
            && (t.builder == Finished ==>
                  && !t.adapterOn
                  && (t.closed || t.status == Unavailable || (t.installed.Some? && t.installed == t.built)))
    decreases |after|
  {
    hide Teardown, Buildable, Step, Inv, WantsOff;
    var events := before + [SetEnabled(false)] + after;
    if after == [] {
      assert events[..|events| - 1] == before;
      RunInstallable(available, before);
      RunBuilding(available, before);
      DisabledInLoad(Run(available, before));
    } else {
      var init := after[..|after| - 1];
      assert events[..|events| - 1] == before + [SetEnabled(false)] + init;
      DisableDuringLoadWins(available, before, init);
      RunBuilding(available, events[..|events| - 1]);
      StaysOff(Run(available, events[..|events| - 1]), events[|events| - 1]);
    }
    RunKeepsInv(available, events);
    OffWhenDone(Run(available, events));
  }

  lemma DisabledInLoad(s: State)
    requires Installable(s) && s.builder == Loading && !s.closed
    ensures WantsOff(Step(s, SetEnabled(false)))
  {
    hide Teardown, Buildable;
  }

  lemma OffWhenDone(t: State)
    requires WantsOff(t) && Inv(t)
    ensures t.builder == Finished ==>
      !t.adapterOn && (t.closed || t.status == Unavailable || (t.installed.Some? && t.installed == t.built))
  {
    hide Teardown;
  }

  // ---------------------------------------------------------------- the controller

  lemma ReleaseKeepsInv(s: State, rest: seq<Release>, byBuilder: bool)
    requires Inv(s) && rest != []
    requires if byBuilder then s.builder == Discarding(rest) else s.closer == Closing(rest)
    ensures var t := s.(log := s.log + [rest[0]]);
            Inv(if byBuilder then t.(builder := Discarding(rest[1..])) else t.(closer := Closing(rest[1..])))
  {
    hide Inv, Teardown, Buildable;
    if byBuilder { StepKeepsInv(s, BuildReleases); } else { StepKeepsInv(s, CloseReleases); }
  }

  class Controller {
    var status: Status
    var building: bool
    var closed: bool
    var desired: bool
    var installed: Option<Chain>
    var adapterOn: bool
    ghost var builder: Builder
    ghost var closer: Closer
    ghost var builds: nat
    ghost var built: Option<Chain>
    ghost var log: seq<Release>

    constructor (available: bool)
      ensures View() == Start(available)
    {
      status, building, closed, desired := if available then Disabled else Unavailable, false, false, false;
      installed, adapterOn := None, false;
      builder, closer, builds, built, log := NotStarted, NotCalled, 0, None, [];
    }

    ghost function View(): State
      reads this
    {
      State(status, building, closed, desired, installed, adapterOn, builder, closer, builds, built, log)
    }

    /** SetEnabled; the result says whether to start the build goroutine. */
    method Enable(on: bool) returns (start: bool)
      requires Inv(View())
      modifies this
      ensures View() == Step(old(View()), SetEnabled(on)) && Inv(View())
      ensures start <==> builds == old(builds) + 1
    {
      StepKeepsInv(View(), SetEnabled(on));
      start := false;
      if closed || status == Unavailable { return; }
      desired := on;
      if installed.Some? {
        adapterOn := on;
        return;
      }
      if !on {
        status := Disabled;
        return;
      }
      if building { return; }
      building, status, start := true, Running, true;
      builder, builds := Loading, builds + 1;
    }

    /** The locked part of startEngine, and the teardown of a chain that is not wanted. */
    method Land(chain: Chain)
      requires Inv(View()) && builder == Loaded(chain)
      modifies this
      ensures Inv(View())
      ensures old(closed) || chain.failed ==> log == old(log) + Teardown(chain) && installed == old(installed)
      ensures !old(closed) && !chain.failed ==> installed == Some(chain) && log == old(log) && adapterOn == desired
      ensures builder == Finished && closed == old(closed)
    {
      hide Inv, Teardown;
      StepKeepsInv(View(), BuildLands);
      building := false;
      if closed || chain.failed {
        status := Unavailable;
        if closed { status := Closed; }
        builder := Discarding(Teardown(chain));
        Discard(Teardown(chain));
        return;
      }
      installed, adapterOn := Some(chain), true;
      var wanted := desired;
      builder := Settling(!wanted);
      Settle(wanted);
    }

    /** What was built is not wanted: release it all. */
    method Discard(todo: seq<Release>)
      requires Inv(View()) && builder == Discarding(todo)
      modifies this`log, this`builder, this`closer
      ensures Inv(View()) && builder == Finished && log == old(log) + todo && closer == old(closer)
    {
      hide Inv;
      ReleaseAll(todo, true);
      StepKeepsInv(View(), BuildReleases);
      builder := Finished;
    }

    /** The disable that arrived during the load, if any. */
    method Settle(wanted: bool)
      requires Inv(View()) && builder == Settling(!wanted) && installed.Some? && adapterOn
      modifies this`adapterOn, this`builder
      ensures Inv(View()) && builder == Finished && adapterOn == wanted
    {
      hide Inv;
      StepKeepsInv(View(), BuildSettles);
      if !wanted { adapterOn := false; }
      builder := Finished;
    }

    /** Close: the locked part, then the teardown of what was installed. */
    method CloseAll()
      requires Inv(View())
      modifies this
      ensures Inv(View()) && closed && installed.None?
      ensures old(closed) ==> log == old(log)
      ensures !old(closed) ==>
        log == old(log) + (match old(installed) case Some(c) => Teardown(c) case None => [])
    {
      if closed { return; }
      StepKeepsInv(View(), CloseCalled);
      var owned := installed;
      closed, status, installed, adapterOn := true, Closed, None, false;
      var todo := match owned case Some(c) => Teardown(c) case None => [];
      closer := Closing(todo);
      ReleaseAll(todo, false);
      StepKeepsInv(View(), CloseReturns);
      closer := Returned;
    }

    /** teardown, one release at a time. */
    method ReleaseAll(todo: seq<Release>, ghost byBuilder: bool)
      requires Inv(View())
      requires if byBuilder then builder == Discarding(todo) else closer == Closing(todo)
      modifies this`log, this`builder, this`closer
      ensures Inv(View()) && log == old(log) + todo
      ensures if byBuilder then builder == Discarding([]) && closer == old(closer)
              else closer == Closing([]) && builder == old(builder)
    {
      var rest := todo;
      while rest != []
        invariant Inv(View()) && log + rest == old(log) + todo
        invariant if byBuilder then builder == Discarding(rest) && closer == old(closer)
                  else closer == Closing(rest) && builder == old(builder)
        decreases |rest|
      {
        hide Inv, Step;
        ReleaseKeepsInv(View(), rest, byBuilder);
        assert log + rest == log + [rest[0]] + rest[1..];
        log := log + [rest[0]];
        rest := rest[1..];
        if byBuilder { builder := Discarding(rest); } else { closer := Closing(rest); }
      }
      assert log + [] == log;
    }
  }
}
