/**
 Retrying undelivered meeting routes (internal/meeting/sweep.go) and reporting them
 (routeStatus in internal/meeting/index.go). Both fold the same append-only event stream;
 each delivery attempt appends its outcome to that stream.
 */
module RouteSweep {
  import opened Wrappers

  /** The events that matter; a session end carries its time if that parses, in nanoseconds. */
  datatype Event =
    | RoutePlan(target: string)
    | SessionEnd(at: Option<int>)
    | Routed
    | RouteFailed
    | Other

  const SWEEP_WINDOW: int := 14 * 24 * 3600 * 1_000_000_000
  const SWEEP_MAX_ATTEMPTS := 3

  // ---------------------------------------------------------------- the folds

  function LastPlan(es: seq<Event>): string
  {
    if es == [] then ""
    else if es[|es| - 1].RoutePlan? then es[|es| - 1].target
    else LastPlan(es[..|es| - 1])
  }

  /** The last session end whose time parses. */
  function LastParsedEnd(es: seq<Event>): Option<int>
  {
    if es == [] then None
    else if es[|es| - 1].SessionEnd? && es[|es| - 1].at.Some? then es[|es| - 1].at
    else LastParsedEnd(es[..|es| - 1])
  }

  /** The time of the last session end, if it parses. */
  function LastEnd(es: seq<Event>): Option<int>
  {
    if es == [] then None
    else if es[|es| - 1].SessionEnd? then es[|es| - 1].at
    else LastEnd(es[..|es| - 1])
  }

  function Failures(es: seq<Event>): nat
  {
    if es == [] then 0 else Failures(es[..|es| - 1]) + (if es[|es| - 1] == RouteFailed then 1 else 0)
  }

  predicate Planned(es: seq<Event>) { exists i :: 0 <= i < |es| && es[i].RoutePlan? }

  predicate Ended(es: seq<Event>) { exists i :: 0 <= i < |es| && es[i].SessionEnd? }

  predicate InWindow(end: Option<int>, now: int) { end.None? || now - end.value <= SWEEP_WINDOW }

  /** pendingRoutePlan: where to deliver, if anywhere. */
  function Pending(es: seq<Event>, now: int): Option<string>
  {
    if LastPlan(es) == "" || !Ended(es) || Routed in es || Failures(es) >= SWEEP_MAX_ATTEMPTS then None
    else if !InWindow(LastParsedEnd(es), now) then None
    else Some(LastPlan(es))
  }

  datatype Status = NotPlanned | StillPlanned | WasRouted | HasFailed

  datatype RouteStatus = RouteStatus(status: Status, attempts: nat, retryable: bool)

  /** routeStatus; an unplanned, undelivered bundle reports no attempts. */
  function StatusOf(es: seq<Event>, ended: bool, now: int): RouteStatus
  {
    var status := if Routed in es then WasRouted
                  else if !Planned(es) then NotPlanned
                  else if Failures(es) > 0 then HasFailed else StillPlanned;
    if status == NotPlanned then RouteStatus(NotPlanned, 0, false)
    else
      RouteStatus(status, Failures(es),
                  && Planned(es) && ended && status != WasRouted && Failures(es) < SWEEP_MAX_ATTEMPTS
                  && InWindow(LastEnd(es), now))
  }

  lemma SumsNext(es: seq<Event>, i: nat)
    requires i < |es|
    ensures LastPlan(es[..i + 1]) == if es[i].RoutePlan? then es[i].target else LastPlan(es[..i])
    ensures LastParsedEnd(es[..i + 1])
      == if es[i].SessionEnd? && es[i].at.Some? then es[i].at else LastParsedEnd(es[..i])
    ensures LastEnd(es[..i + 1]) == if es[i].SessionEnd? then es[i].at else LastEnd(es[..i])
    ensures Failures(es[..i + 1]) == Failures(es[..i]) + (if es[i] == RouteFailed then 1 else 0)
  {
    assert es[..i + 1][..i] == es[..i] && es[..i + 1][i] == es[i];
  }

  /** The one pass pendingRoutePlan makes over the events. */
  method FoldEvents(es: seq<Event>)
    returns (plan: string, ended: bool, endedAt: Option<int>, routed: bool, failures: nat)
    ensures plan == LastPlan(es) && endedAt == LastParsedEnd(es) && failures == Failures(es)
    ensures ended == Ended(es) && (routed <==> Routed in es)
  {
    plan, ended, endedAt, routed, failures := "", false, None, false, 0;
    for i := 0 to |es|
      invariant plan == LastPlan(es[..i]) && endedAt == LastParsedEnd(es[..i]) && failures == Failures(es[..i])
      invariant ended == Ended(es[..i]) && (routed <==> Routed in es[..i])
    {
      FoldNext(es, i);
      SumsNext(es, i);
      hide Ended, LastPlan, LastParsedEnd, Failures;
      match es[i] {
        case RoutePlan(target) => plan := target;
        case SessionEnd(at) =>
          ended := true;
          if at.Some? { endedAt := at; }
        case Routed => routed := true;
        case RouteFailed => failures := failures + 1;
        case Other =>
      }
    }
    assert es[..|es|] == es;
  }

  method PendingRoutePlan(es: seq<Event>, now: int) returns (target: Option<string>)
    ensures target == Pending(es, now)
  {
    hide Ended, LastPlan, LastParsedEnd, Failures;
    var plan, ended, endedAt, routed, failures := FoldEvents(es);
    if plan == "" || !ended || routed || failures >= SWEEP_MAX_ATTEMPTS { return None; }
    if endedAt.Some? && now - endedAt.value > SWEEP_WINDOW { return None; }
    return Some(plan);
  }

  method ComputeRouteStatus(es: seq<Event>, ended: bool, now: int) returns (r: RouteStatus)
    ensures r == StatusOf(es, ended, now)
  {
    var planned, endedAt, routed, attempts := false, None, false, 0;
    for i := 0 to |es|
      invariant planned == Planned(es[..i]) && endedAt == LastEnd(es[..i]) && attempts == Failures(es[..i])
      invariant routed <==> Routed in es[..i]
    {
      FoldNext(es, i);
      SumsNext(es, i);
      hide Ended, Planned, LastPlan, LastEnd, LastParsedEnd, Failures;
      match es[i] {
        case RoutePlan(_) => planned := true;
        case SessionEnd(at) => endedAt := at;
        case Routed => routed := true;
        case RouteFailed => attempts := attempts + 1;
        case Other =>
      }
    }
    assert es[..|es|] == es;
    hide Ended, Planned, LastPlan, LastEnd, LastParsedEnd, Failures;
    var status;
    if routed {
      status := WasRouted;
    } else if planned && attempts > 0 {
      status := HasFailed;
    } else if planned {
      status := StillPlanned;
    } else {
      return RouteStatus(NotPlanned, 0, false);
    }
    var inWindow := endedAt.None? || now - endedAt.value <= SWEEP_WINDOW;
    return RouteStatus(status, attempts,
                       planned && ended && status != WasRouted && attempts < SWEEP_MAX_ATTEMPTS && inWindow);
  }

  /** How one more event changes each fold. */
  lemma FoldNext(es: seq<Event>, i: nat)
    requires i < |es|
    ensures es[..i + 1] == es[..i] + [es[i]] && es[..i + 1][..i] == es[..i]
    ensures Ended(es[..i + 1]) <==> Ended(es[..i]) || es[i].SessionEnd?
    ensures Planned(es[..i + 1]) <==> Planned(es[..i]) || es[i].RoutePlan?
    ensures Routed in es[..i + 1] <==> Routed in es[..i] || es[i] == Routed
  {
    hide LastPlan, LastParsedEnd, LastEnd, Failures;
    var a, b := es[..i], es[..i + 1];
    assert b[i] == es[i] && forall j :: 0 <= j < i ==> b[j] == a[j];
  }

  // ---------------------------------------------------------------- sweep and status agree

  /** A bundle that only its label and its clock can keep from being retried. */
  predicate Live(es: seq<Event>)
  {
    Planned(es) && Ended(es) && Routed !in es && Failures(es) < SWEEP_MAX_ATTEMPTS
  }

  /** The last plan names a target, and the last session end parses unless none does. */
  predicate Clean(es: seq<Event>)
  {
    LastPlan(es) != "" && (LastEnd(es).Some? || LastParsedEnd(es).None?)
  }

  predicate Agree(es: seq<Event>, now: int)
  {
    StatusOf(es, Ended(es), now).retryable <==> Pending(es, now).Some?
  }

  lemma {:induction false} EndsAgree(es: seq<Event>)
    ensures LastEnd(es).Some? ==> LastParsedEnd(es) == LastEnd(es)
  {
    if es != [] { EndsAgree(es[..|es| - 1]); }
  }

  lemma {:induction false} NamedPlanIsPlanned(es: seq<Event>)
    requires LastPlan(es) != ""
    ensures Planned(es)
  {
    var n := |es| - 1;
    if es[n].RoutePlan? {
      assert es[n].RoutePlan?;
    } else {
      NamedPlanIsPlanned(es[..n]);
      var i :| 0 <= i < n && es[..n][i].RoutePlan?;
      assert es[i].RoutePlan?;
    }
  }

  /** The status promises exactly what the sweep delivers, at every clock, if and only if the bundle is out of
      the running anyway or its stream is clean. */
  lemma AgreementExact(es: seq<Event>)
    ensures (forall now: int :: Agree(es, now)) <==> (!Live(es) || Clean(es))
  {
    EndsAgree(es);
    if LastPlan(es) != "" { NamedPlanIsPlanned(es); }
    if !Live(es) || Clean(es) {
      forall now: int ensures Agree(es, now) { AgreeWhenClean(es, now); }
    } else if LastPlan(es) == "" {
      var now := if LastEnd(es).Some? then LastEnd(es).value else 0;
      assert !Agree(es, now);
    } else {
      var now := LastParsedEnd(es).value + SWEEP_WINDOW + 1;
      assert !Agree(es, now);
    }
  }

  lemma AgreeWhenClean(es: seq<Event>, now: int)
    requires !Live(es) || Clean(es)
    ensures Agree(es, now)
  {
    EndsAgree(es);
    if LastPlan(es) != "" { NamedPlanIsPlanned(es); }
  }

  // ---------------------------------------------------------------- told from the stream

  /** The last plan of the stream is event `i`. */
  predicate PlanAt(es: seq<Event>, i: nat, target: string)
    requires i < |es|
  {
    es[i] == RoutePlan(target) && forall j :: i < j < |es| ==> !es[j].RoutePlan?
  }

  /** The last session end, of those with `parsed` times or of all, is event `i`. */
  predicate EndAt(es: seq<Event>, i: nat, at: int, parsed: bool)
    requires i < |es|
  {
    && es[i] == SessionEnd(Some(at))
    && forall j :: i < j < |es| && es[j].SessionEnd? ==> parsed && es[j].at.None?
  }

  /** No such session end is older than the window. */
  ghost predicate Recent(es: seq<Event>, now: int, parsed: bool)
  {
    forall i, at :: 0 <= i < |es| && EndAt(es, i, at, parsed) ==> now - at <= 14 * 24 * 3600 * 1_000_000_000
  }

  lemma {:induction false} LastPlanIsLast(es: seq<Event>, target: string)
    requires target != ""
    ensures LastPlan(es) == target <==> exists i :: 0 <= i < |es| && PlanAt(es, i, target)
  {
    if es != [] {
      var n := |es| - 1;
      LastPlanIsLast(es[..n], target);
      if es[n] == RoutePlan(target) { assert PlanAt(es, n, target); }
      if !es[n].RoutePlan? {
        forall i | 0 <= i < n ensures PlanAt(es, i, target) <==> PlanAt(es[..n], i, target) {
          assert forall j :: i <= j < n ==> es[j] == es[..n][j];
        }
      }
    }
  }

  lemma {:induction false} LastEndIsLast(es: seq<Event>, at: int, parsed: bool)
    ensures (if parsed then LastParsedEnd(es) else LastEnd(es)) == Some(at)
      <==> exists i :: 0 <= i < |es| && EndAt(es, i, at, parsed)
  {
    if es != [] {
      var n := |es| - 1;
      LastEndIsLast(es[..n], at, parsed);
      if es[n] == SessionEnd(Some(at)) { assert EndAt(es, n, at, parsed); }
      if !es[n].SessionEnd? || (parsed && es[n].at.None?) {
        forall i | 0 <= i < n ensures EndAt(es, i, at, parsed) <==> EndAt(es[..n], i, at, parsed) {
          assert forall j :: i <= j < n ==> es[j] == es[..n][j];
        }
      }
    }
  }

  lemma {:induction false} FailuresCount(es: seq<Event>)
    ensures Failures(es) == multiset(es)[RouteFailed]
  {
    if es != [] {
      var n := |es| - 1;
      FailuresCount(es[..n]);
      assert es == es[..n] + [es[n]];
    }
  }

  lemma RecentExact(es: seq<Event>, now: int, parsed: bool)
    ensures InWindow(if parsed then LastParsedEnd(es) else LastEnd(es), now) <==> Recent(es, now, parsed)
  {
    hide LastParsedEnd, LastEnd, EndAt;
    var end := if parsed then LastParsedEnd(es) else LastEnd(es);
    forall i, at | 0 <= i < |es| && EndAt(es, i, at, parsed) ensures end == Some(at) {
      LastEndIsLast(es, at, parsed);
    }
    if end.Some? {
      LastEndIsLast(es, end.value, parsed);
      var i :| 0 <= i < |es| && EndAt(es, i, end.value, parsed);
    }
  }

  /** The sweep delivers to the target of the last plan, once the session has ended, until a delivery, the third
      failure, or fourteen days after the last session end with a time that parses. */
  lemma PendingExact(es: seq<Event>, now: int, target: string)
    ensures Pending(es, now) == Some(target) <==>
      (&& target != "" && (exists i :: 0 <= i < |es| && PlanAt(es, i, target))
       && (exists i :: 0 <= i < |es| && es[i].SessionEnd?)
       && Routed !in es && multiset(es)[RouteFailed] < 3 && Recent(es, now, true))
  {
    if target != "" { LastPlanIsLast(es, target); }
    FailuresCount(es);
    RecentExact(es, now, true);
    hide LastPlan, PlanAt, Failures, LastParsedEnd, InWindow, Recent;
  }

  /** The status of a planned or delivered bundle, and whether a retry is promised. */
  lemma StatusExact(es: seq<Event>, ended: bool, now: int)
    ensures var r, planned := StatusOf(es, ended, now), exists i :: 0 <= i < |es| && es[i].RoutePlan?;
      var failed := multiset(es)[RouteFailed];
      && (r.status == WasRouted <==> Routed in es)
      && (r.status == HasFailed <==> Routed !in es && planned && failed > 0)
      && (r.status == StillPlanned <==> Routed !in es && planned && failed == 0)
      && r.attempts == (if r.status == NotPlanned then 0 else failed)
      && (r.retryable <==> planned && Routed !in es && ended && failed < 3 && Recent(es, now, false))
  {
    FailuresCount(es);
    RecentExact(es, now, false);
    hide Failures, LastEnd, InWindow, Recent;
  }

  // ---------------------------------------------------------------- sweeping

  /** How an attempt to deliver ends. */
  datatype Delivery =
    | Cancelled            // the context was done: nothing ran, nothing is recorded
    | NoDestination        // unknown target, or no sink for it: recorded as failed, nothing ran
    | SinkFailed           // the sink ran and failed
    | SinkSucceeded        // the sink ran

  predicate RunsSink(d: Delivery) { d == SinkFailed || d == SinkSucceeded }

  /** Provenance of an attempt; every append succeeds. */
  function Record(es: seq<Event>, d: Delivery): seq<Event>
  {
    match d
    case Cancelled => es
    case NoDestination => es + [RouteFailed]
    case SinkFailed => es + [RouteFailed]
    case SinkSucceeded => es + [Routed]
  }

  /** One bundle: its stream, how often a sweep ran a sink for it, and how often it did so after a routed event. */
  datatype Bundle = Bundle(events: seq<Event>, runs: nat, lateRuns: nat)

  /** The sweep reaches one bundle. */
  function Visit(b: Bundle, now: int, d: Delivery): Bundle
  {
    if Pending(b.events, now).None? then b
    else Bundle(Record(b.events, d), b.runs + (if RunsSink(d) then 1 else 0),
                b.lateRuns + (if RunsSink(d) && Routed in b.events then 1 else 0))
  }

  /** The bundles of a listing that a sweep tries to deliver, in order. */
  function Attempts<B(==)>(bundles: map<B, Bundle>, listing: seq<B>, now: int): seq<B>
    requires forall i :: 0 <= i < |listing| ==> listing[i] in bundles
  {
    if listing == [] then []
    else
      var last := listing[|listing| - 1];
      Attempts(bundles, listing[..|listing| - 1], now)
      + (if Pending(bundles[last].events, now).Some? then [last] else [])
  }

  class Archive<B(==)> {
    var bundles: map<B, Bundle>

    constructor (bundles: map<B, Bundle>)
      ensures this.bundles == bundles
    {
      this.bundles := bundles;
    }

    /** SweepPendingRoutes over a directory listing; the context is done before bundle `cancelAt`. */
    method Sweep(listing: seq<B>, now: int, deliver: (B, string) -> Delivery, cancelAt: nat) returns (attempted: seq<B>)
      requires forall i, j :: 0 <= i < j < |listing| ==> listing[i] != listing[j]
      requires forall i :: 0 <= i < |listing| ==> listing[i] in bundles
      modifies this
      ensures bundles.Keys == old(bundles).Keys
      ensures forall b :: b in bundles ==>
        bundles[b] == if b in listing[..if cancelAt < |listing| then cancelAt else |listing|]
                      then Visited(old(bundles)[b], b, now, deliver) else old(bundles)[b]
      ensures attempted == Attempts(old(bundles), listing[..if cancelAt < |listing| then cancelAt else |listing|], now)
    {
      attempted := [];
      for i := 0 to |listing|
        invariant i <= cancelAt && SweptTo(old(bundles), bundles, listing[..i], now, deliver)
        invariant attempted == Attempts(old(bundles), listing[..i], now)
      {
        hide Pending, Visit, Visited, Attempts, SweptTo;
        if i == cancelAt { return; }
        var b := listing[i];
        assert listing[..i + 1] == listing[..i] + [b] && b !in listing[..i];
        SweptNext(old(bundles), bundles, listing[..i], b, now, deliver);
        VisitedNow(bundles[b], b, now, deliver);
        AttemptsNext(old(bundles), listing, i, now);
        var target := PendingRoutePlan(bundles[b].events, now);
        if target.None? { continue; }
        var d := deliver(b, target.value);
        attempted := attempted + [b];
        var ran, late := if RunsSink(d) then 1 else 0, if RunsSink(d) && Routed in bundles[b].events then 1 else 0;
        var was := bundles[b];
        bundles := bundles[b := Bundle(Record(was.events, d), was.runs + ran, was.lateRuns + late)];
      }
      assert listing[..|listing|] == listing;
    }
  }

  function Visited<B>(bundle: Bundle, b: B, now: int, deliver: (B, string) -> Delivery): Bundle
  {
    match Pending(bundle.events, now)
    case None => bundle
    case Some(target) => Visit(bundle, now, deliver(b, target))
  }

  /** The bundles `front` have been visited, the others not. */
  ghost predicate SweptTo<B>(was: map<B, Bundle>, bundles: map<B, Bundle>, front: seq<B>, now: int,
                             deliver: (B, string) -> Delivery)
  {
    && bundles.Keys == was.Keys
    && forall b :: b in bundles ==> bundles[b] == if b in front then Visited(was[b], b, now, deliver) else was[b]
  }

  lemma SweptNext<B>(was: map<B, Bundle>, bundles: map<B, Bundle>, front: seq<B>, b: B, now: int,
                     deliver: (B, string) -> Delivery)
    requires SweptTo(was, bundles, front, now, deliver) && b in was && b !in front
    ensures b in bundles && bundles[b] == was[b]
    ensures SweptTo(was, bundles[b := Visited(was[b], b, now, deliver)], front + [b], now, deliver)
    ensures Visited(was[b], b, now, deliver) == was[b] ==> SweptTo(was, bundles, front + [b], now, deliver)
  {
    hide Visited;
    assert bundles[b := was[b]] == bundles;
  }

  lemma VisitedNow<B>(was: Bundle, b: B, now: int, deliver: (B, string) -> Delivery)
    ensures Visited(was, b, now, deliver) ==
      match Pending(was.events, now)
      case None => was
      case Some(target) =>
        var d := deliver(b, target);
        Bundle(Record(was.events, d), was.runs + (if RunsSink(d) then 1 else 0),
               was.lateRuns + (if RunsSink(d) && Routed in was.events then 1 else 0))
  {
    hide Pending;
  }

  lemma AttemptsNext<B>(bundles: map<B, Bundle>, listing: seq<B>, i: nat, now: int)
    requires i < |listing| && forall j :: 0 <= j < |listing| ==> listing[j] in bundles
    ensures Attempts(bundles, listing[..i + 1], now)
      == Attempts(bundles, listing[..i], now)
         + (if Pending(bundles[listing[i]].events, now).Some? then [listing[i]] else [])
  {
    hide Pending;
    assert listing[..i + 1][..i] == listing[..i];
  }

  // ---------------------------------------------------------------- bounded retries

  /** One bundle while sweeps may overlap, a sweep being in flight from reading the stream to recording its outcome:
      `looked` have found the bundle pending, `failed` and `delivered` have an outcome still to record. */
  datatype Flights = Flights(
    events: seq<Event>, looked: nat, failed: nat, delivered: nat, runs: nat, lateRuns: nat)

  function Idle(es: seq<Event>): Flights { Flights(es, 0, 0, 0, 0, 0) }

  function InFlight(b: Flights): nat { b.looked + b.failed + b.delivered }

  /** What happens to a bundle over time: steps of any sweeps, and events appended by others. */
  datatype Action =
    | Look(now: int)              // pendingRoutePlan reads the stream
    | Deliver(outcome: Delivery)  // RouteByID finds the destination and runs its sink
    | LogFailure                  // it appends route_failed
    | LogDelivery                 // it appends routed
    | AppendEvent(event: Event)

  function Act(b: Flights, a: Action): Flights
  {
    match a
    case Look(now) => if Pending(b.events, now).None? then b else b.(looked := b.looked + 1)
    case Deliver(outcome) => if b.looked == 0 then b else Delivered(b.(looked := b.looked - 1), outcome)
    case LogFailure => if b.failed == 0 then b else b.(failed := b.failed - 1, events := b.events + [RouteFailed])
    case LogDelivery => if b.delivered == 0 then b else b.(delivered := b.delivered - 1, events := b.events + [Routed])
    case AppendEvent(event) => b.(events := b.events + [event])
  }

  function Delivered(b: Flights, outcome: Delivery): Flights
  {
    var ran := if RunsSink(outcome)
               then b.(runs := b.runs + 1, lateRuns := b.lateRuns + (if Routed in b.events then 1 else 0)) else b;
    match outcome
    case Cancelled => ran
    case SinkSucceeded => ran.(delivered := b.delivered + 1)
    case _ => ran.(failed := b.failed + 1)
  }

  function History(b: Flights, actions: seq<Action>): Flights
  {
    if actions == [] then b else Act(History(b, actions[..|actions| - 1]), actions[|actions| - 1])
  }

  /** At most `m` are ever in flight, anyone else who delivers the bundle being one of them as it records that. */
  predicate Within(b: Flights, actions: seq<Action>, m: nat)
  {
    actions == []
    || (&& Within(b, actions[..|actions| - 1], m)
        && InFlight(History(b, actions)) <= m
        && (actions[|actions| - 1] == AppendEvent(Routed) ==> InFlight(History(b, actions[..|actions| - 1])) < m))
  }

  lemma More(b: Flights, actions: seq<Action>, a: Action, m: nat)
    requires Within(b, actions, m)
    ensures History(b, actions + [a]) == Act(History(b, actions), a)
    ensures InFlight(Act(History(b, actions), a)) <= m && a != AppendEvent(Routed) ==> Within(b, actions + [a], m)
  {
    assert (actions + [a])[..|actions|] == actions;
  }

  lemma NoActions(b: Flights, m: nat)
    ensures History(b, []) == b && Within(b, [], m)
  {
  }

  /** A visit of a sweep that runs alone is one flight. */
  lemma VisitIsOneFlight(b: Bundle, now: int, d: Delivery)
    ensures var f := Flights(b.events, 0, 0, 0, b.runs, b.lateRuns);
            var actions := [Look(now)] + [Deliver(d)] + [LogFailure] + [LogDelivery];
            var v := Visit(b, now, d);
            History(f, actions) == Flights(v.events, 0, 0, 0, v.runs, v.lateRuns) && Within(f, actions, 1)
  {
    hide Pending, History, Within, Delivered, Record;
    var f := Flights(b.events, 0, 0, 0, b.runs, b.lateRuns);
    NoActions(f, 1);
    assert [] + [Look(now)] == [Look(now)];
    More(f, [], Look(now), 1);
    Lands(Act(f, Look(now)), d);
    More(f, [Look(now)], Deliver(d), 1);
    More(f, [Look(now)] + [Deliver(d)], LogFailure, 1);
    More(f, [Look(now)] + [Deliver(d)] + [LogFailure], LogDelivery, 1);
  }

  /** The one flight under way, if any, is delivered and recorded. */
  lemma Lands(f: Flights, d: Delivery)
    requires f.looked <= 1 && f.failed == 0 && f.delivered == 0
    ensures var g := Act(f, Deliver(d));
      var h := Act(g, LogFailure);
      && InFlight(g) <= 1 && InFlight(h) <= 1
      && Act(h, LogDelivery) ==
           if f.looked == 0 then f
           else Flights(Record(f.events, d), 0, 0, 0, f.runs + (if RunsSink(d) then 1 else 0),
                        f.lateRuns + (if RunsSink(d) && Routed in f.events then 1 else 0))
  {
  }

  /** What is left to run is covered by the failures recorded and the flights still under way. */
  predicate Bounded(b: Flights, m: nat)
  {
    && InFlight(b) <= m && b.runs + b.looked <= SWEEP_MAX_ATTEMPTS + m - 1
    && (Routed !in b.events ==> b.runs + b.looked <= Failures(b.events) + InFlight(b))
    && (m == 1 ==> b.lateRuns == 0 && (b.looked > 0 ==> Routed !in b.events))
  }

  lemma AppendCounts(es: seq<Event>, e: Event)
    ensures Failures(es + [e]) == Failures(es) + (if e == RouteFailed then 1 else 0)
  {
    assert (es + [e])[..|es|] == es;
  }

  lemma LookKeepsBounded(b: Flights, now: int, m: nat)
    requires m >= 1 && Bounded(b, m) && InFlight(Act(b, Look(now))) <= m
    ensures Bounded(Act(b, Look(now)), m)
  {
    hide LastPlan, LastParsedEnd, Failures;
  }

  lemma DeliverKeepsBounded(b: Flights, d: Delivery, m: nat)
    requires m >= 1 && Bounded(b, m)
    ensures Bounded(Act(b, Deliver(d)), m)
  {
    hide Failures;
  }

  /** The stream grows by one event; an outcome recorded leaves the flight. */
  lemma LogKeepsBounded(b: Flights, e: Event, landed: nat, m: nat)
    requires m >= 1 && Bounded(b, m) && landed <= 1
    requires landed == 1 ==> (e == RouteFailed && b.failed > 0) || (e == Routed && b.delivered > 0)
    requires landed == 0 && e == Routed ==> InFlight(b) < m
    ensures var c := b.(events := b.events + [e]);
      Bounded(if landed == 0 then c else if e == Routed then c.(delivered := b.delivered - 1)
              else c.(failed := b.failed - 1), m)
  {
    AppendCounts(b.events, e);
    assert Routed in b.events + [e] <==> Routed in b.events || e == Routed;
    hide Failures;
  }

  lemma ActKeepsBounded(b: Flights, a: Action, m: nat)
    requires m >= 1 && Bounded(b, m) && InFlight(Act(b, a)) <= m
    requires a == AppendEvent(Routed) ==> InFlight(b) < m
    ensures Bounded(Act(b, a), m)
  {
    hide Bounded, Failures, Pending;
    match a
    case Look(now) => LookKeepsBounded(b, now, m);
    case Deliver(d) => DeliverKeepsBounded(b, d, m);
    case LogFailure => if b.failed > 0 { LogKeepsBounded(b, RouteFailed, 1, m); }
    case LogDelivery => if b.delivered > 0 { LogKeepsBounded(b, Routed, 1, m); }
    case AppendEvent(e) => LogKeepsBounded(b, e, 0, m);
  }

  /** With at most `m` sweeps in flight the sink runs at most 3 + m - 1 times for a bundle, over any history; with
      one at a time that is three, and never after the bundle was routed. */
  lemma {:induction false} RetriesBounded(es: seq<Event>, actions: seq<Action>, m: nat)
    requires m >= 1 && Within(Idle(es), actions, m)
    ensures Bounded(History(Idle(es), actions), m)
    ensures var b := History(Idle(es), actions);
            b.runs <= SWEEP_MAX_ATTEMPTS + m - 1 && (m == 1 ==> b.lateRuns == 0)
  {
    if actions != [] {
      RetriesBounded(es, actions[..|actions| - 1], m);
      ActKeepsBounded(History(Idle(es), actions[..|actions| - 1]), actions[|actions| - 1], m);
    }
  }

  /** A bundle is given up after three recorded failures or a delivery: the sink runs only for sweeps that had
      already looked. */
  lemma {:induction false} GivenUpStays(b: Flights, actions: seq<Action>)
    requires Failures(b.events) >= SWEEP_MAX_ATTEMPTS || Routed in b.events
    ensures var after := History(b, actions);
            && b.runs <= after.runs && after.runs + after.looked <= b.runs + b.looked
            && (Failures(after.events) >= SWEEP_MAX_ATTEMPTS || Routed in after.events)
  {
    if actions != [] {
      GivenUpStays(b, actions[..|actions| - 1]);
      GivenUpOnce(History(b, actions[..|actions| - 1]), actions[|actions| - 1]);
    }
  }

  lemma GivenUpOnce(b: Flights, a: Action)
    requires Failures(b.events) >= SWEEP_MAX_ATTEMPTS || Routed in b.events
    ensures b.runs <= Act(b, a).runs && Act(b, a).runs + Act(b, a).looked <= b.runs + b.looked
    ensures Failures(Act(b, a).events) >= SWEEP_MAX_ATTEMPTS || Routed in Act(b, a).events
  {
    AppendCounts(b.events, RouteFailed);
    AppendCounts(b.events, Routed);
    if a.AppendEvent? { AppendCounts(b.events, a.event); }
    hide LastPlan, LastParsedEnd, Failures;
  }

  // ---------------------------------------------------------------- the bound is reached

  const PLANNED: seq<Event> := [RoutePlan("x"), SessionEnd(None)]

  function Failed(k: nat): seq<Event> { if k == 0 then PLANNED else Failed(k - 1) + [RouteFailed] }

  lemma {:induction false} FailedFolds(k: nat)
    ensures Failures(Failed(k)) == k && LastPlan(Failed(k)) == "x" && LastParsedEnd(Failed(k)) == None
  {
    if k == 0 {
      assert PLANNED[..1] == [RoutePlan("x")] && PLANNED[..1][..0] == [];
    } else {
      FailedFolds(k - 1);
      assert Failed(k)[..|Failed(k)| - 1] == Failed(k - 1);
    }
  }

  lemma {:induction false} FailedEvents(k: nat)
    ensures Routed !in Failed(k) && |Failed(k)| >= 2 && Failed(k)[1] == SessionEnd(None)
  {
    if k > 0 { FailedEvents(k - 1); }
  }

  lemma FailedIsPending(k: nat)
    requires k < SWEEP_MAX_ATTEMPTS
    ensures Pending(Failed(k), 0).Some?
  {
    hide Failed, LastPlan, LastParsedEnd, Failures;
    FailedFolds(k);
    FailedEvents(k);
    assert Failed(k)[1].SessionEnd?;
    assert Ended(Failed(k));
  }

  /** `k` sweeps one after the other, each failing. */
  function Rounds(k: nat): seq<Action>
  {
    if k == 0 then [] else Rounds(k - 1) + [Look(0)] + [Deliver(SinkFailed)] + [LogFailure]
  }

  lemma {:induction false} RoundsFail(k: nat, m: nat)
    requires 1 <= m && k < SWEEP_MAX_ATTEMPTS
    ensures Within(Idle(PLANNED), Rounds(k), m)
    ensures History(Idle(PLANNED), Rounds(k)) == Flights(Failed(k), 0, 0, 0, k, 0)
  {
    if k > 0 {
      hide Pending, History, Within;
      RoundsFail(k - 1, m);
      FailedIsPending(k - 1);
      FailedEvents(k - 1);
      OneRound(Idle(PLANNED), Rounds(k - 1), m);
    }
  }

  lemma OneRound(b: Flights, r: seq<Action>, m: nat)
    requires 1 <= m && Within(b, r, m) && InFlight(History(b, r)) == 0 && Pending(History(b, r).events, 0).Some?
    ensures var s := History(b, r); var actions := r + [Look(0)] + [Deliver(SinkFailed)] + [LogFailure];
      && Within(b, actions, m)
      && History(b, actions)
           == s.(events := s.events + [RouteFailed], runs := s.runs + 1,
                 lateRuns := s.lateRuns + (if Routed in s.events then 1 else 0))
  {
    hide Pending, History, Within;
    More(b, r, Look(0), m);
    More(b, r + [Look(0)], Deliver(SinkFailed), m);
    More(b, r + [Look(0)] + [Deliver(SinkFailed)], LogFailure, m);
  }

  /** After two failures `k` sweeps look at the stream, ... */
  function Looks(k: nat): seq<Action> { if k == 0 then Rounds(2) else Looks(k - 1) + [Look(0)] }

  /** ... and `j` of them run their sink. */
  function Overlap(k: nat, j: nat): seq<Action>
  {
    if j == 0 then Looks(k) else Overlap(k, j - 1) + [Deliver(SinkFailed)]
  }

  lemma {:induction false} LooksRun(k: nat, m: nat)
    requires k <= m && 1 <= m
    ensures Within(Idle(PLANNED), Looks(k), m)
    ensures History(Idle(PLANNED), Looks(k)) == Flights(Failed(2), k, 0, 0, 2, 0)
  {
    hide Pending, History, Within, Rounds, Failed;
    if k == 0 {
      RoundsFail(2, m);
    } else {
      LooksRun(k - 1, m);
      FailedIsPending(2);
      More(Idle(PLANNED), Looks(k - 1), Look(0), m);
    }
  }

  lemma {:induction false} OverlapRuns(k: nat, j: nat, m: nat)
    requires j <= k <= m && 1 <= m
    ensures Within(Idle(PLANNED), Overlap(k, j), m)
    ensures History(Idle(PLANNED), Overlap(k, j)) == Flights(Failed(2), k - j, j, 0, 2 + j, 0)
    decreases j
  {
    hide Pending, History, Within, Looks, Failed;
    if j == 0 {
      LooksRun(k, m);
    } else {
      OverlapRuns(k, j - 1, m);
      FailedEvents(2);
      More(Idle(PLANNED), Overlap(k, j - 1), Deliver(SinkFailed), m);
    }
  }

  ghost predicate ThreeAndNotLate(es: seq<Event>, actions: seq<Action>, m: nat)
  {
    Within(Idle(es), actions, m) ==>
      var b := History(Idle(es), actions); b.runs <= SWEEP_MAX_ATTEMPTS && b.lateRuns == 0
  }

  /** The bound is reached for every `m`, so three runs and none late hold in every history exactly when sweeps of
      a bundle never overlap. */
  lemma RetriesExact(m: nat)
    requires m >= 1
    ensures Within(Idle(PLANNED), Overlap(m, m), m)
    ensures History(Idle(PLANNED), Overlap(m, m)).runs == SWEEP_MAX_ATTEMPTS + m - 1
    ensures (forall es: seq<Event>, actions: seq<Action> :: ThreeAndNotLate(es, actions, m)) <==> m == 1
  {
    OverlapRuns(m, m, m);
    hide History, Within, Overlap;
    if m == 1 {
      forall es: seq<Event>, actions: seq<Action> ensures ThreeAndNotLate(es, actions, m) {
        if Within(Idle(es), actions, m) { RetriesBounded(es, actions, m); }
      }
    } else {
      assert !ThreeAndNotLate(PLANNED, Overlap(m, m), m);
    }
  }
}
