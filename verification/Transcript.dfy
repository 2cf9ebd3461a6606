/**
 The transcript writer's queue (internal/transcript/transcript.go): a bounded channel
 that is drained, thinned out by durability and rebuilt when it is full, while the
 writer goroutine keeps receiving from it. Enqueuers and Close exclude each other by a
 lock; the receiver takes no lock, so it may act between any two channel operations.
 */
module Transcript {
  import opened Wrappers
  import opened Seqs

  datatype Record = Record(kind: string, seqno: nat)

  /** isDurableRecord. */
  predicate Durable(r: Record)
  {
    r.kind in {"header", "user", "agent", "error", "tool_call", "tool_result", "metrics", "tokens",
               "session_warning", "compacted", "cleared", "turn_interrupted", "dropped"}
  }

  // ---------------------------------------------------------------- thinning a full queue

  /** The records of one durability, in order. */
  function Only(q: seq<Record>, durable: bool): (r: seq<Record>)
    ensures |r| <= |q|
  {
    if q == [] then [] else (if Durable(q[0]) == durable then [q[0]] else []) + Only(q[1..], durable)
  }

  function Min(a: int, b: int): int { if a <= b then a else b }

  /** The last `n` elements, all of them when there are fewer. */
  function Newest(q: seq<Record>, n: nat): seq<Record> { if |q| <= n then q else q[|q| - n..] }

  /** Keep, in order, the newest `d` durable records and the newest `n` others. */
  function Keep(q: seq<Record>, d: nat, n: nat): (r: seq<Record>)
    ensures |r| <= |q|
  {
    if q == [] then []
    else (if |Only(q, Durable(q[0]))| <= (if Durable(q[0]) then d else n) then [q[0]] else []) + Keep(q[1..], d, n)
  }

  /** How many durable records, and how many others, a queue may keep. */
  function DurableShare(q: seq<Record>, capacity: nat): nat { Min(|Only(q, true)|, capacity) }

  function OtherShare(q: seq<Record>, capacity: nat): nat
  {
    Min(|Only(q, false)|, capacity - DurableShare(q, capacity))
  }

  function Fit(q: seq<Record>, capacity: int): (r: seq<Record>)
    ensures |r| <= |q|
  {
    if capacity <= 0 then [] else Keep(q, DurableShare(q, capacity), OtherShare(q, capacity))
  }

  lemma {:induction false} OnlyPartition(q: seq<Record>)
    ensures |Only(q, true)| + |Only(q, false)| == |q|
  {
    if q != [] { OnlyPartition(q[1..]); }
  }

  lemma OnlyNext(q: seq<Record>)
    requires q != []
    ensures |Only(q[1..], true)| <= |Only(q, true)| && |Only(q[1..], false)| <= |Only(q, false)|
  {
    hide Durable;
  }

  lemma {:induction false} KeepAll(q: seq<Record>, d: nat, n: nat)
    requires |Only(q, true)| <= d && |Only(q, false)| <= n
    ensures Keep(q, d, n) == q
  {
    hide Durable, Only;
    if q != [] {
      OnlyNext(q);
      KeepAll(q[1..], d, n);
      Next(q, 0);
      assert q[0..] == q;
    }
  }

  lemma NewestOfTail(x: Record, q: seq<Record>, n: nat)
    ensures |q| >= n ==> Newest([x] + q, n) == Newest(q, n)
    ensures |q| < n ==> Newest([x] + q, n) == [x] + Newest(q, n)
  {
  }

  lemma OnlyOfCons(x: Record, q: seq<Record>, durable: bool)
    ensures Only([x] + q, durable) == (if Durable(x) == durable then [x] + Only(q, durable) else Only(q, durable))
  {
    assert ([x] + q)[1..] == q;
  }

  /** Keeping selects the newest of each durability. */
  lemma {:induction false} KeepSelects(q: seq<Record>, d: nat, n: nat, durable: bool)
    ensures Only(Keep(q, d, n), durable) == Newest(Only(q, durable), if durable then d else n)
  {
    hide Durable;
    if q != [] {
      var tail := Keep(q[1..], d, n);
      KeepSelects(q[1..], d, n, durable);
      NewestOfTail(q[0], Only(q[1..], durable), if durable then d else n);
      OnlyOfCons(q[0], tail, durable);
      assert [] + tail == tail;
      assert q == [q[0]] + q[1..];
      OnlyOfCons(q[0], q[1..], durable);
    }
  }

  /** Dropping the oldest non-durable record, when there are more than may stay, changes nothing. */
  lemma {:induction false} DropOldestOther(q: seq<Record>, i: nat, d: nat, n: nat)
    requires i < |q| && !Durable(q[i]) && forall j :: 0 <= j < i ==> Durable(q[j])
    requires |Only(q, false)| > n
    ensures Keep(q[..i] + q[i + 1..], d, n) == Keep(q, d, n)
    ensures Only(q[..i] + q[i + 1..], true) == Only(q, true)
    ensures |Only(q[..i] + q[i + 1..], false)| == |Only(q, false)| - 1
  {
    hide Durable;
    var p := q[..i] + q[i + 1..];
    if i == 0 {
      assert p == q[1..];
    } else {
      assert p[0] == q[0] && p[1..] == q[1..][..i - 1] + q[1..][i..];
      DropOldestOther(q[1..], i - 1, d, n);
    }
  }

  method FirstOther(q: seq<Record>) returns (drop: int)
    ensures drop == -1 ==> Only(q, false) == []
    ensures drop != -1 ==> 0 <= drop < |q| && !Durable(q[drop]) && forall j :: 0 <= j < drop ==> Durable(q[j])
    ensures drop != -1 ==> Only(q, false) != []
  {
    for i := 0 to |q|
      invariant forall j :: 0 <= j < i ==> Durable(q[j])
    {
      if !Durable(q[i]) {
        SomeOther(q, i);
        return i;
      }
    }
    AllDurable(q);
    return -1;
  }

  lemma {:induction false} AllDurable(q: seq<Record>)
    requires forall j :: 0 <= j < |q| ==> Durable(q[j])
    ensures Only(q, false) == []
  {
    if q != [] { AllDurable(q[1..]); }
  }

  lemma {:induction false} SomeOther(q: seq<Record>, i: nat)
    requires i < |q| && !Durable(q[i])
    ensures Only(q, false) != []
  {
    if i > 0 { SomeOther(q[1..], i - 1); }
  }

  lemma {:induction false} NoneOther(q: seq<Record>)
    requires Only(q, false) == [] && q != []
    ensures Durable(q[0]) && Only(q, true) == [q[0]] + Only(q[1..], true) && Only(q[1..], false) == []
  {
  }

  /** fitTranscriptQueue: drop one record at a time until the rest fits. */
  method FitTranscriptQueue(queue: seq<Record>, capacity: int) returns (q: seq<Record>)
    ensures q == Fit(queue, capacity)
  {
    if capacity <= 0 { return []; }
    q := queue;
    ghost var d, n := DurableShare(queue, capacity), OtherShare(queue, capacity);
    OnlyPartition(queue);
    while |q| > capacity
      invariant Keep(q, d, n) == Fit(queue, capacity)
      invariant |Only(q, true)| >= d && |Only(q, false)| >= n && |q| >= d + n
      invariant |q| <= |queue|
      invariant |Only(q, true)| == |Only(queue, true)| || Only(q, false) == []
      decreases |q|
    {
      hide Durable;
      OnlyPartition(q);
      var drop := FirstOther(q);
      if drop < 0 {
        NoneOther(q);
        q := q[1..];
      } else {
        DropOldestOther(q, drop, d, n);
        q := q[..drop] + q[drop + 1..];
      }
      OnlyPartition(q);
    }
    OnlyPartition(q);
    KeepAll(q, d, n);
  }

  lemma {:induction false} KeepLength(q: seq<Record>, d: nat, n: nat)
    ensures |Keep(q, d, n)| == Min(|Only(q, true)|, d) + Min(|Only(q, false)|, n)
  {
    OnlyPartition(Keep(q, d, n));
    KeepSelects(q, d, n, true);
    KeepSelects(q, d, n, false);
  }

  /** Thinning a queue: the newest durable records first, then the newest others that still fit. */
  lemma FitSelects(q: seq<Record>, capacity: nat)
    ensures |Fit(q, capacity)| == Min(|q|, capacity)
    ensures Only(Fit(q, capacity), true) == Newest(Only(q, true), Min(|Only(q, true)|, capacity))
    ensures Only(Fit(q, capacity), false)
         == Newest(Only(q, false), capacity - Min(|Only(q, true)|, capacity))
    ensures multiset(Fit(q, capacity)) <= multiset(q)
  {
    hide Durable, Only, Keep;
    OnlyPartition(q);
    if capacity == 0 {
      FitNothing(q);
    } else {
      KeepSelects(q, DurableShare(q, capacity), OtherShare(q, capacity), true);
      KeepSelects(q, DurableShare(q, capacity), OtherShare(q, capacity), false);
      KeepLength(q, DurableShare(q, capacity), OtherShare(q, capacity));
      KeepSubset(q, DurableShare(q, capacity), OtherShare(q, capacity));
    }
  }

  lemma FitNothing(q: seq<Record>)
    ensures Only([], true) == [] && Only([], false) == []
    ensures Newest(Only(q, true), 0) == [] && Newest(Only(q, false), 0) == []
  {
  }

  lemma {:induction false} KeepSubset(q: seq<Record>, d: nat, n: nat)
    ensures multiset(Keep(q, d, n)) <= multiset(q)
  {
    if q != [] {
      KeepSubset(q[1..], d, n);
      assert q == [q[0]] + q[1..];
    }
  }

  /** `from` says where in `q`, in order, each element of `s` came from. */
  predicate Picks(q: seq<Record>, s: seq<Record>, from: seq<nat>)
  {
    && |from| == |s|
    && (forall i :: 0 <= i < |from| ==> from[i] < |q| && q[from[i]] == s[i])
    && (forall i, j :: 0 <= i < j < |from| ==> from[i] < from[j])
  }

  lemma PicksShift(x: Record, q: seq<Record>, s: seq<Record>, from: seq<nat>) returns (shifted: seq<nat>)
    requires Picks(q, s, from)
    ensures Picks([x] + q, s, shifted) && Picks([x] + q, [x] + s, [0] + shifted)
  {
    shifted := seq(|from|, i requires 0 <= i < |from| => from[i] + 1);
    assert forall i :: 0 <= i < |from| ==> ([x] + q)[from[i] + 1] == q[from[i]];
  }

  /** The kept records keep the order they had in the queue. */
  lemma {:induction false} KeepInOrder(q: seq<Record>, d: nat, n: nat) returns (from: seq<nat>)
    ensures Picks(q, Keep(q, d, n), from)
  {
    hide Durable, Only, Picks;
    if q == [] {
      from := [];
      PicksNothing();
    } else {
      var tail := KeepInOrder(q[1..], d, n);
      from := PicksShift(q[0], q[1..], Keep(q[1..], d, n), tail);
      Next(q, 0);
      assert q[0..] == q && [] + Keep(q[1..], d, n) == Keep(q[1..], d, n);
      if Keep(q, d, n) != Keep(q[1..], d, n) { from := [0] + from; }
    }
  }

  lemma PicksNothing()
    ensures Picks([], [], [])
  {
  }

  // ---------------------------------------------------------------- what outranks what

  /** The records a harness relies on, and the streaming noise. */
  const CRITICAL: set<string> :=
    {"header", "user", "agent", "error", "tool_call", "tool_result", "metrics", "tokens",
     "session_warning", "compacted", "cleared", "turn_interrupted", "dropped"}

  const NOISE: set<string> := {"agent_delta", "speaking", "info", "stt", "thinking", "voice_gate"}

  /** A record that may stay does. */
  lemma {:induction false} MayStay(q: seq<Record>, i: nat, d: nat, n: nat)
    requires i < |q| && |Only(q[i..], Durable(q[i]))| <= if Durable(q[i]) then d else n
    ensures q[i] in Keep(q, d, n)
  {
    hide Durable;
    if i == 0 {
      assert q[0..] == q;
    } else {
      assert q[1..][i - 1..] == q[i..];
      MayStay(q[1..], i - 1, d, n);
    }
  }

  /** When a durable record has to go and there is no room for others, only newer durable ones stay. */
  lemma {:induction false} OnlyNewerStay(q: seq<Record>, i: nat, d: nat)
    requires i < |q| && Durable(q[i]) && |Only(q[i..], true)| > d
    ensures Keep(q, d, 0) == Keep(q[i + 1..], d, 0)
    ensures |Only(q, true)| > d
  {
    hide Durable;
    if i == 0 {
      assert q[0..] == q;
    } else {
      assert q[1..][i - 1..] == q[i..] && q[1..][i..] == q[i + 1..];
      OnlyNewerStay(q[1..], i - 1, d);
    }
  }

  lemma {:induction false} DurableStay(q: seq<Record>, d: nat)
    ensures forall r :: r in Keep(q, d, 0) ==> Durable(r)
  {
    hide Durable;
    if q != [] { DurableStay(q[1..], d); }
  }

  /** A critical record is given up only for as many newer critical ones as there is room, and nothing else. */
  lemma CriticalOutranks(q: seq<Record>, cap: nat, i: nat) returns (from: seq<nat>)
    requires i < |q| && q[i].kind in CRITICAL && q[i] !in Fit(q, cap)
    ensures |Fit(q, cap)| == cap && Picks(q[i + 1..], Fit(q, cap), from)
    ensures forall r :: r in Fit(q, cap) ==> r.kind in CRITICAL
  {
    if cap == 0 {
      from := [];
    } else {
      assert Durable(q[i]);
      var d := DurableShare(q, cap);
      hide Durable, Keep, Only, Picks;
      if |Only(q[i..], true)| <= d { MayStay(q, i, d, OtherShare(q, cap)); }
      OnlySuffix(q, i);
      assert d == cap;
      OnlyNewerStay(q, i, cap);
      KeepLength(q, cap, 0);
      from := KeepInOrder(q[i + 1..], cap, 0);
      DurableStay(q, cap);
      DurableIsCritical();
    }
  }

  lemma {:induction false} OnlySuffix(q: seq<Record>, i: nat)
    requires i <= |q|
    ensures |Only(q[i..], true)| <= |Only(q, true)|
  {
    hide Durable;
    if i == 0 {
      assert q[0..] == q;
    } else {
      assert q[1..][i - 1..] == q[i..];
      OnlySuffix(q[1..], i - 1);
    }
  }

  lemma DurableIsCritical()
    ensures forall r: Record :: Durable(r) <==> r.kind in CRITICAL
    ensures CRITICAL * NOISE == {}
  {
  }

  /** While noise is kept, no critical record is given up. */
  lemma NoiseGivesWay(q: seq<Record>, cap: nat, r: Record, i: nat)
    requires r in Fit(q, cap) && r.kind in NOISE && i < |q| && q[i].kind in CRITICAL
    ensures q[i] in Fit(q, cap)
  {
    DurableIsCritical();
    assert r.kind !in CRITICAL;
    hide Fit, NOISE, CRITICAL, Durable;
    if q[i] !in Fit(q, cap) { var _ := CriticalOutranks(q, cap, i); }
  }

  // ---------------------------------------------------------------- the protocol

  /** Where the lock holder is inside enqueue, if anywhere. */
  datatype Phase =
    | Idle
    | Draining(drained: seq<Record>, offered: Record)
    | Rebuilding(rest: seq<Record>)

  /** `accepted`, `written` and `lost` record the history; the rest is the writer's state. */
  datatype State = State(
    ch: seq<Record>, phase: Phase, closed: bool, seqno: nat, dropped: nat, report: Option<nat>,
    accepted: seq<Record>, written: seq<Record>, lost: multiset<Record>)

  const Start := State([], Idle, false, 0, 0, None, [], [], multiset{})

  /** One atomic step; a step that is not enabled changes nothing. */
  datatype Event =
    | Offer(kind: string)   // an enqueuer takes the lock, stamps a record and tries to send it
    | Drain                 // it receives one record back
    | Refit                 // it finds the channel empty, thins the queue and counts the drops
    | Put                   // it sends one record of the rebuilt queue
    | Release               // it has sent them all
    | Take                  // the writer goroutine receives a record
    | Close                 // Close marks the writer closed and closes the channel
    | Report                // the writer goroutine finds the channel closed and empty

  function Step(s: State, e: Event, cap: nat): State
  {
    match e
    case Offer(kind) =>
      if s.phase != Idle || s.closed then s
      else
        var r := Record(kind, s.seqno + 1);
        var stamped := s.(seqno := s.seqno + 1, accepted := s.accepted + [r]);
        if |s.ch| < cap then stamped.(ch := s.ch + [r]) else stamped.(phase := Draining([], r))
    case Drain =>
      if !s.phase.Draining? || s.ch == [] then s
      else s.(phase := Draining(s.phase.drained + [s.ch[0]], s.phase.offered), ch := s.ch[1..])
    case Refit =>
      if !s.phase.Draining? || s.ch != [] then s
      else
        var q := s.phase.drained + [s.phase.offered];
        var kept := Fit(q, cap);
        s.(phase := Rebuilding(kept),
           dropped := s.dropped + (if |q| > |kept| then |q| - |kept| else 0),
           lost := s.lost + (multiset(q) - multiset(kept)))
    case Put =>
      if !s.phase.Rebuilding? || s.phase.rest == [] then s
      else
        var m := s.phase.rest[0];
        var next := s.(phase := Rebuilding(s.phase.rest[1..]));
        if |s.ch| < cap then next.(ch := s.ch + [m])
        else next.(dropped := s.dropped + 1, lost := s.lost + multiset{m})
    case Release => if s.phase == Rebuilding([]) then s.(phase := Idle) else s
    case Take => if s.ch == [] then s else s.(written := s.written + [s.ch[0]], ch := s.ch[1..])
    case Close => if s.phase != Idle then s else s.(closed := true)
    case Report =>
      if s.closed && s.ch == [] && s.report.None? then s.(report := Some(s.dropped)) else s
  }

  /** A run of the protocol from `s`: any interleaving of steps. */
  function RunFrom(s: State, events: seq<Event>, cap: nat): State
  {
    if events == [] then s else Step(RunFrom(s, events[..|events| - 1], cap), events[|events| - 1], cap)
  }

  function Run(events: seq<Event>, cap: nat): State { RunFrom(Start, events, cap) }

  /** Records in the hands of the lock holder. */
  function Held(p: Phase): multiset<Record>
  {
    match p
    case Idle => multiset{}
    case Draining(q, r) => multiset(q) + multiset{r}
    case Rebuilding(rest) => multiset(rest)
  }

  /** Room the lock holder is entitled to. */
  function Claim(p: Phase): nat
  {
    match p case Idle => 0 case Draining(q, r) => |q| case Rebuilding(rest) => |rest|
  }

  /** Sequence numbers count from one. */
  predicate Numbered(q: seq<Record>)
  {
    forall i :: 0 <= i < |q| ==> q[i].seqno == i + 1
  }

  lemma NumberNext(q: seq<Record>, kind: string)
    requires Numbered(q)
    ensures Numbered(q + [Record(kind, |q| + 1)])
  {
  }

  /** The invariant: every accepted record is in exactly one place, and every loss is counted. */
  predicate Inv(s: State, cap: nat)
  {
    && |s.ch| + Claim(s.phase) <= cap
    && (s.closed ==> s.phase == Idle)
    && multiset(s.accepted) == multiset(s.written) + multiset(s.ch) + Held(s.phase) + s.lost
    && s.dropped == |s.lost|
    && s.seqno == |s.accepted| && Numbered(s.accepted)
    && (s.report.Some? ==> s.closed && s.ch == [] && s.report.value == s.dropped)
  }

  lemma RefitCounts(q: seq<Record>, cap: nat)
    ensures multiset(q) == multiset(Fit(q, cap)) + (multiset(q) - multiset(Fit(q, cap)))
    ensures |multiset(q) - multiset(Fit(q, cap))| == |q| - |Fit(q, cap)|
    ensures |Fit(q, cap)| <= |q| && |Fit(q, cap)| <= cap
  {
    FitSelects(q, cap);
    var kept := Fit(q, cap);
    assert |multiset(q)| == |multiset(kept)| + |multiset(q) - multiset(kept)|;
  }

  lemma HeadOut(q: seq<Record>)
    requires q != []
    ensures multiset(q) == multiset{q[0]} + multiset(q[1..])
  {
    assert q == [q[0]] + q[1..];
  }

  lemma OfferKeeps(s: State, kind: string, cap: nat)
    requires Inv(s, cap)
    ensures Inv(Step(s, Offer(kind), cap), cap)
  {
    hide Numbered;
    NumberNext(s.accepted, kind);
  }

  lemma DrainKeeps(s: State, cap: nat)
    requires Inv(s, cap)
    ensures Inv(Step(s, Drain, cap), cap)
  {
    if s.ch != [] { HeadOut(s.ch); }
  }

  lemma RefitKeeps(s: State, cap: nat)
    requires Inv(s, cap)
    ensures Inv(Step(s, Refit, cap), cap)
  {
    hide Fit;
    if s.phase.Draining? && s.ch == [] {
      var q := s.phase.drained + [s.phase.offered];
      RefitCounts(q, cap);
      assert Held(s.phase) == multiset(q);
    }
  }

  lemma PutKeeps(s: State, cap: nat)
    requires Inv(s, cap)
    ensures Inv(Step(s, Put, cap), cap)
  {
    if s.phase.Rebuilding? && s.phase.rest != [] { HeadOut(s.phase.rest); }
  }

  lemma TakeKeeps(s: State, cap: nat)
    requires Inv(s, cap)
    ensures Inv(Step(s, Take, cap), cap)
  {
    if s.ch != [] { HeadOut(s.ch); }
  }

  lemma StepKeepsInv(s: State, e: Event, cap: nat)
    requires Inv(s, cap)
    ensures Inv(Step(s, e, cap), cap)
  {
    match e {
      case Offer(kind) => OfferKeeps(s, kind, cap);
      case Drain => DrainKeeps(s, cap);
      case Refit => RefitKeeps(s, cap);
      case Put => PutKeeps(s, cap);
      case Take => TakeKeeps(s, cap);
      case Release =>
      case Close =>
      case Report =>
    }
  }

  /** In every interleaving of enqueuers, the writer goroutine and Close, the invariant holds. */
  lemma RunKeepsInv(events: seq<Event>, cap: nat)
    ensures Inv(Run(events, cap), cap)
  {
    ReachableInv(Start, events, cap);
  }

  /** A record accepted once is in exactly one place, once. */
  lemma OnePlace(events: seq<Event>, cap: nat, r: Record)
    ensures var s := Run(events, cap);
            r in s.accepted ==>
              multiset(s.written)[r] + multiset(s.ch)[r] + Held(s.phase)[r] + s.lost[r] == 1
  {
    var s := Run(events, cap);
    RunKeepsInv(events, cap);
    StampedOnce(s.accepted, r);
  }

  lemma {:induction false} StampedOnce(q: seq<Record>, r: Record)
    requires forall i, j :: 0 <= i < j < |q| ==> q[i] != q[j]
    ensures r in q ==> multiset(q)[r] == 1
  {
    if q != [] {
      var init := q[..|q| - 1];
      StampedOnce(init, r);
      assert q == init + [q[|q| - 1]];
      assert multiset(init)[r] == 0 <==> r !in init;
    }
  }

  /** Records on their way, in the order the writer goroutine would meet them while nothing is rebuilt. */
  function InOrder(s: State): seq<Record>
  {
    s.written + s.ch + (if s.phase.Draining? then s.phase.drained + [s.phase.offered] else [])
  }

  /** As long as the channel was never full, every accepted record is written or waiting, in order. */
  lemma {:induction false} OrderKept(events: seq<Event>, cap: nat)
    requires Drain !in events && Refit !in events
    ensures var s := Run(events, cap);
      InOrder(s) == s.accepted && !s.phase.Rebuilding? && s.dropped == 0
      && (s.phase.Draining? ==> s.phase.drained == [])
  {
    if events != [] {
      var init := events[..|events| - 1];
      OrderKept(init, cap);
      OrderStep(Run(init, cap), events[|events| - 1], cap);
    }
  }

  lemma OrderStep(s: State, e: Event, cap: nat)
    requires InOrder(s) == s.accepted && !s.phase.Rebuilding? && s.dropped == 0
    requires s.phase.Draining? ==> s.phase.drained == []
    requires e != Drain && e != Refit
    ensures var t := Step(s, e, cap);
      InOrder(t) == t.accepted && !t.phase.Rebuilding? && t.dropped == 0
      && (t.phase.Draining? ==> t.phase.drained == [])
  {
    if s.ch != [] { assert s.written + [s.ch[0]] + s.ch[1..] == s.written + s.ch; }
    if e.Offer? {
      var r := [Record(e.kind, s.seqno + 1)];
      assert s.written + (s.ch + r) == s.written + s.ch + r;
      assert [] + r == r && s.written + s.ch + [] == s.written + s.ch;
    }
  }

  /** The rebuild send never meets a full channel, so it never drops. */
  lemma PutNeverDrops(events: seq<Event>, cap: nat)
    ensures var s := Run(events, cap);
            s.phase.Rebuilding? && s.phase.rest != [] ==>
              |s.ch| < cap && Step(s, Put, cap).dropped == s.dropped
  {
    RunKeepsInv(events, cap);
  }

  /** Nothing is sent once the writer is closed: the channel only shrinks from the front. */
  lemma NothingAfterClose(events: seq<Event>, e: Event, cap: nat)
    requires Run(events, cap).closed
    ensures var s, t := Run(events, cap), Step(Run(events, cap), e, cap);
            && t.closed && t.accepted == s.accepted && t.dropped == s.dropped
            && (t.ch == s.ch || (s.ch != [] && t.ch == s.ch[1..]))
  {
    RunKeepsInv(events, cap);
  }

  /** The final record reports every loss there ever was: each accepted record was written or counted. */
  lemma ReportIsComplete(events: seq<Event>, cap: nat)
    ensures var s := Run(events, cap);
            s.report.Some? ==>
              multiset(s.accepted) == multiset(s.written) + s.lost && s.report.value == |s.lost|
              && |s.accepted| == |s.written| + s.report.value
  {
    RunKeepsInv(events, cap);
    var s := Run(events, cap);
    if s.report.Some? {
      assert |multiset(s.accepted)| == |multiset(s.written)| + |s.lost|;
    }
  }

  /** A durable record is given up only when the queue it leaves holds nothing but newer durable ones. */
  lemma DurableLossNeedsFullQueue(s: State, cap: nat, r: Record)
    requires s.phase.Draining? && s.ch == [] && Durable(r)
    requires var q := s.phase.drained + [s.phase.offered];
             multiset(Only(Fit(q, cap), true))[r] < multiset(Only(q, true))[r]
    ensures var kept := Step(s, Refit, cap).phase.rest;
            && |kept| == cap && Only(kept, false) == []
            && Only(kept, true) == Newest(Only(s.phase.drained + [s.phase.offered], true), cap)
  {
    FitSelects(s.phase.drained + [s.phase.offered], cap);
    OnlyPartition(Fit(s.phase.drained + [s.phase.offered], cap));
  }

  // ---------------------------------------------------------------- the writer

  lemma RunMore(s: State, events: seq<Event>, e: Event, cap: nat)
    ensures RunFrom(s, events + [e], cap) == Step(RunFrom(s, events, cap), e, cap)
  {
    assert (events + [e])[..|events|] == events;
  }

  lemma OfferStep(s: State, kind: string, cap: nat)
    requires s.phase == Idle && !s.closed
    ensures var r := Record(kind, s.seqno + 1);
            Step(s, Offer(kind), cap)
              == s.(seqno := s.seqno + 1, accepted := s.accepted + [r],
                    ch := if |s.ch| < cap then s.ch + [r] else s.ch,
                    phase := if |s.ch| < cap then Idle else Draining([], r))
  {
  }

  lemma RefitStep(s: State, cap: nat)
    requires s.phase.Draining? && s.ch == []
    ensures var q := s.phase.drained + [s.phase.offered];
            Step(s, Refit, cap)
              == s.(phase := Rebuilding(Fit(q, cap)), dropped := s.dropped + (|q| - |Fit(q, cap)|),
                    lost := s.lost + (multiset(q) - multiset(Fit(q, cap))))
  {
    hide Fit;
    RefitCounts(s.phase.drained + [s.phase.offered], cap);
  }

  lemma RefitRun(s0: State, events: seq<Event>, s: State, cap: nat)
    requires s == RunFrom(s0, events, cap) && s.phase.Draining? && s.ch == []
    ensures var q := s.phase.drained + [s.phase.offered];
            && |Fit(q, cap)| <= |q| && |Fit(q, cap)| <= cap
            && RunFrom(s0, events + [Refit], cap)
                 == s.(phase := Rebuilding(Fit(q, cap)), dropped := s.dropped + (|q| - |Fit(q, cap)|),
                       lost := s.lost + (multiset(q) - multiset(Fit(q, cap))))
  {
    hide Fit, RunFrom, Step;
    RefitCounts(s.phase.drained + [s.phase.offered], cap);
    RefitStep(s, cap);
    RunMore(s0, events, Refit, cap);
  }

  lemma TakeStep(s: State, cap: nat)
    requires s.ch != []
    ensures Step(s, Take, cap) == s.(written := s.written + [s.ch[0]], ch := s.ch[1..])
  {
  }

  lemma DrainStep(s: State, cap: nat)
    requires s.phase.Draining? && s.ch != []
    ensures Step(s, Drain, cap) == s.(phase := Draining(s.phase.drained + [s.ch[0]], s.phase.offered), ch := s.ch[1..])
  {
  }

  lemma ReleaseStep(s: State, cap: nat)
    requires s.phase == Rebuilding([])
    ensures Step(s, Release, cap) == s.(phase := Idle)
  {
  }

  lemma HeadMoves(q: seq<Record>, ch: seq<Record>)
    requires ch != []
    ensures q + [ch[0]] + ch[1..] == q + ch
  {
  }

  class Writer {
    const cap: nat
    var ch: seq<Record>
    var closed: bool
    var seqno: nat
    var dropped: nat
    var report: Option<nat>
    var accepted: seq<Record>
    var written: seq<Record>
    ghost var lost: multiset<Record>

    constructor (cap: nat)
      ensures this.cap == cap && View(Idle) == Start
    {
      this.cap := cap;
      ch, closed, seqno, dropped, report := [], false, 0, 0, None;
      accepted, written, lost := [], [], multiset{};
    }

    /** The protocol state while the lock holder is in `phase`. */
    ghost function View(phase: Phase): State
      reads this
    {
      State(ch, phase, closed, seqno, dropped, report, accepted, written, lost)
    }

    /** The writer goroutine receives up to `n` records. */
    method Receive(n: nat, ghost s0: State, ghost events: seq<Event>, ghost phase: Phase)
      returns (ghost more: seq<Event>)
      requires View(phase) == RunFrom(s0, events, cap)
      modifies this`ch, this`written
      ensures View(phase) == RunFrom(s0, more, cap)
      ensures |ch| <= old(|ch|) && (n == 0 ==> ch == old(ch))
    {
      more := events;
      for i := 0 to n
        invariant View(phase) == RunFrom(s0, more, cap)
        invariant |ch| <= old(|ch|) && (i == 0 ==> ch == old(ch))
      {
        hide RunFrom, Step;
        if ch == [] { return; }
        TakeStep(View(phase), cap);
        RunMore(s0, more, Take, cap);
        more := more + [Take];
        written := written + [ch[0]];
        ch := ch[1..];
      }
    }

    /** The receive loop of enqueue, run until the channel is found empty. */
    method DrainChannel(turns: nat -> nat, r: Record, ghost s0: State, ghost events: seq<Event>)
      returns (q: seq<Record>, ghost more: seq<Event>)
      requires View(Draining([], r)) == RunFrom(s0, events, cap)
      modifies this`ch, this`written
      ensures View(Draining(q, r)) == RunFrom(s0, more, cap) && ch == []
      ensures (forall k :: turns(k) == 0) ==> q == old(ch)
    {
      q, more := [], events;
      var k := 0;
      while true
        invariant View(Draining(q, r)) == RunFrom(s0, more, cap)
        invariant (forall k :: turns(k) == 0) ==> q + ch == old(ch)
        decreases |ch|
      {
        hide RunFrom, Step;
        more := Receive(turns(k), s0, more, Draining(q, r));
        if ch == [] { break; }
        DrainStep(View(Draining(q, r)), cap);
        RunMore(s0, more, Drain, cap);
        HeadMoves(q, ch);
        more := more + [Drain];
        q := q + [ch[0]];
        ch := ch[1..];
        k := k + 1;
      }
    }

    /** The send loop of enqueue. */
    method Rebuild(turns: nat -> nat, q: seq<Record>, ghost s0: State, ghost events: seq<Event>)
      returns (ghost more: seq<Event>)
      requires View(Rebuilding(q)) == RunFrom(s0, events, cap) && |ch| + |q| <= cap
      modifies this`ch, this`written, this`dropped, this`lost
      ensures View(Rebuilding([])) == RunFrom(s0, more, cap)
      ensures dropped == old(dropped)
      ensures (forall k :: turns(k) == 0) ==> ch == old(ch) + q
    {
      more := events;
      assert q[0..] == q;
      for i := 0 to |q|
        invariant View(Rebuilding(q[i..])) == RunFrom(s0, more, cap)
        invariant |ch| + |q[i..]| <= cap && dropped == old(dropped)
        invariant (forall k :: turns(k) == 0) ==> ch == old(ch) + q[..i]
      {
        more := Receive(turns(i), s0, more, Rebuilding(q[i..]));
        hide RunFrom;
        RunMore(s0, more, Put, cap);
        Next(q, i);
        Grow(q, i);
        Assoc(old(ch), q[..i], [q[i]]);
        more := more + [Put];
        if |ch| < cap { ch := ch + [q[i]]; } else { assert false; }
      }
      assert q[|q|..] == [] && q[..|q|] == q;
    }

    /** enqueue; before the k-th receive of its drain the writer goroutine receives up to `turns(k)` records, and
        before the k-th send of its rebuild up to `sendTurns(k)`. */
    method Enqueue(kind: string, turns: nat -> nat, sendTurns: nat -> nat) returns (ghost events: seq<Event>)
      requires Inv(View(Idle), cap)
      modifies this
      ensures View(Idle) == RunFrom(old(View(Idle)), events, cap) && Inv(View(Idle), cap)
      ensures old(closed) ==> View(Idle) == old(View(Idle))
      ensures !old(closed) ==> accepted == old(accepted) + [Record(kind, old(seqno) + 1)]
      ensures !old(closed) && (forall k :: turns(k) == 0) && (forall k :: sendTurns(k) == 0) ==>
        var q := old(ch) + [Record(kind, old(seqno) + 1)];
        ch == if old(|ch|) < cap then q else Fit(q, cap)
    {
      ghost var s0 := View(Idle);
      events := [];
      if closed { return; }
      hide Fit, Inv, Step, RunFrom;
      OfferStep(s0, kind, cap);
      seqno := seqno + 1;
      var r := Record(kind, seqno);
      accepted := accepted + [r];
      OfferKeeps(s0, kind, cap);
      RunMore(s0, [], Offer(kind), cap);
      events := [] + [Offer(kind)];
      if |ch| < cap {
        ch := ch + [r];
      } else {
        events := EnqueueFull(r, turns, sendTurns, s0, events);
      }
      ReachableInv(s0, events, cap);
    }

    /** The channel is full: take everything back, thin it out, and send the rest. */
    method EnqueueFull(r: Record, turns: nat -> nat, sendTurns: nat -> nat, ghost s0: State, ghost events: seq<Event>)
      returns (ghost more: seq<Event>)
      requires Inv(s0, cap) && View(Draining([], r)) == RunFrom(s0, events, cap)
      modifies this`ch, this`written, this`dropped, this`lost
      ensures View(Idle) == RunFrom(s0, more, cap)
      ensures (forall k :: turns(k) == 0) && (forall k :: sendTurns(k) == 0) ==> ch == Fit(old(ch) + [r], cap)
    {
      hide Fit, RunFrom, Step, Durable;
      var q;
      q, more := DrainChannel(turns, r, s0, events);
      q, more := Thin(q, r, s0, more);
      more := Rebuild(sendTurns, q, s0, more);
      ReleaseStep(View(Rebuilding([])), cap);
      RunMore(s0, more, Release, cap);
      more := more + [Release];
      assert [] + q == q;
    }

    /** Thin out what was taken back, and count what is given up. */
    method Thin(drained: seq<Record>, r: Record, ghost s0: State, ghost events: seq<Event>)
      returns (q: seq<Record>, ghost more: seq<Event>)
      requires View(Draining(drained, r)) == RunFrom(s0, events, cap) && ch == []
      modifies this`dropped, this`lost
      ensures q == Fit(drained + [r], cap) && |q| <= cap
      ensures View(Rebuilding(q)) == RunFrom(s0, more, cap)
    {
      hide Fit, RunFrom, Step, Durable;
      RefitRun(s0, events, View(Draining(drained, r)), cap);
      var full := drained + [r];
      q := FitTranscriptQueue(full, cap);
      more := events + [Refit];
      if |full| - |q| > 0 { dropped := dropped + (|full| - |q|); }
      lost := lost + (multiset(full) - multiset(q));
    }

    /** Close, up to waiting for the writer goroutine. */
    method CloseChannel()
      requires Inv(View(Idle), cap)
      modifies this`closed
      ensures View(Idle) == Step(old(View(Idle)), Close, cap) && Inv(View(Idle), cap)
    {
      closed := true;
    }

    /** The writer goroutine's loop once the channel is closed, with its final report. */
    method Finish() returns (ghost events: seq<Event>)
      requires Inv(View(Idle), cap) && closed && report.None?
      modifies this`ch, this`written, this`report
      ensures View(Idle) == RunFrom(old(View(Idle)), events, cap)
      ensures ch == [] && written == old(written) + old(ch) && report == Some(dropped)
    {
      ghost var s0 := View(Idle);
      events := [];
      while ch != []
        invariant View(Idle) == RunFrom(s0, events, cap)
        invariant written + ch == old(written) + old(ch) && report.None?
        decreases |ch|
      {
        hide RunFrom, Step, Inv;
        TakeStep(View(Idle), cap);
        RunMore(s0, events, Take, cap);
        HeadMoves(written, ch);
        events := events + [Take];
        written := written + [ch[0]];
        ch := ch[1..];
      }
      assert written + [] == written;
      RunMore(s0, events, Report, cap);
      events := events + [Report];
      report := Some(dropped);
    }
  }

  lemma {:induction false} ReachableInv(s: State, events: seq<Event>, cap: nat)
    requires Inv(s, cap)
    ensures Inv(RunFrom(s, events, cap), cap)
  {
    hide Inv, Step;
    if events != [] {
      ReachableInv(s, events[..|events| - 1], cap);
      StepKeepsInv(RunFrom(s, events[..|events| - 1], cap), events[|events| - 1], cap);
    }
  }
}
