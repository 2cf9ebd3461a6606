/**
 The WebSocket hub (internal/netapi/stream.go): a set of connections with bounded event
 and audio queues, and an ordered audio cancellation boundary. Every hub method runs
 under one lock and is one step; each connection's writer goroutine takes messages off
 the queues between steps.
 */
module StreamHub {

  const CONN_QUEUE_DEPTH := 64
  const AUDIO_QUEUE_DEPTH := 128
  const MAX_STREAM_CLIENTS := 8

  /** An audio message, with the turn it was queued in: the number of resumeAudio calls before it. */
  datatype Audio = Chunk(payload: int, turn: nat) | Reset(turn: nat)

  /** One connection. `sent` and `taken` are the audio and the events its writer has taken; `barrier` is the turn of
      the last reset that covers it, -1 for none: a reset while it streamed, or one in force when it joined. */
  datatype Conn = Conn(
    out: seq<int>, audio: seq<Audio>, audioStream: bool, audioBlocked: bool, kicked: bool,
    sent: seq<Audio>, taken: seq<int>, barrier: int)
  {
    /** Everything this client was, or still will be, sent. */
    function Stream(): seq<Audio> { sent + audio }

    function Events(): seq<int> { taken + out }
  }

  /** The hub: `conns` are registered, `state` describes every connection there ever was. */
  datatype Hub<!T(==)> = Hub(conns: set<T>, state: map<T, Conn>, audioBlocked: bool, streamers: int, turn: nat)

  predicate WellFormed<T>(h: Hub<T>) { h.conns <= h.state.Keys }

  datatype Op<T> =
    | Add(c: T)
    | Remove(c: T)
    | SetConnAudio(c: T, on: bool)
    | Broadcast(msg: int)
    | BroadcastAudio(payload: int)
    | ResetAudio
    | ResumeAudio
    | TakeEvent(c: T)
    | TakeAudio(c: T)

  // ---------------------------------------------------------------- one connection

  function Overflow(c: Conn): bool { |c.out| >= CONN_QUEUE_DEPTH }

  function OnBroadcast(c: Conn, msg: int): Conn
  {
    if Overflow(c) then c.(kicked := true, audioStream := false) else c.(out := c.out + [msg])
  }

  function OnAudio(c: Conn, chunk: Audio): Conn
  {
    if !c.audioStream || c.audioBlocked || |c.audio| >= AUDIO_QUEUE_DEPTH then c else c.(audio := c.audio + [chunk])
  }

  function OnReset(c: Conn, turn: nat): Conn
  {
    if c.audioStream then c.(audioBlocked := true, audio := [Reset(turn)], barrier := turn) else c
  }

  function OnResume(c: Conn): Conn { c.(audioBlocked := false) }

  function OnAdd(c: Conn, blocked: bool, turn: nat): Conn
  {
    c.(audioBlocked := blocked, barrier := if blocked then turn else c.barrier)
  }

  // ---------------------------------------------------------------- the hub

  function Streaming<T>(h: Hub<T>): set<T>
    requires WellFormed(h)
  {
    set c | c in h.conns && h.state[c].audioStream
  }

  function Evicted<T>(h: Hub<T>): set<T>
    requires WellFormed(h)
  {
    set c | c in h.conns && Overflow(h.state[c])
  }

  /** Apply `f` to every registered connection. */
  function ForEach<T>(h: Hub<T>, f: Conn -> Conn): (state: map<T, Conn>)
    requires WellFormed(h)
    ensures state.Keys == h.state.Keys
  {
    map c | c in h.state :: if c in h.conns then f(h.state[c]) else h.state[c]
  }

  function Broadcasting(msg: int): Conn -> Conn { c => OnBroadcast(c, msg) }

  function Queueing(chunk: Audio): Conn -> Conn { c => OnAudio(c, chunk) }

  function Resetting(turn: nat): Conn -> Conn { c => OnReset(c, turn) }

  function Resuming(): Conn -> Conn { c => OnResume(c) }

  function Step<T>(h: Hub<T>, op: Op<T>): (r: Hub<T>)
    requires WellFormed(h)
    ensures WellFormed(r) && r.state.Keys == h.state.Keys
  {
    match op
    case Add(c) =>
      if c !in h.state || |h.conns| >= MAX_STREAM_CLIENTS then h
      else h.(conns := h.conns + {c}, state := h.state[c := OnAdd(h.state[c], h.audioBlocked, h.turn)])
    case Remove(c) =>
      if c !in h.conns then h
      else h.(conns := h.conns - {c},
              streamers := h.streamers - (if h.state[c].audioStream then 1 else 0),
              state := h.state[c := h.state[c].(audioStream := false)])
    case SetConnAudio(c, on) =>
      if c !in h.conns || h.state[c].audioStream == on then h
      else h.(streamers := h.streamers + (if on then 1 else -1), state := h.state[c := h.state[c].(audioStream := on)])
    case Broadcast(msg) =>
      h.(conns := h.conns - Evicted(h),
         streamers := h.streamers - |Evicted(h) * Streaming(h)|,
         state := ForEach(h, Broadcasting(msg)))
    case BroadcastAudio(payload) => h.(state := ForEach(h, Queueing(Chunk(payload, h.turn))))
    case ResetAudio => h.(audioBlocked := true, state := ForEach(h, Resetting(h.turn)))
    case ResumeAudio => h.(audioBlocked := false, turn := h.turn + 1, state := ForEach(h, Resuming()))
    case TakeEvent(c) =>
      if c !in h.state || h.state[c].out == [] then h
      else var k := h.state[c];
           h.(state := h.state[c := k.(out := k.out[1..], taken := k.taken + [k.out[0]])])
    case TakeAudio(c) =>
      if c !in h.state || h.state[c].audio == [] then h
      else var k := h.state[c];
           h.(state := h.state[c := k.(audio := k.audio[1..], sent := k.sent + [k.audio[0]])])
  }

  /** A connection before it is offered to the hub. */
  const NewConn := Conn([], [], false, false, false, [], [], -1)

  /** An empty hub; `clients` are the connections that will ever be offered to it. */
  function Fresh<T>(clients: set<T>): (h: Hub<T>)
    ensures WellFormed(h)
  {
    Hub({}, map c | c in clients :: NewConn, false, 0, 0)
  }

  function Run<T>(clients: set<T>, ops: seq<Op<T>>): (h: Hub<T>)
    ensures WellFormed(h) && h.state.Keys == clients
  {
    if ops == [] then Fresh(clients) else Step(Run(clients, ops[..|ops| - 1]), ops[|ops| - 1])
  }

  // ---------------------------------------------------------------- invariants over all runs

  /** Behind a reset marker there are only chunks of later turns. */
  ghost predicate Ordered(s: seq<Audio>)
  {
    forall i, j :: 0 <= i < j < |s| && s[i].Reset? && s[j].Chunk? ==> s[i].turn < s[j].turn
  }

  /** Reset markers are no newer than the last reset that covers the client. */
  ghost predicate Within(s: seq<Audio>, barrier: int)
  {
    forall i :: 0 <= i < |s| && s[i].Reset? ==> s[i].turn <= barrier
  }

  ghost predicate ConnInv(c: Conn, registered: bool, blocked: bool, turn: nat)
  {
    && -1 <= c.barrier <= turn
    && (c.barrier == turn ==> blocked)
    && (registered ==> (c.audioBlocked <==> c.barrier == turn))
    && (!registered ==> !c.audioStream)
    && |c.audio| <= AUDIO_QUEUE_DEPTH && |c.out| <= CONN_QUEUE_DEPTH
    && Ordered(c.Stream()) && Within(c.Stream(), c.barrier)
  }

  ghost predicate Inv<T>(h: Hub<T>)
    requires WellFormed(h)
  {
    && |h.conns| <= MAX_STREAM_CLIENTS
    && h.streamers == |Streaming(h)|
    && forall c :: c in h.state ==> ConnInv(h.state[c], c in h.conns, h.audioBlocked, h.turn)
  }

  lemma PushChunk(c: Conn, payload: int, blocked: bool, turn: nat)
    requires ConnInv(c, true, blocked, turn)
    ensures ConnInv(OnAudio(c, Chunk(payload, turn)), true, blocked, turn)
  {
    var k := OnAudio(c, Chunk(payload, turn));
    assert k != c ==> k.Stream() == c.Stream() + [Chunk(payload, turn)];
  }

  lemma PushReset(c: Conn, blocked: bool, turn: nat)
    requires ConnInv(c, true, blocked, turn)
    ensures ConnInv(OnReset(c, turn), true, true, turn)
  {
    if c.audioStream {
      var k := OnReset(c, turn);
      assert forall i :: 0 <= i < |c.sent| ==> c.sent[i] == c.Stream()[i];
      assert k.Stream() == c.sent + [Reset(turn)];
    }
  }

  lemma TakeKeepsStream(c: Conn)
    requires c.audio != []
    ensures c.(audio := c.audio[1..], sent := c.sent + [c.audio[0]]).Stream() == c.Stream()
  {
  }

  /** What a step leaves of one client. */
  function ConnAfter<T>(h: Hub<T>, op: Op<T>, c: T): Conn
    requires WellFormed(h) && c in h.state
  {
    var k := h.state[c];
    match op
    case Add(d) => if d == c && |h.conns| < MAX_STREAM_CLIENTS then OnAdd(k, h.audioBlocked, h.turn) else k
    case Remove(d) => if d == c && c in h.conns then k.(audioStream := false) else k
    case SetConnAudio(d, on) => if d == c && c in h.conns then k.(audioStream := on) else k
    case Broadcast(msg) => if c in h.conns then OnBroadcast(k, msg) else k
    case BroadcastAudio(payload) => if c in h.conns then OnAudio(k, Chunk(payload, h.turn)) else k
    case ResetAudio => if c in h.conns then OnReset(k, h.turn) else k
    case ResumeAudio => if c in h.conns then OnResume(k) else k
    case TakeEvent(d) => if d == c && k.out != [] then k.(out := k.out[1..], taken := k.taken + [k.out[0]]) else k
    case TakeAudio(d) =>
      if d == c && k.audio != [] then k.(audio := k.audio[1..], sent := k.sent + [k.audio[0]]) else k
  }

  lemma StateAt<T>(h: Hub<T>, op: Op<T>, c: T)
    requires WellFormed(h) && c in h.state
    ensures Step(h, op).state[c] == ConnAfter(h, op, c)
  {
    hide OnAdd, OnBroadcast, OnAudio, OnReset, OnResume, Evicted, Streaming;
  }

  lemma EachKeeps<T>(h: Hub<T>, op: Op<T>, c: T)
    requires WellFormed(h) && Inv(h) && c in h.state
    ensures var r := Step(h, op); c in r.state && ConnInv(r.state[c], c in r.conns, r.audioBlocked, r.turn)
  {
    var k := h.state[c];
    assert ConnInv(k, c in h.conns, h.audioBlocked, h.turn);
    hide Ordered, Within, ForEach, Streaming;
    StateAt(h, op, c);
    match op {
      case Add(_) =>
        WidenBarrier(k.Stream(), k.barrier, h.turn);
      case BroadcastAudio(payload) => if c in h.conns { PushChunk(k, payload, h.audioBlocked, h.turn); }
      case ResetAudio => if c in h.conns { PushReset(k, h.audioBlocked, h.turn); }
      case TakeAudio(d) => if c == d && k.audio != [] { TakeKeepsStream(k); }
      case _ =>
    }
  }

  lemma WidenBarrier(s: seq<Audio>, barrier: int, turn: int)
    requires Within(s, barrier) && barrier <= turn
    ensures Within(s, turn)
  {
  }

  lemma AddCount<T>(h: Hub<T>, c: T)
    requires WellFormed(h) && Inv(h)
    ensures Streaming(Step(h, Add(c))) == Streaming(h)
  {
    if c in h.state { assert ConnInv(h.state[c], c in h.conns, h.audioBlocked, h.turn); }
  }

  lemma BroadcastCount<T>(h: Hub<T>, msg: int)
    requires WellFormed(h)
    ensures Streaming(Step(h, Broadcast(msg))) == Streaming(h) - Evicted(h) * Streaming(h)
    ensures |Streaming(Step(h, Broadcast(msg)))| == |Streaming(h)| - |Evicted(h) * Streaming(h)|
    ensures |Step(h, Broadcast(msg)).conns| <= |h.conns|
  {
    assert Streaming(Step(h, Broadcast(msg))) == Streaming(h) - Evicted(h) * Streaming(h);
    FewerIsSmaller(Step(h, Broadcast(msg)).conns, h.conns);
  }

  lemma OptCount<T>(h: Hub<T>, c: T, on: bool)
    requires WellFormed(h) && h.streamers == |Streaming(h)|
    ensures var r := Step(h, SetConnAudio(c, on)); r.streamers == |Streaming(r)|
  {
    hide ForEach, Evicted;
    var r := Step(h, SetConnAudio(c, on));
    if r != h { assert Streaming(r) == if on then Streaming(h) + {c} else Streaming(h) - {c}; }
  }

  lemma RemoveCount<T>(h: Hub<T>, c: T)
    requires WellFormed(h) && h.streamers == |Streaming(h)|
    ensures var r := Step(h, Remove(c)); r.streamers == |Streaming(r)| && |r.conns| <= |h.conns|
  {
    hide ForEach, Evicted;
    var r := Step(h, Remove(c));
    if c in h.conns { assert Streaming(r) == Streaming(h) - {c}; }
  }

  /** The other steps leave the streaming set alone. */
  lemma StillCount<T>(h: Hub<T>, op: Op<T>)
    requires WellFormed(h) && !(op.Add? || op.Remove? || op.SetConnAudio? || op.Broadcast?)
    ensures Streaming(Step(h, op)) == Streaming(h)
    ensures Step(h, op).conns == h.conns && Step(h, op).streamers == h.streamers
  {
  }

  lemma CountKeeps<T>(h: Hub<T>, op: Op<T>)
    requires WellFormed(h) && Inv(h)
    ensures var r := Step(h, op); r.streamers == |Streaming(r)| && |r.conns| <= MAX_STREAM_CLIENTS
  {
    match op {
      case Add(c) => AddCount(h, c);
      case Remove(c) => RemoveCount(h, c);
      case SetConnAudio(c, on) => OptCount(h, c, on);
      case Broadcast(msg) => BroadcastCount(h, msg);
      case _ => StillCount(h, op);
    }
  }

  lemma {:induction false} FewerIsSmaller<T>(a: set<T>, b: set<T>)
    requires a <= b
    ensures |a| <= |b|
  {
    assert b == a + (b - a);
  }

  lemma StepKeepsInv<T>(h: Hub<T>, op: Op<T>)
    requires WellFormed(h) && Inv(h)
    ensures Inv(Step(h, op))
  {
    hide ConnInv, Step;
    var r := Step(h, op);
    CountKeeps(h, op);
    forall c | c in r.state ensures ConnInv(r.state[c], c in r.conns, r.audioBlocked, r.turn) { EachKeeps(h, op, c); }
  }

  /** In every run of any clients, the invariant holds: `streamers` counts the streaming connections. */
  lemma {:induction false} RunKeepsInv<T>(clients: set<T>, ops: seq<Op<T>>)
    ensures Inv(Run(clients, ops))
  {
    if ops == [] {
      assert Streaming(Fresh(clients)) == {};
    } else {
      RunKeepsInv(clients, ops[..|ops| - 1]);
      StepKeepsInv(Run(clients, ops[..|ops| - 1]), ops[|ops| - 1]);
    }
  }

  /** The reset is a barrier: behind an audio_reset marker no client of any run ever has a chunk that was
      broadcast before the next resumeAudio. */
  lemma ResetIsBarrier<T>(clients: set<T>, ops: seq<Op<T>>, c: T, i: nat, j: nat)
    requires c in Run(clients, ops).state
    requires var s := Run(clients, ops).state[c].Stream(); i < j < |s| && s[i].Reset? && s[j].Chunk?
    ensures var s := Run(clients, ops).state[c].Stream(); s[i].turn < s[j].turn
  {
    RunKeepsInv(clients, ops);
    var h := Run(clients, ops);
    assert ConnInv(h.state[c], c in h.conns, h.audioBlocked, h.turn);
  }

  // ---------------------------------------------------------------- who is covered

  /** A registered client that a reset of the current turn covers. */
  predicate Covered<T>(h: Hub<T>, c: T)
    requires WellFormed(h)
  {
    c in h.conns && h.state[c].barrier == h.turn
  }

  /** A reset covers exactly the clients that stream; joining behind one covers the joiner. */
  lemma ResetCovers<T>(clients: set<T>, ops: seq<Op<T>>, c: T)
    requires c in Run(clients, ops).conns
    ensures var h := Run(clients, ops); var r := Step(h, ResetAudio);
            && (Covered(r, c) <==> h.state[c].audioStream || Covered(h, c))
            && (h.state[c].audioStream ==> r.state[c].audio == [Reset(h.turn)])
  {
  }

  lemma JoinCovers<T>(clients: set<T>, ops: seq<Op<T>>, c: T)
    requires var h := Run(clients, ops);
             c in h.state && c !in h.conns && |h.conns| < MAX_STREAM_CLIENTS && h.audioBlocked
    ensures Covered(Step(Run(clients, ops), Add(c)), c)
  {
  }

  /** From `a` to `b` nothing but reset markers was queued. */
  ghost predicate Quiet(a: Conn, b: Conn)
  {
    exists k: nat :: QuietFrom(a, b, k)
  }

  ghost predicate QuietFrom(a: Conn, b: Conn, k: nat)
  {
    && |a.sent| <= k <= |a.Stream()| && k <= |b.Stream()| && a.Stream()[..k] == b.Stream()[..k]
    && |a.sent| <= |b.sent|
    && forall i :: k <= i < |b.Stream()| ==> b.Stream()[i].Reset?
  }

  /** What a step does to one client's stream while the hub is blocked. */
  lemma StreamStep<T>(h: Hub<T>, op: Op<T>, c: T)
    requires WellFormed(h) && Inv(h) && c in h.state
    requires op != ResumeAudio && h.audioBlocked && (c in h.conns ==> Covered(h, c))
    ensures var b, d := h.state[c], Step(h, op).state[c];
      (d.Stream() == b.Stream() && |b.sent| <= |d.sent|) || (d.sent == b.sent && d.audio == [Reset(h.turn)])
  {
    var b := h.state[c];
    assert ConnInv(b, c in h.conns, h.audioBlocked, h.turn);
    hide Step, Inv, Ordered, Within;
    StateAt(h, op, c);
    match op
    case TakeAudio(_) => if b.audio != [] { TakeKeepsStream(b); }
    case _ =>
  }

  lemma StaysCovered<T>(h: Hub<T>, op: Op<T>, c: T)
    requires WellFormed(h) && Inv(h) && c in h.state
    requires op != ResumeAudio && h.audioBlocked && (c in h.conns ==> Covered(h, c))
    ensures Step(h, op).audioBlocked && (c in Step(h, op).conns ==> Covered(Step(h, op), c))
  {
    assert ConnInv(h.state[c], c in h.conns, h.audioBlocked, h.turn);
  }

  lemma QuietSame(a: Conn, b: Conn, d: Conn)
    requires Quiet(a, b) && d.Stream() == b.Stream() && |b.sent| <= |d.sent|
    ensures Quiet(a, d)
  {
    var k: nat :| QuietFrom(a, b, k);
    assert QuietFrom(a, d, k);
  }

  /** A reset drops the queue: what was taken before still agrees with `a`. */
  lemma QuietReset(a: Conn, b: Conn, d: Conn, turn: nat)
    requires Quiet(a, b) && d.sent == b.sent && d.audio == [Reset(turn)]
    ensures Quiet(a, d)
  {
    var k: nat :| QuietFrom(a, b, k);
    var m := if k <= |b.sent| then k else |b.sent|;
    var s, t := b.Stream(), d.Stream();
    forall i | 0 <= i < |b.sent| ensures s[i] == b.sent[i] && t[i] == b.sent[i] {}
    assert forall i :: 0 <= i < m ==> a.Stream()[..k][i] == s[..k][i];
    assert a.Stream()[..m] == t[..m];
    assert QuietFrom(a, d, m);
  }

  lemma QuietStep<T>(h: Hub<T>, op: Op<T>, c: T, a: Conn)
    requires WellFormed(h) && Inv(h) && c in h.state && Quiet(a, h.state[c])
    requires op != ResumeAudio && h.audioBlocked && (c in h.conns ==> Covered(h, c))
    ensures Quiet(a, Step(h, op).state[c]) && Step(h, op).audioBlocked
    ensures c in Step(h, op).conns ==> Covered(Step(h, op), c)
  {
    hide Step, Quiet, Inv;
    var b, d := h.state[c], Step(h, op).state[c];
    StreamStep(h, op, c);
    StaysCovered(h, op, c);
    if d.sent == b.sent && d.audio == [Reset(h.turn)] {
      QuietReset(a, b, d, h.turn);
    } else {
      QuietSame(a, b, d);
    }
  }

  function Continue<T>(h: Hub<T>, ops: seq<Op<T>>): (r: Hub<T>)
    requires WellFormed(h)
    ensures WellFormed(r) && r.state.Keys == h.state.Keys
  {
    if ops == [] then h else Step(Continue(h, ops[..|ops| - 1]), ops[|ops| - 1])
  }

  /** Until the next resumeAudio, a covered client is queued nothing but reset markers. */
  lemma {:induction false} CoveredIsQuiet<T>(h: Hub<T>, ops: seq<Op<T>>, c: T)
    requires WellFormed(h) && Inv(h) && Covered(h, c)
    requires forall i :: 0 <= i < |ops| ==> ops[i] != ResumeAudio
    ensures Inv(Continue(h, ops)) && Continue(h, ops).audioBlocked
    ensures Quiet(h.state[c], Continue(h, ops).state[c])
    ensures c in Continue(h, ops).conns ==> Covered(Continue(h, ops), c)
  {
    assert ConnInv(h.state[c], true, h.audioBlocked, h.turn);
    if ops == [] {
      var k := |h.state[c].Stream()|;
      assert QuietFrom(h.state[c], h.state[c], k);
    } else {
      var init := ops[..|ops| - 1];
      CoveredIsQuiet(h, init, c);
      StepKeepsInv(Continue(h, init), ops[|ops| - 1]);
      QuietStep(Continue(h, init), ops[|ops| - 1], c, h.state[c]);
    }
  }

  /** A broadcast chunk reaches exactly the clients that stream, that no reset of this turn covers, and whose queue has
      room; a full queue keeps what it holds. */
  lemma LeakExact<T>(clients: set<T>, ops: seq<Op<T>>, c: T, payload: int)
    requires c in Run(clients, ops).state
    ensures var h := Run(clients, ops);
      var audio := h.state[c].audio;
      Step(h, BroadcastAudio(payload)).state[c].audio
        == if c in h.conns && h.state[c].audioStream && !Covered(h, c) && |audio| < AUDIO_QUEUE_DEPTH
           then audio + [Chunk(payload, h.turn)] else audio
  {
    RunKeepsInv(clients, ops);
    var h := Run(clients, ops);
    assert ConnInv(h.state[c], c in h.conns, h.audioBlocked, h.turn);
    hide Run, Inv, Ordered, Within, ForEach, Step;
    StateAt(h, BroadcastAudio(payload), c);
  }

  /** Such a client exists: connected but not streaming at the reset, it opts in before the resume. */
  lemma LateOptInLeaks<T>(c: T)
    ensures var h := Run({c}, [Add(c), ResetAudio, SetConnAudio(c, true), BroadcastAudio(7)]);
            h.audioBlocked && h.state[c].audio == [Chunk(7, 0)]
  {
    var h0: Hub<T> := Fresh({c});
    var h1 := Step(h0, Add(c));
    var h2 := Step(h1, ResetAudio);
    var h3 := Step(h2, SetConnAudio(c, true));
    var h4 := Step(h3, BroadcastAudio(7));
    var ops := [Add(c), ResetAudio, SetConnAudio(c, true), BroadcastAudio(7)];
    assert ops[..3] == [Add(c), ResetAudio, SetConnAudio(c, true)];
    assert ops[..3][..2] == [Add(c), ResetAudio];
    assert ops[..3][..2][..1] == [Add(c)];
    assert ops[..3][..2][..1][..0] == [];
    assert Run({c}, ops[..3][..2][..1][..0]) == h0;
    assert Run({c}, ops[..3][..2][..1]) == h1;
    assert Run({c}, ops[..3][..2]) == h2;
    assert Run({c}, ops[..3]) == h3;
    assert Run({c}, ops) == h4;
  }

  // ---------------------------------------------------------------- events

  /** The messages broadcast by some steps. */
  function Messages<T>(ops: seq<Op<T>>): seq<int>
  {
    if ops == [] then []
    else
      var last := ops[|ops| - 1];
      Messages(ops[..|ops| - 1]) + (if last.Broadcast? then [last.msg] else [])
  }

  /** What a step does to the events of a client that is registered before and after it. */
  lemma EventsStep<T>(h: Hub<T>, op: Op<T>, c: T)
    requires WellFormed(h) && c in h.conns && c in Step(h, op).conns
    ensures Step(h, op).state[c].Events() == h.state[c].Events() + (if op.Broadcast? then [op.msg] else [])
  {
    hide OnReset, OnAudio, OnResume, OnAdd;
    StateAt(h, op, c);
    var k := h.state[c];
    assert k.Events() + [] == k.Events();
    match op
    case Broadcast(msg) => assert k.taken + (k.out + [msg]) == k.taken + k.out + [msg];
    case TakeEvent(_) => if k.out != [] { assert k.taken + [k.out[0]] + k.out[1..] == k.taken + k.out; }
    case _ => AudioKeepsEvents(h, op, c);
  }

  lemma AudioKeepsEvents<T>(h: Hub<T>, op: Op<T>, c: T)
    requires WellFormed(h) && c in h.state && !op.Broadcast? && !op.TakeEvent?
    ensures ConnAfter(h, op, c).out == h.state[c].out && ConnAfter(h, op, c).taken == h.state[c].taken
  {
  }

  /** While a client stays registered, it has taken, or has waiting, exactly the messages broadcast since, in order. */
  lemma {:induction false} EveryEventArrives<T>(h: Hub<T>, ops: seq<Op<T>>, c: T)
    requires WellFormed(h)
    requires forall k :: 0 <= k <= |ops| ==> c in Continue(h, ops[..k]).conns
    ensures c in h.conns && Continue(h, ops).state[c].Events() == h.state[c].Events() + Messages(ops)
  {
    hide Step;
    assert ops[..|ops|] == ops && ops[..0] == [];
    if ops == [] {
      assert h.state[c].Events() + [] == h.state[c].Events();
    } else {
      var init, n := ops[..|ops| - 1], |ops| - 1;
      forall k | 0 <= k <= n ensures c in Continue(h, init[..k]).conns { assert init[..k] == ops[..k]; }
      EveryEventArrives(h, init, c);
      EventsStep(Continue(h, init), ops[n], c);
      assert h.state[c].Events() + Messages(init) + Messages(ops)[|Messages(init)|..]
        == h.state[c].Events() + Messages(ops);
    }
  }

  /** A registered client leaves by a broadcast, and is kicked, exactly when its event queue was full; nothing else
      kicks a client, and only its own removal makes it leave otherwise. */
  lemma LeavesExact<T>(clients: set<T>, ops: seq<Op<T>>, op: Op<T>, c: T)
    requires c in Run(clients, ops).conns
    ensures var h := Run(clients, ops); var r := Step(h, op);
      && (c !in r.conns <==> op == Remove(c) || (op.Broadcast? && |h.state[c].out| == CONN_QUEUE_DEPTH))
      && (r.state[c].kicked <==> h.state[c].kicked || (op.Broadcast? && |h.state[c].out| == CONN_QUEUE_DEPTH))
  {
    var h := Run(clients, ops);
    RunKeepsInv(clients, ops);
    assert ConnInv(h.state[c], true, h.audioBlocked, h.turn);
    hide OnReset, OnAudio, OnResume, OnAdd, Inv, Run;
    StateAt(h, op, c);
    assert Step(h, op).state[c] == ConnAfter(h, op, c);
    KickedBy(h, op, c);
  }

  lemma KickedBy<T>(h: Hub<T>, op: Op<T>, c: T)
    requires WellFormed(h) && c in h.conns
    ensures ConnAfter(h, op, c).kicked <==> h.state[c].kicked || (op.Broadcast? && Overflow(h.state[c]))
  {
  }

  /** What the registration and opt-in calls do, for every client. */
  lemma CallsTakeEffect<T>(clients: set<T>, ops: seq<Op<T>>, c: T, d: T, on: bool)
    requires var h := Run(clients, ops); c in h.conns && d in h.state
    ensures var h := Run(clients, ops);
      && Step(h, SetConnAudio(c, on)).state[c].audioStream == on
      && (c != d ==> Step(h, SetConnAudio(c, on)).state[d] == h.state[d])
      && !Step(h, Remove(c)).state[c].audioStream && Step(h, Remove(c)).conns == h.conns - {c}
      && (d in Step(h, Add(d)).conns <==> d in h.conns || |h.conns| < MAX_STREAM_CLIENTS)
      && !Step(h, ResumeAudio).state[c].audioBlocked && !Step(h, ResumeAudio).audioBlocked
  {
    hide ForEach, Evicted, Run;
    StateAt(Run(clients, ops), ResumeAudio, c);
  }

  // ---------------------------------------------------------------- the hub as it is written

  class StreamConn {
    var out: seq<int>
    var audio: seq<Audio>
    var audioStream: bool
    var audioBlocked: bool
    var kicked: bool
    ghost var sent: seq<Audio>
    ghost var taken: seq<int>
    ghost var barrier: int

    constructor ()
      ensures View() == NewConn
    {
      out, audio, audioStream, audioBlocked, kicked := [], [], false, false, false;
      sent, taken, barrier := [], [], -1;
    }

    ghost function View(): Conn
      reads this
    {
      Conn(out, audio, audioStream, audioBlocked, kicked, sent, taken, barrier)
    }

    /** The writer goroutine takes one message off a queue and writes it. */
    method TakeEvent() returns (msg: int)
      requires out != []
      modifies this`out, this`taken
      ensures msg == old(out)[0] && out == old(out)[1..] && taken == old(taken) + [msg]
    {
      msg := out[0];
      out := out[1..];
      taken := taken + [msg];
    }

    method TakeAudio() returns (msg: Audio)
      requires audio != []
      modifies this`audio, this`sent
      ensures msg == old(audio)[0] && audio == old(audio)[1..] && sent == old(sent) + [msg]
    {
      msg := audio[0];
      audio := audio[1..];
      sent := sent + [msg];
    }
  }

  /** What the broadcast loop adds up to. */
  lemma BroadcastDone<T>(before: Hub<T>, after: Hub<T>, msg: int)
    requires WellFormed(before) && WellFormed(after)
    requires after.conns <= before.conns && after.state.Keys == before.state.Keys
    requires forall c :: c in before.conns ==> (c in after.conns <==> !Overflow(before.state[c]))
    requires forall c :: c in before.state ==>
      after.state[c] == if c in before.conns then OnBroadcast(before.state[c], msg) else before.state[c]
    requires after.audioBlocked == before.audioBlocked && after.turn == before.turn
    requires after.streamers - |Streaming(after)| == before.streamers - |Streaming(before)|
    ensures after == Step(before, Op.Broadcast(msg))
  {
    hide OnBroadcast;
    assert after.state == ForEach(before, Broadcasting(msg));
    assert after.conns == before.conns - Evicted(before);
    BroadcastCount(before, msg);
    assert Streaming(after) == Streaming(Step(before, Op.Broadcast(msg)));
  }

  class HubServer {
    var conns: set<StreamConn>
    var audioBlocked: bool
    var streamers: int
    var turn: nat  // names the turn a message belongs to; the source has no such counter
    ghost var known: set<StreamConn>

    constructor (ghost clients: set<StreamConn>)
      requires forall c <- clients :: c.View() == NewConn
      ensures known == clients && Valid() && View() == Fresh(clients)
    {
      conns, audioBlocked, streamers, turn, known := {}, false, 0, 0, clients;
    }

    ghost predicate Valid()
      reads this
    {
      conns <= known
    }

    ghost function View(): (h: Hub<StreamConn>)
      requires Valid()
      reads this, known
      ensures WellFormed(h)
    {
      Hub(conns, map c | c in known :: c.View(), audioBlocked, streamers, turn)
    }

    method Add(c: StreamConn) returns (ok: bool)
      requires Valid() && c in known
      modifies this`conns, c
      ensures Valid() && View() == Step(old(View()), Op.Add(c))
      ensures ok <==> |old(conns)| < MAX_STREAM_CLIENTS
      ensures ok ==> c in conns
    {
      hide ForEach, Evicted, Streaming, OnAdd;
      if |conns| >= MAX_STREAM_CLIENTS { return false; }
      TakeBoundary(c);
      conns := conns + {c};
      return true;
    }

    /** A joiner takes over the boundary in force. */
    method TakeBoundary(c: StreamConn)
      modifies c
      ensures c.View() == OnAdd(old(c.View()), audioBlocked, turn)
    {
      c.audioBlocked := audioBlocked;
      if audioBlocked { c.barrier := turn; }
    }

    method Remove(c: StreamConn)
      requires Valid() && c in known
      modifies this`conns, this`streamers, c
      ensures Valid() && View() == Step(old(View()), Op.Remove(c))
    {
      if c !in conns { return; }
      conns := conns - {c};
      if c.audioStream {
        c.audioStream := false;
        streamers := streamers - 1;
      }
    }

    method SetConnAudio(c: StreamConn, on: bool)
      requires Valid() && c in known
      modifies this`streamers, c
      ensures Valid() && View() == Step(old(View()), Op.SetConnAudio(c, on))
    {
      if c !in conns { return; }
      var was := c.audioStream;
      if was == on { return; }
      c.audioStream := on;
      if on { streamers := streamers + 1; } else { streamers := streamers - 1; }
    }

    method HasStreamClients() returns (some: bool)
      requires Valid() && Inv(View())
      ensures some <==> exists c :: c in conns && c.audioStream
    {
      some := streamers > 0;
      ghost var listening := Streaming(View());
      if some { assert listening != {}; } else { assert listening == {}; }
      assert forall c :: c in conns && c.audioStream ==> c in listening;
      assert forall c :: c in listening ==> c in conns && c.audioStream;
    }

    /** The registered connections that stream. */
    ghost function Live(): set<StreamConn>
      reads this, conns
    {
      set c | c in conns && c.audioStream
    }

    /** The body of the broadcast loop. */
    method OfferOrEvict(c: StreamConn, msg: int)
      requires c in conns
      modifies this`conns, this`streamers, c
      ensures c.View() == OnBroadcast(old(c.View()), msg)
      ensures conns == old(conns) - (if Overflow(old(c.View())) then {c} else {})
      ensures streamers - |Live()| == old(streamers) - old(|Live()|)
    {
      ghost var live := Live();
      if |c.out| < CONN_QUEUE_DEPTH {
        c.out := c.out + [msg];
        assert Live() == live;
      } else {
        c.kicked := true;
        if c.audioStream {
          c.audioStream := false;
          streamers := streamers - 1;
        }
        conns := conns - {c};
        assert Live() == live - {c};
      }
    }

    /** The broadcast loop, client by client. */
    method OfferAll(msg: int)
      requires Valid()
      modifies this`conns, this`streamers, known
      ensures conns <= old(conns)
      ensures forall c :: c in old(conns) ==> (c in conns <==> !Overflow(old(c.View())))
      ensures streamers - |Live()| == old(streamers) - old(|Live()|)
      ensures forall c :: c in known ==>
        c.View() == if c in old(conns) then OnBroadcast(old(c.View()), msg) else old(c.View())
    {
      var rest := conns;
      ghost var done: set<StreamConn> := {};
      while rest != {}
        invariant rest !! done && old(conns) == rest + done && rest <= conns <= old(conns)
        invariant forall c :: c in done ==> (c in conns <==> !Overflow(old(c.View())))
        invariant streamers - |Live()| == old(streamers) - old(|Live()|)
        invariant forall c :: c in known ==>
          c.View() == if c in done then OnBroadcast(old(c.View()), msg) else old(c.View())
      {
        hide Overflow, OnBroadcast, Live;
        var c :| c in rest;
        assert c.View() == old(c.View());
        OfferOrEvict(c, msg);
        rest, done := rest - {c}, done + {c};
      }
    }

    method Broadcast(msg: int)
      requires Valid()
      modifies this`conns, this`streamers, known
      ensures Valid() && View() == Step(old(View()), Op.Broadcast(msg))
    {
      hide Overflow, OnBroadcast, Step, Live;
      ghost var before := View();
      LiveIsStreaming();
      OfferAll(msg);
      LiveIsStreaming();
      assert forall c :: c in before.state ==> c in View().state && c in known;
      BroadcastDone(before, View(), msg);
    }

    lemma LiveIsStreaming()
      requires Valid()
      ensures Live() == Streaming(View())
    {
    }

    method BroadcastAudio(payload: int)
      requires Valid()
      modifies known
      ensures Valid() && View() == Step(old(View()), Op.BroadcastAudio(payload))
    {
      ghost var before := View();
      var chunk := Chunk(payload, turn);
      var rest := conns;
      while rest != {}
        invariant rest <= conns
        invariant forall c :: c in known ==>
          c.View() == if c in conns - rest then OnAudio(before.state[c], chunk) else before.state[c]
      {
        var c :| c in rest;
        if c.audioStream && !c.audioBlocked {
          if |c.audio| < AUDIO_QUEUE_DEPTH { c.audio := c.audio + [chunk]; }
        }
        rest := rest - {c};
      }
      assert View().state == ForEach(before, Queueing(chunk));
    }

    /** The body of the reset loop: the queue is drained, so the marker send cannot block. */
    method ResetOne(c: StreamConn)
      modifies c
      ensures c.View() == OnReset(old(c.View()), turn)
    {
      ghost var before := c.View();
      if c.audioStream {
        c.audioBlocked := true;
        while c.audio != []
          invariant c.View() == before.(audioBlocked := true, audio := c.audio)
          decreases |c.audio|
        {
          c.audio := c.audio[1..];
        }
        assert |c.audio| < AUDIO_QUEUE_DEPTH;
        c.audio := c.audio + [Reset(turn)];
        c.barrier := turn;
      }
    }

    method ResetAudio()
      requires Valid()
      modifies this`audioBlocked, known
      ensures Valid() && View() == Step(old(View()), Op.ResetAudio)
    {
      ghost var before := View();
      audioBlocked := true;
      var rest := conns;
      while rest != {}
        invariant rest <= conns && audioBlocked
        invariant forall c :: c in known ==>
          c.View() == if c in conns - rest then OnReset(before.state[c], turn) else before.state[c]
      {
        var c :| c in rest;
        hide OnReset;
        ResetOne(c);
        rest := rest - {c};
      }
      assert View().state == ForEach(before, Resetting(before.turn));
    }

    method Unblock(c: StreamConn)
      modifies c
      ensures c.View() == OnResume(old(c.View()))
    {
      c.audioBlocked := false;
    }

    method ResumeAll()
      requires Valid()
      modifies known
      ensures forall c :: c in known ==> c.View() == if c in conns then OnResume(old(c.View())) else old(c.View())
    {
      hide OnResume;
      var rest := conns;
      while rest != {}
        invariant rest <= conns
        invariant forall c :: c in known ==>
          c.View() == if c in conns - rest then OnResume(old(c.View())) else old(c.View())
      {
        var c :| c in rest;
        Unblock(c);
        rest := rest - {c};
      }
    }

    method ResumeAudio()
      requires Valid()
      modifies this`audioBlocked, this`turn, known
      ensures Valid() && View() == Step(old(View()), Op.ResumeAudio)
    {
      hide OnResume;
      ghost var before := View();
      audioBlocked := false;
      turn := turn + 1;
      ResumeAll();
      assert View().state == ForEach(before, Resuming());
    }
  }
}
