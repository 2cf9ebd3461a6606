/**
 The meeting index cache (internal/meeting/index.go): parsed entries keyed by the event
 stream's modification time and size. Streams are append-only. A reader stats the stream,
 looks the bundle up, reads the stream on a miss, and stores what it parsed under the
 older stat; any number of readers and the recorder interleave between these steps.
 */
module IndexCache {
  import opened Wrappers

  /** An event stream on disk. */
  datatype Stream = Stream(content: seq<int>, modTime: int)

  /** What stat reports. */
  datatype Info = Info(modTime: int, size: nat)

  function Stat(s: Stream): Info { Info(s.modTime, |s.content|) }

  /** A cached entry; `read` records how much of the stream it was parsed from. */
  datatype Cached<V> = Cached(info: Info, entry: V, read: nat)

  datatype Reader<B, V> =
    | Idle
    | Statted(bundle: B, info: Info)
    | Missed(bundle: B, info: Info)
    | Parsed(bundle: B, info: Info, entry: V, read: nat)
    | Answered(bundle: B, info: Info, entry: V, read: nat, hit: bool)
    | NoAnswer

  /** Parsing a stream, or failing to. */
  type Parser<!V> = seq<int> -> Option<V>

  datatype State<!B(==), !R(==), V> = State(
    streams: map<B, Stream>, cache: map<B, Cached<V>>, readers: map<R, Reader<B, V>>)

  datatype Event<B, R> =
    | Append(bundle: B, data: seq<int>, modTime: int)
    | Begin(reader: R, bundle: B)   // stat
    | Lookup(reader: R)
    | Read(reader: R)
    | Store(reader: R)
    | Prune(seen: set<B>)

  function ReaderOf<B, R, V>(s: State<B, R, V>, r: R): Reader<B, V>
  {
    if r in s.readers then s.readers[r] else Idle
  }

  function Set<B, R, V>(s: State<B, R, V>, r: R, phase: Reader<B, V>): State<B, R, V>
  {
    s.(readers := s.readers[r := phase])
  }

  function Step<B, R, V>(s: State<B, R, V>, e: Event<B, R>, parse: Parser<V>): State<B, R, V>
  {
    match e
    case Append(b, data, modTime) =>
      var before := if b in s.streams then s.streams[b].content else [];
      s.(streams := s.streams[b := Stream(before + data, modTime)])
    case Begin(r, b) =>
      if b in s.streams then Set(s, r, Statted(b, Stat(s.streams[b]))) else Set(s, r, NoAnswer)
    case Lookup(r) =>
      (match ReaderOf(s, r)
       case Statted(b, info) =>
         if b in s.cache && s.cache[b].info == info
         then Set(s, r, Answered(b, info, s.cache[b].entry, s.cache[b].read, true))
         else Set(s, r, Missed(b, info))
       case _ => s)
    case Read(r) =>
      (match ReaderOf(s, r)
       case Missed(b, info) =>
         if b !in s.streams then Set(s, r, NoAnswer)
         else
           var content := s.streams[b].content;
           (match parse(content)
            case None => Set(s, r, NoAnswer)
            case Some(entry) => Set(s, r, Parsed(b, info, entry, |content|)))
       case _ => s)
    case Store(r) =>
      (match ReaderOf(s, r)
       case Parsed(b, info, entry, read) =>
         Set(s.(cache := s.cache[b := Cached(info, entry, read)]), r, Answered(b, info, entry, read, false))
       case _ => s)
    case Prune(seen) => s.(cache := map b | b in s.cache && b in seen :: s.cache[b])
  }

  function Run<B, R, V>(s: State<B, R, V>, events: seq<Event<B, R>>, parse: Parser<V>): State<B, R, V>
  {
    if events == [] then s else Step(Run(s, events[..|events| - 1], parse), events[|events| - 1], parse)
  }

  // ---------------------------------------------------------------- freshness

  /** `entry` is the parse of the first `read` items of the stream, which is no less than a stat saw. */
  ghost predicate FreshSince<V>(stream: Stream, info: Info, entry: V, read: nat, parse: Parser<V>)
  {
    info.size <= read <= |stream.content| && parse(stream.content[..read]) == Some(entry)
  }

  ghost predicate ReaderInv<B, R, V>(s: State<B, R, V>, p: Reader<B, V>, parse: Parser<V>)
  {
    match p
    case Statted(b, info) => b in s.streams && info.size <= |s.streams[b].content|
    case Missed(b, info) => b in s.streams && info.size <= |s.streams[b].content|
    case Parsed(b, info, entry, read) => b in s.streams && FreshSince(s.streams[b], info, entry, read, parse)
    case Answered(b, info, entry, read, hit) => b in s.streams && FreshSince(s.streams[b], info, entry, read, parse)
    case _ => true
  }

  ghost predicate Inv<B, R, V>(s: State<B, R, V>, parse: Parser<V>)
  {
    && (forall b :: b in s.cache ==>
          b in s.streams && FreshSince(s.streams[b], s.cache[b].info, s.cache[b].entry, s.cache[b].read, parse))
    && (forall r :: r in s.readers ==> ReaderInv(s, s.readers[r], parse))
  }

  /** Appending keeps every earlier parse a parse of a prefix. */
  lemma AppendKeepsFresh<V>(before: Stream, data: seq<int>, modTime: int, info: Info, entry: V, read: nat,
                             parse: Parser<V>)
    requires FreshSince(before, info, entry, read, parse)
    ensures FreshSince(Stream(before.content + data, modTime), info, entry, read, parse)
  {
    assert (before.content + data)[..read] == before.content[..read];
  }

  lemma AppendKeepsInv<B, R, V>(s: State<B, R, V>, b: B, data: seq<int>, modTime: int, parse: Parser<V>)
    requires Inv(s, parse)
    ensures Inv(Step(s, Append(b, data, modTime), parse), parse)
  {
    hide FreshSince;
    var t := Step(s, Append(b, data, modTime), parse);
    if b in s.cache {
      AppendKeepsFresh(s.streams[b], data, modTime, s.cache[b].info, s.cache[b].entry, s.cache[b].read, parse);
    }
    forall r | r in t.readers ensures ReaderInv(t, t.readers[r], parse) {
      assert ReaderInv(s, s.readers[r], parse);
      match s.readers[r] {
        case Parsed(c, info, entry, read) =>
          if c == b { AppendKeepsFresh(s.streams[b], data, modTime, info, entry, read, parse); }
        case Answered(c, info, entry, read, hit) =>
          if c == b { AppendKeepsFresh(s.streams[b], data, modTime, info, entry, read, parse); }
        case _ =>
      }
    }
  }

  lemma StepKeepsInv<B, R, V>(s: State<B, R, V>, e: Event<B, R>, parse: Parser<V>)
    requires Inv(s, parse)
    ensures Inv(Step(s, e, parse), parse)
  {
    match e {
      case Append(b, data, modTime) => AppendKeepsInv(s, b, data, modTime, parse);
      case Begin(r, b) =>
      case Prune(seen) =>
      case Lookup(r) => LookupKeepsInv(s, r, parse);
      case Read(r) => ReadKeepsInv(s, r, parse);
      case Store(r) => StoreKeepsInv(s, r, parse);
    }
  }

  lemma LookupKeepsInv<B, R, V>(s: State<B, R, V>, r: R, parse: Parser<V>)
    requires Inv(s, parse)
    ensures Inv(Step(s, Lookup(r), parse), parse)
  {
    assert r in s.readers ==> ReaderInv(s, s.readers[r], parse);
  }

  lemma ReadKeepsInv<B, R, V>(s: State<B, R, V>, r: R, parse: Parser<V>)
    requires Inv(s, parse)
    ensures Inv(Step(s, Read(r), parse), parse)
  {
    assert r in s.readers ==> ReaderInv(s, s.readers[r], parse);
    if r in s.readers && s.readers[r].Missed? {
      var content := s.streams[s.readers[r].bundle].content;
      assert content[..|content|] == content;
    }
  }

  lemma StoreKeepsInv<B, R, V>(s: State<B, R, V>, r: R, parse: Parser<V>)
    requires Inv(s, parse)
    ensures Inv(Step(s, Store(r), parse), parse)
  {
    hide FreshSince;
    assert r in s.readers ==> ReaderInv(s, s.readers[r], parse);
  }

  /** In every interleaving of readers and recorders, from an empty cache, the invariant holds. */
  lemma {:induction false} RunKeepsInv<B, R, V>(s: State<B, R, V>, events: seq<Event<B, R>>, parse: Parser<V>)
    requires Inv(s, parse)
    ensures Inv(Run(s, events, parse), parse)
  {
    if events != [] {
      RunKeepsInv(s, events[..|events| - 1], parse);
      StepKeepsInv(Run(s, events[..|events| - 1], parse), events[|events| - 1], parse);
    }
  }

  // ---------------------------------------------------------------- main results

  predicate EmptyStart<B, R, V>(s: State<B, R, V>) { s.cache == map[] && s.readers == map[] }

  /** Never stale: every answer, hit or miss, is the parse of the stream at some length between what the
      reader's own stat saw and now. */
  lemma AnswersAreFresh<B, R, V>(s: State<B, R, V>, events: seq<Event<B, R>>, parse: Parser<V>, r: R)
    requires EmptyStart(s) && r in Run(s, events, parse).readers && Run(s, events, parse).readers[r].Answered?
    ensures var t := Run(s, events, parse); var p := t.readers[r];
            && p.bundle in t.streams && p.info.size <= p.read <= |t.streams[p.bundle].content|
            && parse(t.streams[p.bundle].content[..p.read]) == Some(p.entry)
  {
    RunKeepsInv(s, events, parse);
    assert ReaderInv(Run(s, events, parse), Run(s, events, parse).readers[r], parse);
  }

  /** A hit on a stream nobody has appended to since the stat is exactly the parse of that stream. */
  lemma HitIsCurrent<B, R, V>(s: State<B, R, V>, events: seq<Event<B, R>>, parse: Parser<V>, r: R)
    requires EmptyStart(s)
    requires var t := Run(s, events, parse);
             && r in t.readers && t.readers[r].Statted? && t.readers[r].bundle in t.streams
             && t.readers[r].info.size == |t.streams[t.readers[r].bundle].content|
    ensures var t := Run(s, events, parse); var p := Step(t, Lookup(r), parse).readers[r];
            p.Answered? ==> Some(p.entry) == parse(t.streams[p.bundle].content)
  {
    RunKeepsInv(s, events, parse);
    var t := Run(s, events, parse);
    assert ReaderInv(t, t.readers[r], parse);
    var content := t.streams[t.readers[r].bundle].content;
    assert content[..|content|] == content;
  }

  // ---------------------------------------------------------------- where answers come from

  /** Reader `r` takes this stat of `b` in event `j`, before event `n`. */
  ghost predicate StatAt<B, R, V>(s: State<B, R, V>, events: seq<Event<B, R>>, parse: Parser<V>, n: nat,
                                  j: nat, r: R, b: B, info: Info)
    requires n <= |events|
  {
    && j < n && events[j] == Begin(r, b)
    && b in Run(s, events[..j], parse).streams && Stat(Run(s, events[..j], parse).streams[b]) == info
  }

  ghost predicate TookStat<B, R, V>(s: State<B, R, V>, events: seq<Event<B, R>>, parse: Parser<V>, n: nat,
                                    r: R, b: B, info: Info)
    requires n <= |events|
  {
    exists j: nat :: StatAt(s, events, parse, n, j, r, b, info)
  }

  /** Reader `r` reads and parses the whole stream `b` in event `k`, before event `n`. */
  ghost predicate ReadAt<B, R, V>(s: State<B, R, V>, events: seq<Event<B, R>>, parse: Parser<V>, n: nat,
                                  k: nat, r: R, b: B, entry: V, read: nat)
    requires n <= |events|
  {
    && k < n && events[k] == Read(r) && b in Run(s, events[..k], parse).streams
    && var content := Run(s, events[..k], parse).streams[b].content;
       parse(content) == Some(entry) && read == |content|
  }

  /** Reader `r` takes this stat and later reads the whole stream. */
  ghost predicate ParsedBy<B, R, V>(s: State<B, R, V>, events: seq<Event<B, R>>, parse: Parser<V>, n: nat,
                                    r: R, b: B, info: Info, entry: V, read: nat)
    requires n <= |events|
  {
    exists j: nat, k: nat :: j < k && StatAt(s, events, parse, n, j, r, b, info)
                             && ReadAt(s, events, parse, n, k, r, b, entry, read)
  }

  ghost predicate ParsedBySome<B, R(!new), V>(s: State<B, R, V>, events: seq<Event<B, R>>, parse: Parser<V>, n: nat,
                                              b: B, info: Info, entry: V, read: nat)
    requires n <= |events|
  {
    exists r: R :: ParsedBy(s, events, parse, n, r, b, info, entry, read)
  }

  /** What a reader holds is its own stat, and a parse made under that very stat: a miss by itself, a hit by some
      reader. */
  ghost predicate Traced<B, R(!new), V>(s: State<B, R, V>, events: seq<Event<B, R>>, parse: Parser<V>, n: nat,
                                        r: R, p: Reader<B, V>)
    requires n <= |events|
  {
    match p
    case Statted(b, info) => TookStat(s, events, parse, n, r, b, info)
    case Missed(b, info) => TookStat(s, events, parse, n, r, b, info)
    case Parsed(b, info, entry, read) => ParsedBy(s, events, parse, n, r, b, info, entry, read)
    case Answered(b, info, entry, read, hit) =>
      && TookStat(s, events, parse, n, r, b, info)
      && (if hit then ParsedBySome(s, events, parse, n, b, info, entry, read)
          else ParsedBy(s, events, parse, n, r, b, info, entry, read))
    case _ => true
  }

  ghost predicate CacheTraced<B(!new), R(!new), V>(s: State<B, R, V>, events: seq<Event<B, R>>, parse: Parser<V>,
                                                   n: nat, cache: map<B, Cached<V>>)
    requires n <= |events|
  {
    forall b :: b in cache ==> ParsedBySome(s, events, parse, n, b, cache[b].info, cache[b].entry, cache[b].read)
  }

  lemma ParsedGrows<B, R, V>(s: State<B, R, V>, events: seq<Event<B, R>>, parse: Parser<V>, n: nat,
                             r: R, b: B, info: Info, entry: V, read: nat)
    requires n < |events| && ParsedBy(s, events, parse, n, r, b, info, entry, read)
    ensures ParsedBy(s, events, parse, n + 1, r, b, info, entry, read)
  {
    hide Run;
    var j: nat, k: nat :| j < k && StatAt(s, events, parse, n, j, r, b, info)
                          && ReadAt(s, events, parse, n, k, r, b, entry, read);
    assert StatAt(s, events, parse, n + 1, j, r, b, info) && ReadAt(s, events, parse, n + 1, k, r, b, entry, read);
  }

  lemma SomeGrows<B, R(!new), V>(s: State<B, R, V>, events: seq<Event<B, R>>, parse: Parser<V>, n: nat,
                                 b: B, info: Info, entry: V, read: nat)
    requires n < |events| && ParsedBySome(s, events, parse, n, b, info, entry, read)
    ensures ParsedBySome(s, events, parse, n + 1, b, info, entry, read)
  {
    hide ParsedBy;
    var r: R :| ParsedBy(s, events, parse, n, r, b, info, entry, read);
    ParsedGrows(s, events, parse, n, r, b, info, entry, read);
  }

  lemma StatGrows<B, R, V>(s: State<B, R, V>, events: seq<Event<B, R>>, parse: Parser<V>, n: nat,
                           r: R, b: B, info: Info)
    requires n < |events| && TookStat(s, events, parse, n, r, b, info)
    ensures TookStat(s, events, parse, n + 1, r, b, info)
  {
    hide Run;
    var j: nat :| StatAt(s, events, parse, n, j, r, b, info);
    assert StatAt(s, events, parse, n + 1, j, r, b, info);
  }

  lemma TracedGrows<B, R(!new), V>(s: State<B, R, V>, events: seq<Event<B, R>>, parse: Parser<V>, n: nat,
                                   r: R, p: Reader<B, V>)
    requires n < |events| && Traced(s, events, parse, n, r, p)
    ensures Traced(s, events, parse, n + 1, r, p)
  {
    hide TookStat, ParsedBy, ParsedBySome;
    match p {
      case Statted(b, info) => StatGrows(s, events, parse, n, r, b, info);
      case Missed(b, info) => StatGrows(s, events, parse, n, r, b, info);
      case Parsed(b, info, entry, read) => ParsedGrows(s, events, parse, n, r, b, info, entry, read);
      case Answered(b, info, entry, read, hit) =>
        StatGrows(s, events, parse, n, r, b, info);
        if hit {
          SomeGrows(s, events, parse, n, b, info, entry, read);
        } else {
          ParsedGrows(s, events, parse, n, r, b, info, entry, read);
        }
      case _ =>
    }
  }

  predicate Moves<B, R(==)>(e: Event<B, R>, r: R) { !e.Append? && !e.Prune? && e.reader == r }

  lemma OthersStay<B, R, V>(t: State<B, R, V>, e: Event<B, R>, parse: Parser<V>, r: R)
    requires !Moves(e, r)
    ensures ReaderOf(Step(t, e, parse), r) == ReaderOf(t, r)
  {
  }

  lemma BeginTraced<B, R(!new), V>(s: State<B, R, V>, events: seq<Event<B, R>>, parse: Parser<V>, n: nat, r: R)
    requires n < |events| && events[n].Begin? && events[n].reader == r
    ensures Traced(s, events, parse, n + 1, r, ReaderOf(Step(Run(s, events[..n], parse), events[n], parse), r))
  {
    var now := ReaderOf(Step(Run(s, events[..n], parse), events[n], parse), r);
    hide Run;
    if now.Statted? { assert StatAt(s, events, parse, n + 1, n, r, now.bundle, now.info); }
  }

  lemma LookupTraced<B(!new), R(!new), V>(s: State<B, R, V>, events: seq<Event<B, R>>, parse: Parser<V>, n: nat, r: R)
    requires n < |events| && events[n] == Lookup(r)
    requires var t := Run(s, events[..n], parse);
      CacheTraced(s, events, parse, n, t.cache) && Traced(s, events, parse, n, r, ReaderOf(t, r))
    ensures Traced(s, events, parse, n + 1, r, ReaderOf(Step(Run(s, events[..n], parse), events[n], parse), r))
  {
    var t := Run(s, events[..n], parse);
    hide Run, TookStat, ParsedBy, ParsedBySome;
    TracedGrows(s, events, parse, n, r, ReaderOf(t, r));
    if ReaderOf(t, r).Statted? && ReaderOf(t, r).bundle in t.cache {
      var c := t.cache[ReaderOf(t, r).bundle];
      SomeGrows(s, events, parse, n, ReaderOf(t, r).bundle, c.info, c.entry, c.read);
    }
  }

  lemma ReadTraced<B, R(!new), V>(s: State<B, R, V>, events: seq<Event<B, R>>, parse: Parser<V>, n: nat, r: R)
    requires n < |events| && events[n] == Read(r)
    requires Traced(s, events, parse, n, r, ReaderOf(Run(s, events[..n], parse), r))
    ensures Traced(s, events, parse, n + 1, r, ReaderOf(Step(Run(s, events[..n], parse), events[n], parse), r))
  {
    var t := Run(s, events[..n], parse);
    var before, now := ReaderOf(t, r), ReaderOf(Step(t, events[n], parse), r);
    TracedGrows(s, events, parse, n, r, before);
    if before.Missed? && now.Parsed? {
      assert ReadAt(s, events, parse, n + 1, n, r, now.bundle, now.entry, now.read);
      hide Run, ReadAt, Step;
      var j: nat :| StatAt(s, events, parse, n, j, r, before.bundle, before.info);
      assert StatAt(s, events, parse, n + 1, j, r, before.bundle, before.info);
    }
  }

  lemma StoreTraced<B, R(!new), V>(s: State<B, R, V>, events: seq<Event<B, R>>, parse: Parser<V>, n: nat, r: R)
    requires n < |events| && events[n] == Store(r)
    requires Traced(s, events, parse, n, r, ReaderOf(Run(s, events[..n], parse), r))
    ensures Traced(s, events, parse, n + 1, r, ReaderOf(Step(Run(s, events[..n], parse), events[n], parse), r))
  {
    var p := ReaderOf(Run(s, events[..n], parse), r);
    TracedGrows(s, events, parse, n, r, p);
    hide Run, ReadAt, StatAt;
    if p.Parsed? {
      var j: nat, k: nat :| j < k && StatAt(s, events, parse, n + 1, j, r, p.bundle, p.info)
                            && ReadAt(s, events, parse, n + 1, k, r, p.bundle, p.entry, p.read);
    }
  }

  /** What a reader holds stays traced in event `n`, which may be its own. */
  lemma ReaderMoves<B(!new), R(!new), V>(s: State<B, R, V>, events: seq<Event<B, R>>, parse: Parser<V>, n: nat, r: R)
    requires n < |events|
    requires var t := Run(s, events[..n], parse);
      CacheTraced(s, events, parse, n, t.cache) && Traced(s, events, parse, n, r, ReaderOf(t, r))
    ensures Traced(s, events, parse, n + 1, r, ReaderOf(Run(s, events[..n + 1], parse), r))
  {
    RunOne(s, events, n, parse);
    hide Run, Traced, CacheTraced, Step;
    var t := Run(s, events[..n], parse);
    if !Moves(events[n], r) {
      OthersStay(t, events[n], parse, r);
      TracedGrows(s, events, parse, n, r, ReaderOf(t, r));
    } else {
      match events[n] {
        case Begin(_, _) => BeginTraced(s, events, parse, n, r);
        case Lookup(_) => LookupTraced(s, events, parse, n, r);
        case Read(_) => ReadTraced(s, events, parse, n, r);
        case Store(_) => StoreTraced(s, events, parse, n, r);
      }
    }
  }

  /** An entry is as it was, or has just been stored by the reader that parsed it. */
  lemma CacheStep<B, R, V>(t: State<B, R, V>, e: Event<B, R>, parse: Parser<V>, b: B)
    ensures var cache := Step(t, e, parse).cache;
      b in cache && !(b in t.cache && cache[b] == t.cache[b]) ==>
        e.Store? && ReaderOf(t, e.reader) == Parsed(b, cache[b].info, cache[b].entry, cache[b].read)
  {
  }

  lemma EntryTraced<B, R(!new), V>(s: State<B, R, V>, events: seq<Event<B, R>>, parse: Parser<V>, n: nat,
                                   r: R, b: B, info: Info, entry: V, read: nat)
    requires n < |events| && Traced(s, events, parse, n, r, Parsed(b, info, entry, read))
    ensures ParsedBySome(s, events, parse, n + 1, b, info, entry, read)
  {
    hide ParsedBy;
    ParsedGrows(s, events, parse, n, r, b, info, entry, read);
  }

  lemma CacheMoves<B(!new), R(!new), V>(s: State<B, R, V>, events: seq<Event<B, R>>, parse: Parser<V>, n: nat)
    requires n < |events|
    requires var t := Run(s, events[..n], parse);
      CacheTraced(s, events, parse, n, t.cache) && forall r :: Traced(s, events, parse, n, r, ReaderOf(t, r))
    ensures CacheTraced(s, events, parse, n + 1, Run(s, events[..n + 1], parse).cache)
  {
    RunOne(s, events, n, parse);
    hide Run, Step, Traced, ParsedBySome;
    var t, cache := Run(s, events[..n], parse), Run(s, events[..n + 1], parse).cache;
    forall b | b in cache
      ensures ParsedBySome(s, events, parse, n + 1, b, cache[b].info, cache[b].entry, cache[b].read)
    {
      CacheStep(t, events[n], parse, b);
      if b in t.cache && cache[b] == t.cache[b] {
        SomeGrows(s, events, parse, n, b, cache[b].info, cache[b].entry, cache[b].read);
      } else {
        EntryTraced(s, events, parse, n, events[n].reader, b, cache[b].info, cache[b].entry, cache[b].read);
      }
    }
  }

  lemma {:induction false} AllTraced<B(!new), R(!new), V>(s: State<B, R, V>, events: seq<Event<B, R>>,
                                                          parse: Parser<V>, n: nat)
    requires EmptyStart(s) && n <= |events|
    ensures var t := Run(s, events[..n], parse);
      CacheTraced(s, events, parse, n, t.cache) && forall r :: Traced(s, events, parse, n, r, ReaderOf(t, r))
  {
    hide Traced, CacheTraced;
    if n == 0 {
      NothingTraced(s, events, parse);
    } else {
      AllTraced(s, events, parse, n - 1);
      hide Run;
      CacheMoves(s, events, parse, n - 1);
      forall r ensures Traced(s, events, parse, n, r, ReaderOf(Run(s, events[..n], parse), r)) {
        ReaderMoves(s, events, parse, n - 1, r);
      }
    }
  }

  lemma NothingTraced<B(!new), R(!new), V>(s: State<B, R, V>, events: seq<Event<B, R>>, parse: Parser<V>)
    requires EmptyStart(s)
    ensures CacheTraced(s, events, parse, 0, Run(s, events[..0], parse).cache)
    ensures forall r :: Traced(s, events, parse, 0, r, ReaderOf(Run(s, events[..0], parse), r))
  {
  }

  /** Every answer, in every interleaving, is a parse of the whole stream as some reader read it after taking a stat
      equal in both time and size to the answered reader's own; a miss was parsed by the answered reader itself. */
  lemma AnswersAreTraced<B(!new), R(!new), V>(s: State<B, R, V>, events: seq<Event<B, R>>, parse: Parser<V>, r: R)
    requires EmptyStart(s) && r in Run(s, events, parse).readers && Run(s, events, parse).readers[r].Answered?
    ensures var p, n := Run(s, events, parse).readers[r], |events|;
      && TookStat(s, events, parse, n, r, p.bundle, p.info)
      && (p.hit ==> exists q: R :: ParsedBy(s, events, parse, n, q, p.bundle, p.info, p.entry, p.read))
      && (!p.hit ==> ParsedBy(s, events, parse, n, r, p.bundle, p.info, p.entry, p.read))
  {
    assert events[..|events|] == events;
    AllTraced(s, events, parse, |events|);
    hide Run, TookStat, ParsedBy;
    var p := ReaderOf(Run(s, events, parse), r);
    assert Traced(s, events, parse, |events|, r, p);
    if p.hit { assert ParsedBySome(s, events, parse, |events|, p.bundle, p.info, p.entry, p.read); }
  }

  predicate Disturbs<B, R>(e: Event<B, R>, b: B) { e.Store? || (e.Prune? && b !in e.seen) }

  /** No event stores or prunes the bundle. */
  predicate Undisturbed<B, R>(events: seq<Event<B, R>>, b: B)
  {
    forall i :: 0 <= i < |events| ==> !Disturbs(events[i], b)
  }

  lemma {:induction false} EntryStays<B, R, V>(s: State<B, R, V>, events: seq<Event<B, R>>, parse: Parser<V>, b: B)
    requires Undisturbed(events, b) && b in s.cache
    ensures var t := Run(s, events, parse); b in t.cache && t.cache[b] == s.cache[b]
  {
    if events != [] {
      EntryStays(s, events[..|events| - 1], parse, b);
      assert !Disturbs(events[|events| - 1], b);
    }
  }

  /** What one reader parsed is served to the next without reading again, as long as the stat stays the same. */
  lemma StoredIsHit<B, R, V>(s: State<B, R, V>, r: R, events: seq<Event<B, R>>, parse: Parser<V>, q: R)
    requires r in s.readers && s.readers[r].Parsed? && Undisturbed(events, s.readers[r].bundle)
    requires var t := Run(Step(s, Store(r), parse), events, parse);
      q in t.readers && t.readers[q] == Statted(s.readers[r].bundle, s.readers[r].info)
    ensures var t, p := Run(Step(s, Store(r), parse), events, parse), s.readers[r];
      ReaderOf(Step(t, Lookup(q), parse), q) == Answered(p.bundle, p.info, p.entry, p.read, true)
  {
    EntryStays(Step(s, Store(r), parse), events, parse, s.readers[r].bundle);
    hide Run;
  }

  /** A hit, if reader `r` gets one after `events`, is the parse of a stream that held `a` when it took its stat
      and holds `a + grown` now. */
  ghost predicate HitsCurrent<B, R, V>(s: State<B, R, V>, events: seq<Event<B, R>>, r: R, a: seq<int>, grown: seq<int>,
                                       parse: Parser<V>)
  {
    var t := Run(s, events, parse);
    && EmptyStart(s) && r in t.readers && t.readers[r].Statted? && t.readers[r].bundle in t.streams
    && t.readers[r].info.size == |a| && t.streams[t.readers[r].bundle].content == a + grown
    ==>
      var p := Step(t, Lookup(r), parse).readers[r];
      p.Answered? ==> Some(p.entry) == parse(a + grown)
  }

  /** Hits are current in every history exactly when nothing is appended between a stat and its lookup. */
  lemma HitExact<B(!new), R(!new), V(!new)>(b: B, r0: R, r1: R, a: seq<int>, grown: seq<int>, parse: Parser<V>)
    requires r0 != r1 && parse(a).Some? && (grown != [] ==> parse(a + grown) != parse(a))
    ensures (forall s: State<B, R, V>, events: seq<Event<B, R>>, r: R :: HitsCurrent(s, events, r, a, grown, parse))
      <==> grown == []
  {
    hide HitsCurrent;
    if grown == [] {
      forall s: State<B, R, V>, events: seq<Event<B, R>>, r: R ensures HitsCurrent(s, events, r, a, grown, parse) {
        QuietHit(s, events, r, a, parse);
      }
    } else {
      OldHit(b, r0, r1, a, grown, parse);
    }
  }

  lemma QuietHit<B, R, V>(s: State<B, R, V>, events: seq<Event<B, R>>, r: R, a: seq<int>, parse: Parser<V>)
    ensures HitsCurrent(s, events, r, a, [], parse)
  {
    var t := Run(s, events, parse);
    assert a + [] == a;
    if EmptyStart(s) && r in t.readers && t.readers[r].Statted? && t.readers[r].bundle in t.streams
       && t.readers[r].info.size == |a| && t.streams[t.readers[r].bundle].content == a {
      HitIsCurrent(s, events, parse, r);
    }
  }

  function OneStream<B, R, V>(b: B, content: seq<int>): State<B, R, V>
  {
    State(map[b := Stream(content, 0)], map[], map[])
  }

  /** Reader `r1` fills the cache, `r0` takes its stat, and the stream grows. */
  function Grows<B, R>(b: B, r0: R, r1: R, grown: seq<int>): seq<Event<B, R>>
  {
    [Begin(r1, b), Lookup(r1), Read(r1), Store(r1), Begin(r0, b), Append(b, grown, 0)]
  }

  lemma FirstMiss<B, R, V>(b: B, r0: R, r1: R, a: seq<int>, grown: seq<int>, parse: Parser<V>)
    ensures Run(OneStream(b, a), Grows(b, r0, r1, grown)[..2], parse)
         == State(map[b := Stream(a, 0)], map[], map[r1 := Missed(b, Info(0, |a|))])
  {
    var events := Grows(b, r0, r1, grown);
    RunOne(OneStream<B, R, V>(b, a), events, 0, parse);
    RunOne(OneStream<B, R, V>(b, a), events, 1, parse);
  }

  lemma FilledCache<B, R, V>(b: B, r0: R, r1: R, a: seq<int>, grown: seq<int>, parse: Parser<V>)
    requires r0 != r1 && parse(a).Some?
    ensures var t := Run(OneStream(b, a), Grows(b, r0, r1, grown)[..4], parse);
            && t.streams == map[b := Stream(a, 0)]
            && t.cache == map[b := Cached(Info(0, |a|), parse(a).value, |a|)]
  {
    var events := Grows(b, r0, r1, grown);
    FirstMiss(b, r0, r1, a, grown, parse);
    RunOne(OneStream<B, R, V>(b, a), events, 2, parse);
    RunOne(OneStream<B, R, V>(b, a), events, 3, parse);
    hide Run;
  }

  lemma OldHit<B, R, V>(b: B, r0: R, r1: R, a: seq<int>, grown: seq<int>, parse: Parser<V>)
    requires r0 != r1 && parse(a).Some? && parse(a + grown) != parse(a)
    ensures !HitsCurrent(OneStream(b, a), Grows(b, r0, r1, grown), r0, a, grown, parse)
  {
    var events := Grows(b, r0, r1, grown);
    FilledCache(b, r0, r1, a, grown, parse);
    RunOne(OneStream<B, R, V>(b, a), events, 4, parse);
    RunOne(OneStream<B, R, V>(b, a), events, 5, parse);
    hide Run;
    assert events[..6] == events;
  }

  /** Reader 1 misses, the stream grows by `mid`, reader 1 stores what it reads under its old stat, and the stream
      grows by `late`. */
  function Race(mid: seq<int>, late: seq<int>): seq<Event<int, int>>
  {
    [Begin(0, 7), Begin(1, 7), Lookup(1), Append(7, mid, 0), Read(1), Store(1), Append(7, late, 0), Lookup(0)]
  }

  lemma RaceMisses<V>(a: seq<int>, mid: seq<int>, late: seq<int>, parse: Parser<V>)
    ensures Run(OneStream(7, a), Race(mid, late)[..3], parse)
         == State(map[7 := Stream(a, 0)], map[], map[0 := Statted(7, Info(0, |a|)), 1 := Missed(7, Info(0, |a|))])
  {
    var events := Race(mid, late);
    RunOne(OneStream<int, int, V>(7, a), events, 0, parse);
    RunOne(OneStream<int, int, V>(7, a), events, 1, parse);
    RunOne(OneStream<int, int, V>(7, a), events, 2, parse);
  }

  lemma RaceGrows<V>(a: seq<int>, mid: seq<int>, late: seq<int>, parse: Parser<V>)
    ensures Run(OneStream(7, a), Race(mid, late)[..4], parse)
         == State(map[7 := Stream(a + mid, 0)], map[],
                  map[0 := Statted(7, Info(0, |a|)), 1 := Missed(7, Info(0, |a|))])
  {
    RaceMisses(a, mid, late, parse);
    RunOne(OneStream<int, int, V>(7, a), Race(mid, late), 3, parse);
    hide Run;
  }

  lemma RaceReads<V>(a: seq<int>, mid: seq<int>, late: seq<int>, parse: Parser<V>)
    requires parse(a + mid).Some?
    ensures Run(OneStream(7, a), Race(mid, late)[..5], parse)
         == State(map[7 := Stream(a + mid, 0)], map[],
                  map[0 := Statted(7, Info(0, |a|)), 1 := Parsed(7, Info(0, |a|), parse(a + mid).value, |a + mid|)])
  {
    RaceGrows(a, mid, late, parse);
    RunOne(OneStream<int, int, V>(7, a), Race(mid, late), 4, parse);
    hide Run;
  }

  lemma RaceStores<V>(a: seq<int>, mid: seq<int>, late: seq<int>, parse: Parser<V>)
    requires parse(a + mid).Some?
    ensures var t := Run(OneStream(7, a), Race(mid, late)[..6], parse);
            && t.streams == map[7 := Stream(a + mid, 0)]
            && t.cache == map[7 := Cached(Info(0, |a|), parse(a + mid).value, |a + mid|)]
            && 0 in t.readers && t.readers[0] == Statted(7, Info(0, |a|))
  {
    RaceReads(a, mid, late, parse);
    RunOne(OneStream<int, int, V>(7, a), Race(mid, late), 5, parse);
    hide Run;
  }

  /** A recorder appending around another reader's read can make a hit newer than the stat and older than now,
      whatever is in the stream and whatever is appended. */
  lemma HitMayBeInBetween<V>(a: seq<int>, mid: seq<int>, late: seq<int>, parse: Parser<V>)
    requires parse(a + mid).Some?
    ensures var t := Run(OneStream(7, a), Race(mid, late), parse);
            && t.streams == map[7 := Stream(a + mid + late, 0)]
            && 0 in t.readers
            && t.readers[0] == Answered(7, Info(0, |a|), parse(a + mid).value, |a + mid|, true)
  {
    var events := Race(mid, late);
    RaceStores(a, mid, late, parse);
    RunOne(OneStream<int, int, V>(7, a), events, 6, parse);
    RunOne(OneStream<int, int, V>(7, a), events, 7, parse);
    hide Run;
    assert events[..8] == events;
  }

  lemma RunOne<B, R, V>(s: State<B, R, V>, events: seq<Event<B, R>>, i: nat, parse: Parser<V>)
    requires i < |events|
    ensures Run(s, events[..i + 1], parse) == Step(Run(s, events[..i], parse), events[i], parse)
    ensures i == 0 ==> Run(s, events[..i], parse) == s
  {
    assert events[..i + 1][..i] == events[..i];
  }

  // ---------------------------------------------------------------- the cache

  class Cache<B(==), V> {
    var entries: map<B, Cached<V>>

    constructor ()
      ensures entries == map[]
    {
      entries := map[];
    }

    /** entryFor; the stream may grow between the stat and the read. */
    method EntryFor(bundle: B, atStat: Stream, atRead: Stream, parse: Parser<V>)
      returns (answer: Option<V>, ghost read: nat)
      requires atStat.content <= atRead.content
      requires bundle in entries ==>
        FreshSince(atStat, entries[bundle].info, entries[bundle].entry, entries[bundle].read, parse)
      modifies this
      ensures if bundle in old(entries) && old(entries)[bundle].info == Stat(atStat)
              then answer == Some(old(entries)[bundle].entry) && entries == old(entries)
              else answer == parse(atRead.content)
                   && entries == if answer.None? then old(entries)
                                 else old(entries)[bundle := Cached(Stat(atStat), answer.value, |atRead.content|)]
      ensures answer.Some? ==> FreshSince(atRead, Stat(atStat), answer.value, read, parse)
      ensures answer.None? ==> entries == old(entries) && parse(atRead.content) == None
      ensures forall b :: b != bundle ==>
        (b in entries <==> b in old(entries)) && (b in entries ==> entries[b] == old(entries)[b])
      ensures bundle in entries ==>
        FreshSince(atRead, entries[bundle].info, entries[bundle].entry, entries[bundle].read, parse)
    {
      var info := Stat(atStat);
      if bundle in entries && entries[bundle].info == info {
        assert atRead.content[..entries[bundle].read] == atStat.content[..entries[bundle].read];
        return Some(entries[bundle].entry), entries[bundle].read;
      }
      assert bundle in entries ==>
        atRead.content[..entries[bundle].read] == atStat.content[..entries[bundle].read];
      assert atRead.content[..|atRead.content|] == atRead.content;
      read := |atRead.content|;
      var parsed := parse(atRead.content);
      if parsed.None? { return None, read; }
      entries := entries[bundle := Cached(info, parsed.value, |atRead.content|)];
      return parsed, read;
    }

    method Prune(seen: set<B>)
      modifies this
      ensures entries == map b | b in old(entries) && b in seen :: old(entries)[b]
    {
      var rest := entries.Keys;
      while rest != {}
        invariant rest <= old(entries).Keys
        invariant entries == map b | b in old(entries) && (b in rest || b in seen) :: old(entries)[b]
      {
        var bundle :| bundle in rest;
        if bundle !in seen { entries := map b | b in entries && b != bundle :: entries[b]; }
        rest := rest - {bundle};
      }
    }
  }
}
