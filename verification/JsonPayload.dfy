/**
 Finding the JSON value in a command's output (internal/meeting/camp_list.go): a scanner
 that counts one kind of bracket and steps over strings, and the search for where the
 value starts behind a byte-order mark and log lines.
 */
module JsonPayload {
  import opened Wrappers
  import opened Utf8
  import opened GoStrings
  import opened Seqs
  import opened Json

  /** The scanner's state. */
  datatype Scan = Scan(depth: int, inString: bool, escape: bool)

  function Next1(s: Scan, c: byte, open: byte, close: byte): Scan
  {
    if s.inString then
      if s.escape then s.(escape := false)
      else if c == BACKSLASH then s.(escape := true)
      else if c == QUOTE then s.(inString := false)
      else s
    else if c == QUOTE then s.(inString := true)
    else if c == open then s.(depth := s.depth + 1)
    else if c == close then s.(depth := s.depth - 1)
    else s
  }

  /** The byte closes the outermost bracket. */
  predicate Closes(s: Scan, c: byte, open: byte, close: byte)
  {
    !s.inString && c != QUOTE && c != open && c == close && s.depth == 1
  }

  /** Exclusive end of the value, scanning `data` from state `s`, or -1. */
  function End(data: bytes, s: Scan, open: byte, close: byte): (r: int)
    ensures r == -1 || 1 <= r <= |data|
  {
    if data == [] then -1
    else if Closes(s, data[0], open, close) then 1
    else
      var r := End(data[1..], Next1(s, data[0], open, close), open, close);
      if r < 0 then -1 else r + 1
  }

  function CloserOf(open: byte): byte { if open == LBRACKET then RBRACKET else RBRACE }

  /** jsonValueEnd. */
  function ValueEnd(data: bytes): (r: int)
    ensures r == -1 || 1 <= r <= |data|
  {
    if data == [] || data[0] !in {LBRACKET, LBRACE} then -1
    else End(data, Scan(0, false, false), data[0], CloserOf(data[0]))
  }

  method JsonValueEnd(data: bytes) returns (end: int)
    ensures end == ValueEnd(data)
  {
    if |data| == 0 { return -1; }
    var open := data[0];
    var close: byte;
    if open == LBRACKET {
      close := RBRACKET;
    } else if open == LBRACE {
      close := RBRACE;
    } else {
      return -1;
    }
    var depth, inString, escape := 0, false, false;
    assert data[0..] == data;
    for i := 0 to |data|
      invariant ValueEnd(data) == Shift(i, End(data[i..], Scan(depth, inString, escape), open, close))
    {
      var c := data[i];
      Next(data, i);
      if inString {
        if escape {
          escape := false;
          continue;
        }
        if c == BACKSLASH {
          escape := true;
          continue;
        }
        if c == QUOTE { inString := false; }
        continue;
      }
      if c == QUOTE {
        inString := true;
      } else if c == open {
        depth := depth + 1;
      } else if c == close {
        depth := depth - 1;
        if depth == 0 { return i + 1; }
      }
    }
    return -1;
  }

  /** A result found behind `n` bytes. */
  function Shift(n: nat, r: int): int { if r < 0 then -1 else n + r }

  // ---------------------------------------------------------------- neutral text

  /** Scanned at depth at least one, outside a string, `t` ends where it began and closes nothing. */
  ghost predicate Neutral(t: bytes, open: byte)
  {
    forall depth: int, rest: bytes :: depth >= 1 ==> Skips(t, depth, rest, open)
  }

  predicate Skips(t: bytes, depth: int, rest: bytes, open: byte)
  {
    End(t + rest, Scan(depth, false, false), open, CloserOf(open))
      == Shift(|t|, End(rest, Scan(depth, false, false), open, CloserOf(open)))
  }

  lemma NeutralJoin(a: bytes, b: bytes, open: byte)
    requires Neutral(a, open) && Neutral(b, open)
    ensures Neutral(a + b, open)
  {
    hide Next1, Closes, End;
    forall depth: int, rest: bytes | depth >= 1 ensures Skips(a + b, depth, rest, open) {
      Assoc(a, b, rest);
      assert Skips(a, depth, b + rest, open);
      assert Skips(b, depth, rest, open);
    }
  }

  lemma NeutralNothing(open: byte)
    ensures Neutral([], open)
  {
    forall depth: int, rest: bytes | depth >= 1 ensures Skips([], depth, rest, open) {
      assert [] + rest == rest;
    }
  }

  /** Bytes that are neither quotes nor the counted bracket. */
  lemma NeutralByte(c: byte, open: byte)
    requires c != QUOTE && c != open && c != CloserOf(open)
    ensures Neutral([c], open)
  {
    forall depth: int, rest: bytes | depth >= 1 ensures Skips([c], depth, rest, open) {
      assert ([c] + rest)[1..] == rest;
    }
  }

  lemma {:induction false} NeutralFiller(s: bytes, open: byte)
    requires open in {LBRACKET, LBRACE} && (IsBlank(s) || GoodToken(s) || s == [])
    ensures Neutral(s, open)
  {
    if s == [] {
      NeutralNothing(open);
    } else {
      NeutralByte(s[0], open);
      NeutralFiller(s[1..], open);
      NeutralJoin([s[0]], s[1..], open);
      assert s == [s[0]] + s[1..];
    }
  }

  /** Inside a string, well-formed pieces leave the scanner inside it. */
  lemma {:induction false} PiecesStayInside(ps: seq<Piece>, depth: int, rest: bytes, open: byte)
    requires GoodText(ps)
    ensures End(PrintPieces(ps) + rest, Scan(depth, true, false), open, CloserOf(open))
         == Shift(|PrintPieces(ps)|, End(rest, Scan(depth, true, false), open, CloserOf(open)))
  {
    if ps == [] {
      assert [] + rest == rest;
    } else {
      var p, tail := PrintPiece(ps[0]), PrintPieces(ps[1..]);
      Assoc(p, tail, rest);
      PieceStaysInside(ps[0], depth, tail + rest, open);
      hide End;
      PiecesStayInside(ps[1..], depth, rest, open);
    }
  }

  lemma PieceStaysInside(p: Piece, depth: int, rest: bytes, open: byte)
    requires GoodPiece(p)
    ensures End(PrintPiece(p) + rest, Scan(depth, true, false), open, CloserOf(open))
         == Shift(|PrintPiece(p)|, End(rest, Scan(depth, true, false), open, CloserOf(open)))
  {
    match p {
      case Plain(c) => InsideByte(c, depth, rest, open);
      case Escape(c) => EscapePair(c, depth, rest, open);
      case Unicode(a, b, c, d) =>
        EscapePair(117, depth, [a, b, c, d] + rest, open);
        InsideByte(a, depth, [b, c, d] + rest, open);
        InsideByte(b, depth, [c, d] + rest, open);
        InsideByte(c, depth, [d] + rest, open);
        InsideByte(d, depth, rest, open);
        hide End;
        assert [a] + ([b, c, d] + rest) == [a, b, c, d] + rest;
        assert [b] + ([c, d] + rest) == [b, c, d] + rest;
        assert [c] + ([d] + rest) == [c, d] + rest;
        assert [BACKSLASH, 117] + ([a, b, c, d] + rest) == [BACKSLASH, 117, a, b, c, d] + rest;
    }
  }

  lemma InsideByte(c: byte, depth: int, rest: bytes, open: byte)
    requires c != QUOTE && c != BACKSLASH
    ensures End([c] + rest, Scan(depth, true, false), open, CloserOf(open))
         == Shift(1, End(rest, Scan(depth, true, false), open, CloserOf(open)))
  {
    assert ([c] + rest)[1..] == rest;
  }

  lemma EscapePair(c: byte, depth: int, rest: bytes, open: byte)
    ensures End([BACKSLASH, c] + rest, Scan(depth, true, false), open, CloserOf(open))
         == Shift(2, End(rest, Scan(depth, true, false), open, CloserOf(open)))
  {
    var s := [BACKSLASH, c] + rest;
    assert s[1..] == [c] + rest && s[1..][1..] == rest;
  }

  lemma NeutralText(ps: seq<Piece>, open: byte)
    requires GoodText(ps) && open in {LBRACKET, LBRACE}
    ensures Neutral(PrintText(ps), open)
  {
    forall depth: int, rest: bytes | depth >= 1 ensures Skips(PrintText(ps), depth, rest, open) {
      var body, tail := PrintPieces(ps), [QUOTE] + rest;
      assert PrintText(ps) + rest == [QUOTE] + (body + tail);
      assert ([QUOTE] + (body + tail))[1..] == body + tail && tail[1..] == rest;
      PiecesStayInside(ps, depth, tail, open);
    }
  }

  /** Brackets around neutral text are neutral, counted or not. */
  lemma NeutralBrackets(inner: bytes, left: byte, open: byte)
    requires left in {LBRACKET, LBRACE} && open in {LBRACKET, LBRACE} && Neutral(inner, open)
    ensures Neutral([left] + inner + [CloserOf(left)], open)
  {
    var right := CloserOf(left);
    if left != open {
      NeutralByte(left, open);
      NeutralByte(right, open);
      NeutralJoin([left], inner, open);
      NeutralJoin([left] + inner, [right], open);
    } else {
      forall depth: int, rest: bytes | depth >= 1 ensures Skips([left] + inner + [right], depth, rest, open) {
        var tail := [right] + rest;
        assert [left] + inner + [right] + rest == [left] + (inner + tail);
        assert ([left] + (inner + tail))[1..] == inner + tail && tail[1..] == rest;
        assert Skips(inner, depth + 1, tail, open);
      }
    }
  }

  lemma {:induction false} NeutralValue(v: Value, open: byte)
    requires Good(v) && open in {LBRACKET, LBRACE}
    ensures Neutral(Print(v), open)
    decreases v, 1
  {
    hide Neutral, Skips;
    match v {
      case Token(t) => NeutralFiller(t, open);
      case Text(ps) => NeutralText(ps, open);
      case EmptyArray(blank) =>
        NeutralFiller(blank, open);
        NeutralBrackets(blank, LBRACKET, open);
      case EmptyObject(blank) =>
        NeutralFiller(blank, open);
        NeutralBrackets(blank, LBRACE, open);
      case Array(es) =>
        NeutralElements(es, open);
        NeutralBrackets(PrintElements(es), LBRACKET, open);
      case Object(ms) =>
        NeutralMembers(ms, open);
        NeutralBrackets(PrintMembers(ms), LBRACE, open);
    }
  }

  lemma {:induction false} NeutralPadded(p: Padded, open: byte)
    requires GoodPadded(p) && open in {LBRACKET, LBRACE}
    ensures Neutral(PrintPadded(p), open)
    decreases p, 1
  {
    hide Neutral, Skips;
    NeutralFiller(p.before, open);
    NeutralValue(p.value, open);
    NeutralFiller(p.after, open);
    NeutralJoin(p.before, Print(p.value), open);
    NeutralJoin(p.before + Print(p.value), p.after, open);
  }

  lemma {:induction false} NeutralElements(es: Elements, open: byte)
    requires GoodElements(es) && open in {LBRACKET, LBRACE}
    ensures Neutral(PrintElements(es), open)
    decreases es, 0
  {
    hide Neutral, Skips;
    NeutralPadded(es.item, open);
    match es.more {
      case None => assert PrintElements(es) == PrintPadded(es.item);
      case Some(more) =>
        NeutralElements(more, open);
        NeutralByte(COMMA, open);
        NeutralJoin([COMMA], PrintElements(more), open);
        NeutralJoin(PrintPadded(es.item), [COMMA] + PrintElements(more), open);
    }
  }

  lemma {:induction false} NeutralMembers(ms: Members, open: byte)
    requires GoodMembers(ms) && open in {LBRACKET, LBRACE}
    ensures Neutral(PrintMembers(ms), open)
    decreases ms, 0
  {
    hide Neutral, Skips;
    NeutralFiller(ms.pad, open);
    NeutralText(ms.name, open);
    NeutralFiller(ms.colon, open);
    NeutralByte(COLON, open);
    NeutralPadded(ms.item, open);
    var head := ms.pad + PrintText(ms.name);
    NeutralJoin(ms.pad, PrintText(ms.name), open);
    NeutralJoin(head, ms.colon, open);
    NeutralJoin(head + ms.colon, [COLON], open);
    NeutralJoin(head + ms.colon + [COLON], PrintPadded(ms.item), open);
    var member := head + ms.colon + [COLON] + PrintPadded(ms.item);
    match ms.more {
      case None => assert PrintMembers(ms) == member;
      case Some(more) =>
        NeutralMembers(more, open);
        NeutralByte(COMMA, open);
        NeutralJoin([COMMA], PrintMembers(more), open);
        NeutralJoin(member, [COMMA] + PrintMembers(more), open);
    }
  }

  // ---------------------------------------------------------------- main results

  predicate IsArray(v: Value) { v.Array? || v.EmptyArray? }

  predicate IsObject(v: Value) { v.Object? || v.EmptyObject? }

  lemma EnclosedEnd(inner: bytes, open: byte, rest: bytes)
    requires open in {LBRACKET, LBRACE} && Neutral(inner, open)
    ensures ValueEnd([open] + inner + [CloserOf(open)] + rest) == |inner| + 2
  {
    var tail := [CloserOf(open)] + rest;
    assert [open] + inner + [CloserOf(open)] + rest == [open] + (inner + tail);
    assert ([open] + (inner + tail))[1..] == inner + tail;
    assert Skips(inner, 1, tail, open);
  }

  /** The end found is exactly that of the value, for every array or object and whatever follows it. */
  lemma ValueEndExact(v: Value, rest: bytes)
    requires Good(v) && (IsArray(v) || IsObject(v))
    ensures ValueEnd(Print(v) + rest) == |Print(v)|
  {
    match v {
      case EmptyArray(blank) =>
        NeutralFiller(blank, LBRACKET);
        EnclosedEnd(blank, LBRACKET, rest);
      case EmptyObject(blank) =>
        NeutralFiller(blank, LBRACE);
        EnclosedEnd(blank, LBRACE, rest);
      case Array(es) =>
        NeutralElements(es, LBRACKET);
        EnclosedEnd(PrintElements(es), LBRACKET, rest);
      case Object(ms) =>
        NeutralMembers(ms, LBRACE);
        EnclosedEnd(PrintMembers(ms), LBRACE, rest);
    }
  }

  lemma {:induction false} EndStands(a: bytes, b: bytes, s: Scan, open: byte, close: byte)
    requires End(a, s, open, close) >= 0
    ensures End(a + b, s, open, close) == End(a, s, open, close)
  {
    assert (a + b)[1..] == a[1..] + b;
    if !Closes(s, a[0], open, close) { EndStands(a[1..], b, Next1(s, a[0], open, close), open, close); }
  }

  /** A value cut short is reported as incomplete, wherever it is cut. */
  lemma TruncatedValue(v: Value, k: nat)
    requires Good(v) && (IsArray(v) || IsObject(v)) && k < |Print(v)|
    ensures ValueEnd(Print(v)[..k]) == -1
  {
    var p := Print(v)[..k];
    ValueEndExact(v, []);
    assert Print(v) + [] == Print(v);
    if ValueEnd(p) >= 0 {
      EndStands(p, Print(v)[k..], Scan(0, false, false), p[0], CloserOf(p[0]));
      SplitAt(Print(v), k);
    }
  }

  // ---------------------------------------------------------------- finding the start

  /** The UTF-8 byte-order mark. */
  const BOM: bytes := [0xEF, 0xBB, 0xBF]

  predicate HasBom(s: bytes) { |s| >= 3 && s[..3] == BOM }

  /** Trimmed, and trimmed again behind a byte-order mark. */
  function Core(data: bytes): bytes
  {
    var t := TrimSpace(data);
    if HasBom(t) then TrimSpace(t[3..]) else t
  }

  /** extractJSONPayload; nothing found is the empty payload. */
  function Payload(data: bytes): bytes
  {
    var core := Core(data);
    if core == [] || core[0] in {LBRACKET, LBRACE} then core
    else
      var start := if LBRACKET in core then IndexOf(core, LBRACKET) else IndexOf(core, LBRACE);
      IndexOfFound(core, if LBRACKET in core then LBRACKET else LBRACE);
      if LBRACKET !in core && LBRACE !in core then []
      else if ValueEnd(core[start..]) < 0 then core[start..]
      else core[start..][..ValueEnd(core[start..])]
  }

  lemma {:induction false} IndexOfFound(s: bytes, c: byte)
    ensures IndexOf(s, c) <= |s|
    ensures c in s <==> IndexOf(s, c) < |s|
  {
    if s != [] && s[0] != c { IndexOfFound(s[1..], c); }
  }

  /** bytes.IndexByte. */
  method IndexByte(s: bytes, c: byte) returns (i: int)
    ensures i == if c in s then IndexOf(s, c) else -1
  {
    i := 0;
    assert s[0..] == s;
    while i < |s|
      invariant 0 <= i <= |s| && c !in s[..i] && IndexOf(s, c) == i + IndexOf(s[i..], c)
    {
      Next(s, i);
      Grow(s, i);
      if s[i] == c { return; }
      i := i + 1;
    }
    assert s[..|s|] == s;
    return -1;
  }

  method ExtractJSONPayload(input: bytes) returns (payload: bytes)
    ensures payload == Payload(input)
  {
    hide TrimSpace, ValueEnd;
    var data := TrimSpace(input);
    if |data| >= 3 && data[0] == 0xEF && data[1] == 0xBB && data[2] == 0xBF {
      assert data[..3] == BOM;
      data := TrimSpace(data[3..]);
    }
    assert data == Core(input);
    if |data| == 0 { return []; }
    if data[0] == LBRACKET || data[0] == LBRACE { return data; }
    var start := IndexByte(data, LBRACKET);
    IndexOfFound(data, LBRACKET);
    IndexOfFound(data, LBRACE);
    if start < 0 { start := IndexByte(data, LBRACE); }
    if start < 0 { return []; }
    var slice := data[start..];
    var end := JsonValueEnd(slice);
    if end < 0 { return slice; }
    return slice[..end];
  }

  // ---------------------------------------------------------------- log lines in front

  /** What is left of a prefix in front of a value: leading white space and byte-order mark gone. */
  function Stripped(prefix: bytes): bytes
  {
    var p := TrimLeft(prefix);
    if HasBom(p) then TrimLeft(p[3..]) else p
  }

  lemma {:induction false} LeadingSpaceBefore(p: bytes, x: bytes)
    requires x != [] && x[0] < 0x80 && !StartsWithSpace(x)
    ensures LeadingSpace(p + x) == LeadingSpace(p)
    decreases |p|
  {
    if p == [] {
      assert p + x == x;
    } else {
      JoinIsBoundary(p, x);
      CutStep(p + x, |p|);
      JoinSlices(p, x);
      assert (p + x)[Step(p)..] == p[Step(p)..] + x;
      hide Utf8.WellFormedWidth, Utf8.Step;
      if StartsWithSpace(p) { LeadingSpaceBefore(p[Step(p)..], x); }
    }
  }

  lemma TrimLeftBefore(p: bytes, x: bytes)
    requires x != [] && x[0] < 0x80 && !StartsWithSpace(x)
    ensures TrimLeft(p + x) == TrimLeft(p) + x
  {
    LeadingSpaceBefore(p, x);
  }

  /** A text that ends in a closing bracket keeps it, whatever trailing space is trimmed. */
  lemma TrimRightBehind(s: bytes, close: byte, rest: bytes)
    requires close in {RBRACKET, RBRACE}
    ensures TrimRight(s + [close] + rest) == s + [close] + TrimRight(rest)
  {
    var all, tail := s + [close] + rest, [close] + rest;
    Assoc(s, [close], rest);
    JoinSlices(s, tail);
    RuneStartIsBoundary(all, |s|);
    CloserIsVisible(close, rest);
    hide Utf8.WellFormedWidth, Utf8.Content, VisibleEnd, Utf8.Step;
    VisibleEndBehind(all, |s|);
    var k := VisibleEnd(rest);
    assert rest == rest[..k] + rest[k..];
    assert all == (s + [close] + rest[..k]) + rest[k..];
  }

  lemma CloserIsVisible(close: byte, rest: bytes)
    requires close in {RBRACKET, RBRACE}
    ensures VisibleEnd([close] + rest) == 1 + VisibleEnd(rest) && !Blank([close] + rest)
  {
    var tail := [close] + rest;
    assert tail[1..] == rest && !StartsWithSpace(tail) && Step(tail) == 1;
    TrimmedNotBlank(tail);
  }

  /** A printed array: first bracket, inside, last bracket. */
  lemma ArrayShape(v: Value) returns (inner: bytes)
    requires IsArray(v)
    ensures Print(v) == [LBRACKET] + inner + [RBRACKET]
  {
    inner := match v case EmptyArray(blank) => blank case Array(es) => PrintElements(es) case _ => [];
  }

  lemma TrimAround(p: bytes, v: Value, rest: bytes)
    requires IsArray(v)
    ensures TrimSpace(p + Print(v) + rest) == TrimLeft(p) + Print(v) + TrimRight(rest)
  {
    var inner := ArrayShape(v);
    var a, q := [LBRACKET] + inner, TrimLeft(p);
    var x := Print(v) + rest;
    assert x[0] == LBRACKET && !StartsWithSpace(x);
    hide Print, Utf8.WellFormedWidth, Utf8.Step;
    Assoc(p, Print(v), rest);
    TrimLeftBefore(p, x);
    Assoc(q, a, [RBRACKET]);
    Assoc(q, Print(v), rest);
    TrimRightBehind(q + a, RBRACKET, rest);
  }

  lemma BomBefore(q: bytes, v: Value, rest: bytes)
    requires IsArray(v)
    ensures HasBom(q + Print(v) + rest) <==> HasBom(q)
  {
    var inner := ArrayShape(v);
    var s := q + Print(v) + rest;
    assert s[|q|] == LBRACKET;
    if |q| >= 3 { assert s[..3] == q[..3]; }
    if |s| >= 3 && |q| < 3 { assert s[..3][|q|] == LBRACKET; }
    assert forall i :: 0 <= i < 3 ==> BOM[i] != LBRACKET;
  }

  /** The text searched, for an array behind any prefix and in front of anything. */
  lemma CoreAround(p: bytes, v: Value, rest: bytes)
    requires IsArray(v)
    ensures Core(p + Print(v) + rest) == Stripped(p) + Print(v) + TrimRight(rest)
  {
    hide Print, TrimSpace, TrimLeft, TrimRight;
    var q, r := TrimLeft(p), TrimRight(rest);
    TrimAround(p, v, rest);
    BomBefore(q, v, r);
    if HasBom(q) {
      assert (q + Print(v) + r)[3..] == q[3..] + Print(v) + r;
      TrimAround(q[3..], v, r);
      TrimRightTwice(rest);
    }
  }

  lemma TrimRightTwice(s: bytes)
    ensures TrimRight(TrimRight(s)) == TrimRight(s)
  {
    VisibleEndFacts(s);
    TrimRightEnds(s);
  }

  lemma {:induction false} TrimRightEnds(s: bytes)
    ensures VisibleEnd(s[..VisibleEnd(s)]) == VisibleEnd(s)
    decreases |s|
  {
    hide Utf8.Content, Utf8.WellFormedWidth, Utf8.FirstRune, Blank;
    var k := VisibleEnd(s);
    if k > 0 {
      VisibleEndFacts(s);
      CutStep(s, k);
      TrimRightEnds(s[Step(s)..]);
    }
  }

  /** Behind log lines without '[', an array is recovered exactly when the lines are visible and do not start
      with '{' once a byte-order mark is gone, or there is nothing visible on either side of it. */
  lemma PayloadExact(p: bytes, v: Value, rest: bytes)
    requires IsArray(v) && Good(v) && LBRACKET !in p
    ensures var q := Stripped(p);
            (Payload(p + Print(v) + rest) == Print(v))
            <==> (if q == [] then Blank(rest) else q[0] != LBRACE)
  {
    var q, r := Stripped(p), TrimRight(rest);
    var inner := ArrayShape(v);
    CoreAround(p, v, rest);
    VisibleEndFacts(rest);
    StrippedSuffix(p);
    Assoc(q, Print(v), r);
    IndexOfJoin(q, Print(v) + r, LBRACKET);
    JoinSlices(q, Print(v) + r);
    JoinSlices(Print(v), r);
    ValueEndExact(v, r);
    hide Print, Stripped, TrimRight, ValueEnd, Core;
    var core := q + Print(v) + r;
    if q == [] {
      assert core == Print(v) + r;
    } else if q[0] == LBRACE {
      assert |core| > |Print(v)|;
    } else {
      assert core[|q|] == LBRACKET;
    }
  }

  lemma StrippedSuffix(p: bytes)
    ensures forall c :: c in Stripped(p) ==> c in p
  {
  }

  /** A mark alone in front is not enough: then what follows the array comes along. */
  lemma BomAloneKeepsTail(v: Value)
    requires IsArray(v) && Good(v)
    ensures Payload(BOM + Print(v) + [120]) != Print(v)
  {
    BomStripped();
    TailVisible();
    PayloadExact(BOM, v, [120]);
  }

  lemma BomStripped()
    ensures Stripped(BOM) == [] && LBRACKET !in BOM
  {
    BomIsVisible();
    hide LeadingSpace;
    assert BOM[0..] == BOM && BOM[..3] == BOM && BOM[3..] == [];
    NoLeadingSpace();
  }

  lemma BomIsVisible()
    ensures LeadingSpace(BOM) == 0
  {
    assert WellFormedWidth(BOM) == 3;
    assert FirstRune(BOM) == 0xFEFF;
  }

  lemma NoLeadingSpace()
    ensures LeadingSpace([]) == 0
  {
  }

  lemma TailVisible()
    ensures !Blank([120])
  {
    ContentUnfold([120]);
  }
}
