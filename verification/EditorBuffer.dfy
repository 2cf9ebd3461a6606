/**
 The composer's text buffer (internal/tui/editor_buffer.go): text, cursor, selection,
 register and a bounded undo history. Text is a sequence of characters, as the source's
 `[]rune(value)`.
 */
module EditorBuffer {
  import Utf8

  datatype Selection = Selection(active: bool, anchor: int, linewise: bool)
  datatype Register = Register(text: string, linewise: bool)
  datatype Snapshot = Snapshot(value: string, cursor: int)

  const NoSelection := Selection(false, 0, false)

  const UNDO_LIMIT := 100

  /** The buffer's state. */
  datatype Buffer = Buffer(value: string, cursor: int, selection: Selection, register: Register, undo: seq<Snapshot>)

  function Min(a: int, b: int): int { if a <= b then a else b }

  function Max(a: int, b: int): int { if a >= b then a else b }

  function Clamp(offset: int, length: nat): (r: nat)
    ensures r <= length
  {
    Min(Max(offset, 0), length)
  }

  function Cursor(b: Buffer): nat { Clamp(b.cursor, |b.value|) }

  function At(b: Buffer, offset: int): Buffer { b.(cursor := Clamp(offset, |b.value|)) }

  predicate Space(c: char) { Utf8.IsSpaceRune(c as int) }

  // ---------------------------------------------------------------- lines

  function LineStart(v: string, offset: nat): (s: nat)
    requires offset <= |v|
    ensures s <= offset
  {
    if offset == 0 || v[offset - 1] == '\n' then offset else LineStart(v, offset - 1)
  }

  function LineEnd(v: string, offset: nat): (e: nat)
    requires offset <= |v|
    ensures offset <= e <= |v|
    decreases |v| - offset
  {
    if offset == |v| || v[offset] == '\n' then offset else LineEnd(v, offset + 1)
  }

  /** A line runs from just behind a newline, or the front, up to the next newline, or the end. */
  lemma {:induction false} LineStartFacts(v: string, offset: nat)
    requires offset <= |v|
    ensures var s := LineStart(v, offset);
            (s > 0 ==> v[s - 1] == '\n') && forall i :: s <= i < offset ==> v[i] != '\n'
  {
    if offset > 0 && v[offset - 1] != '\n' { LineStartFacts(v, offset - 1); }
  }

  lemma {:induction false} LineEndFacts(v: string, offset: nat)
    requires offset <= |v|
    ensures var e := LineEnd(v, offset);
            (e < |v| ==> v[e] == '\n') && forall i :: offset <= i < e ==> v[i] != '\n'
    decreases |v| - offset
  {
    if offset < |v| && v[offset] != '\n' { LineEndFacts(v, offset + 1); }
  }

  /** Where vertical movement goes: the same column of the next or previous line, or its end. */
  function Vertical(v: string, position: nat, down: bool): (target: nat)
    requires position <= |v|
    ensures target <= |v|
  {
    var start, end := LineStart(v, position), LineEnd(v, position);
    var column := position - start;
    if down then
      if end >= |v| then position else Min(end + 1 + column, LineEnd(v, end + 1))
    else
      if start == 0 then position
      else
        var previous := LineStart(v, start - 1);
        Min(previous + column, LineEnd(v, previous))
  }

  function SkipSpace(v: string, p: nat): (q: nat)
    requires p <= |v|
    ensures p <= q <= |v| && (q < |v| ==> !Space(v[q])) && forall i :: p <= i < q ==> Space(v[i])
    decreases |v| - p
  {
    if p < |v| && Space(v[p]) then SkipSpace(v, p + 1) else p
  }

  function SkipWord(v: string, p: nat): (q: nat)
    requires p <= |v|
    ensures p <= q <= |v| && (q < |v| ==> Space(v[q])) && forall i :: p <= i < q ==> !Space(v[i])
    decreases |v| - p
  {
    if p < |v| && !Space(v[p]) then SkipWord(v, p + 1) else p
  }

  // ---------------------------------------------------------------- selections

  /** selectedRange. */
  function Selected(b: Buffer): (int, int, bool)
  {
    if !b.selection.active then (0, 0, false)
    else if b.selection.linewise then
      var first := LineStart(b.value, Clamp(b.selection.anchor, |b.value|));
      var other := LineStart(b.value, Cursor(b));
      var start, last := Min(first, other), Max(first, other);
      var end := LineEnd(b.value, last);
      var stop := if end < |b.value| then end + 1 else end;
      (start, stop, stop > start)
    else
      var start, last := Min(b.selection.anchor, Cursor(b)), Max(b.selection.anchor, Cursor(b));
      var end := Min(last + 1, |b.value|);
      (start, end, end > start)
  }

  // ---------------------------------------------------------------- edits

  function PushUndo(b: Buffer): Buffer
  {
    var all := b.undo + [Snapshot(b.value, Cursor(b))];
    b.(undo := if |all| > UNDO_LIMIT then all[|all| - UNDO_LIMIT..] else all)
  }

  /** Replace the characters between two offsets. */
  function Splice(v: string, start: nat, end: nat, text: string): string
    requires start <= end <= |v|
  {
    v[..start] + text + v[end..]
  }

  function DeleteRange(b: Buffer, from: int, to: int, linewise: bool): Buffer
  {
    var x, y := Clamp(from, |b.value|), Clamp(to, |b.value|);
    var start, end := Min(x, y), Max(x, y);
    if start == end then b
    else At(PushUndo(b).(value := Splice(b.value, start, end, ""), register := Register(b.value[start..end], linewise)),
            start).(selection := NoSelection)
  }

  function DeleteSelection(b: Buffer): Buffer
  {
    var (start, end, ok) := Selected(b);
    (if ok then DeleteRange(b, start, end, b.selection.linewise) else b).(selection := NoSelection)
  }

  function InsertAt(b: Buffer, offset: int, text: string, replaceSelection: bool): Buffer
    requires Inv(b)
  {
    var (start, end, ok) := Selected(b);
    SelectedInText(b);
    var replacing := replaceSelection && ok;
    var rest := if replacing then Splice(b.value, start, end, "") else b.value;
    var cleared := if replacing then b.(selection := NoSelection) else b;
    var at := Clamp(if replacing then start else offset, |rest|);
    At(PushUndo(cleared).(value := Splice(rest, at, at, text)), at + |text|)
  }

  function ReplaceRange(b: Buffer, from: int, to: int, text: string): Buffer
  {
    var x, y := Clamp(from, |b.value|), Clamp(to, |b.value|);
    var start, end := Min(x, y), Max(x, y);
    At(PushUndo(b).(value := Splice(b.value, start, end, text)), start + |text|).(selection := NoSelection)
  }

  function UndoEdit(b: Buffer): Buffer
  {
    if b.undo == [] then b
    else
      var s := b.undo[|b.undo| - 1];
      b.(undo := b.undo[..|b.undo| - 1], value := s.value, cursor := s.cursor, selection := NoSelection)
  }

  /** The text area's value and cursor are taken over; the selection stays only if neither differs. */
  function SyncWith(b: Buffer, value: string, cursor: int): Buffer
  {
    var at := Clamp(cursor, |value|);
    if b.value == value && b.cursor == at then b else b.(value := value, cursor := at, selection := NoSelection)
  }

  // ---------------------------------------------------------------- motions

  datatype Motion =
    | Left | Right | Down | Up | ToLineStart | ToLineEnd | FirstText
    | WordForward | WordBackward | WordEnd | First | Last

  function PreviousWord(v: string, position: nat): (p: nat)
    ensures p <= |v|
  {
    WordFront(v, SpaceFront(v, Min(Max(position - 1, 0), |v|)))
  }

  /** Back over white space: the character at `p` itself is tested. */
  function SpaceFront(v: string, p: nat): (q: nat)
    requires p <= |v|
    ensures q <= p && (0 < q < |v| ==> !Space(v[q])) && forall i :: q < i <= p ==> i < |v| && Space(v[i])
  {
    if p > 0 && p < |v| && Space(v[p]) then SpaceFront(v, p - 1) else p
  }

  /** Back to the front of a word: the character before `p` is tested. */
  function WordFront(v: string, p: nat): (q: nat)
    requires p <= |v|
    ensures q <= p && (q > 0 ==> Space(v[q - 1])) && forall i :: q <= i < p ==> !Space(v[i])
  {
    if p > 0 && !Space(v[p - 1]) then WordFront(v, p - 1) else p
  }

  /** The last character of the word at `p`. */
  function WordTail(v: string, p: nat): (q: nat)
    requires p <= |v|
    ensures p <= q <= |v| && (p < |v| ==> q < |v|)
    ensures (q + 1 < |v| ==> Space(v[q + 1])) && forall i :: p < i <= q ==> i < |v| && !Space(v[i])
    decreases |v| - p
  {
    if p + 1 < |v| && !Space(v[p + 1]) then WordTail(v, p + 1) else p
  }

  /** First visible character at or after `p`, before `end`. */
  function SkipBlank(v: string, p: nat, end: nat): (q: nat)
    requires p <= end <= |v|
    ensures p <= q <= end && (q < end ==> !Space(v[q])) && forall i :: p <= i < q ==> Space(v[i])
    decreases end - p
  {
    if p < end && Space(v[p]) then SkipBlank(v, p + 1, end) else p
  }

  function Target(v: string, position: nat, m: Motion): int
    requires position <= |v|
  {
    match m
    case Left => position - 1
    case Right => if |v| > 0 then Min(position + 1, |v| - 1) else position
    case Down => Vertical(v, position, true)
    case Up => Vertical(v, position, false)
    case ToLineStart => LineStart(v, position)
    case ToLineEnd =>
      if LineEnd(v, position) > LineStart(v, position) then LineEnd(v, position) - 1 else LineEnd(v, position)
    case FirstText => SkipBlank(v, LineStart(v, position), LineEnd(v, position))
    case WordForward =>
      Min(SkipSpace(v, SkipWord(v, SkipSpace(v, position))), Max(|v| - 1, 0))
    case WordBackward => PreviousWord(v, position)
    case WordEnd => Min(WordTail(v, SkipSpace(v, position)), Max(|v| - 1, 0))
    case First => 0
    case Last => Max(|v| - 1, 0)
  }

  datatype Direction = Forward | Backward | TillForward | TillBackward

  function FindAhead(v: string, i: nat, target: char): (r: int)
    requires i <= |v|
    ensures r == -1 || (i <= r < |v| && v[r] == target)
    decreases |v| - i
  {
    if i == |v| || v[i] == '\n' then -1 else if v[i] == target then i else FindAhead(v, i + 1, target)
  }

  function FindBehind(v: string, i: int, target: char): (r: int)
    requires i < |v|
    ensures r == -1 || (0 <= r <= i && v[r] == target)
    decreases i + 1
  {
    if i < 0 || v[i] == '\n' then -1 else if v[i] == target then i else FindBehind(v, i - 1, target)
  }

  /** The nearest target on the line is found, and only if there is none does the search fail. */
  lemma {:induction false} FindAheadNearest(v: string, i: nat, target: char)
    requires i <= |v|
    ensures var r := FindAhead(v, i, target);
      forall j :: i <= j < (if r < 0 then LineEnd(v, i) else r) ==> v[j] != target && v[j] != '\n'
    decreases |v| - i
  {
    if i < |v| && v[i] != '\n' && v[i] != target { FindAheadNearest(v, i + 1, target); }
  }

  lemma {:induction false} FindBehindNearest(v: string, i: int, target: char)
    requires -1 <= i < |v|
    ensures var r := FindBehind(v, i, target);
      forall j :: (if r < 0 then LineStart(v, i + 1) else r + 1) <= j <= i ==> v[j] != target && v[j] != '\n'
    decreases i + 1
  {
    if i >= 0 && v[i] != '\n' && v[i] != target { FindBehindNearest(v, i - 1, target); }
  }

  /** Where find stops, or -1. */
  function Found(v: string, position: nat, direction: Direction, target: char): int
    requires position <= |v|
  {
    match direction
    case Forward => if position < |v| then FindAhead(v, position + 1, target) else -1
    case TillForward =>
      if position < |v| && FindAhead(v, position + 1, target) >= 0 then FindAhead(v, position + 1, target) - 1 else -1
    case Backward => FindBehind(v, position - 1, target)
    case TillBackward =>
      if FindBehind(v, position - 1, target) >= 0 then FindBehind(v, position - 1, target) + 1 else -1
  }

  function FindChar(b: Buffer, direction: Direction, target: char): Buffer
  {
    var at := Found(b.value, Cursor(b), direction, target);
    if at < 0 then b else At(b, at)
  }

  function Move(b: Buffer, m: Motion): Buffer { At(b, Target(b.value, Cursor(b), m)) }

  // ---------------------------------------------------------------- invariants

  /** Cursor and anchor are offsets of the text, and so is every recorded cursor. */
  predicate Inv(b: Buffer)
  {
    && 0 <= b.cursor <= |b.value|
    && 0 <= b.selection.anchor <= |b.value|
    && |b.undo| <= UNDO_LIMIT
    && forall i :: 0 <= i < |b.undo| ==> 0 <= b.undo[i].cursor <= |b.undo[i].value|
  }

  /** The selected range always lies in the text, and is not empty when it counts. */
  lemma SelectedInText(b: Buffer)
    requires Inv(b)
    ensures var (start, end, ok) := Selected(b); 0 <= start <= end <= |b.value| && (ok <==> start < end)
  {
  }

  /** A linewise selection consists of whole lines. */
  lemma LinewiseSelectsLines(b: Buffer)
    requires Inv(b) && b.selection.active && b.selection.linewise
    ensures var (start, end, ok) := Selected(b);
            && 0 <= start <= end <= |b.value|
            && (start == 0 || b.value[start - 1] == '\n')
            && (end == |b.value| || (end > 0 && b.value[end - 1] == '\n'))
            && start <= Min(b.selection.anchor, b.cursor) && Max(b.selection.anchor, b.cursor) <= end
  {
    var v, a, c := b.value, b.selection.anchor, b.cursor;
    LineStartMonotone(v, Min(a, c), Max(a, c));
    LineStartFacts(v, Min(a, c));
    LineEndFacts(v, LineStart(v, Max(a, c)));
  }

  lemma {:induction false} LineStartMonotone(v: string, a: nat, c: nat)
    requires a <= c <= |v|
    ensures LineStart(v, a) <= LineStart(v, c)
    ensures c <= LineEnd(v, LineStart(v, c))
  {
    LineStartFacts(v, a);
    LineStartFacts(v, c);
    LineEndFacts(v, LineStart(v, c));
  }

  // ---------------------------------------------------------------- words

  predicate Spaces(v: string, from: nat, to: int)
    requires to <= |v|
  {
    forall i :: from <= i < to ==> Space(v[i])
  }

  predicate Visible(v: string, from: nat, to: int)
    requires to <= |v|
  {
    forall i :: from <= i < to ==> !Space(v[i])
  }

  /** `word` up to `end` is the only word at or after `p` and before `next`. */
  predicate OneWord(v: string, p: nat, word: int, end: int, next: int)
  {
    && p <= word <= end <= next <= |v|
    && Spaces(v, p, word) && Visible(v, word, end) && Spaces(v, end, next) && (word == end ==> next == |v|)
  }

  /** Word forward: over at most one word, to the front of the next or to the last character. */
  lemma ForwardOverOneWord(v: string, p: nat)
    requires p <= |v|
    ensures exists word, end, next ::
      && OneWord(v, p, word, end, next) && (next < |v| ==> !Space(v[next]))
      && Target(v, p, WordForward) == if next < |v| then next else Max(|v| - 1, 0)
  {
    var word := SkipSpace(v, p);
    var end := SkipWord(v, word);
    assert OneWord(v, p, word, end, SkipSpace(v, end));
  }

  /** Word backward: over white space and to the front of the word before it. */
  lemma BackOverOneWord(v: string, p: nat)
    requires 0 < p <= |v|
    ensures var q := Target(v, p, WordBackward);
      && 0 <= q < p && (q > 0 ==> Space(v[q - 1]))
      && exists m :: q <= m < p && Visible(v, q, m) && Spaces(v, m + 1, p) && (m > 0 ==> !Space(v[m]))
  {
    var m := SpaceFront(v, p - 1);
    assert Spaces(v, m + 1, p);
    assert Visible(v, WordFront(v, m), m);
  }

  /** Word end: over white space and to the last character of the word there. */
  lemma ToEndOfWord(v: string, p: nat)
    requires p < |v|
    ensures var q := Target(v, p, WordEnd);
      && p <= q < |v|
      && if Spaces(v, p, |v|) then q == |v| - 1
         else (q + 1 < |v| ==> Space(v[q + 1]))
              && exists a: nat :: p <= a <= q && Spaces(v, p, a) && Visible(v, a, q + 1)
  {
    var a := SkipSpace(v, p);
    if a < |v| { assert Spaces(v, p, a) && Visible(v, a, WordTail(v, a) + 1); }
  }

  // ---------------------------------------------------------------- what an edit leaves

  /** `after` is `v` with the characters between two offsets replaced by `text`. */
  predicate Replaced(v: string, start: nat, end: nat, text: string, after: string)
    requires start <= end <= |v|
  {
    && |after| == start + |text| + |v| - end
    && (forall i :: 0 <= i < start ==> after[i] == v[i])
    && (forall i :: start <= i < start + |text| ==> after[i] == text[i - start])
    && (forall i :: start + |text| <= i < |after| ==> after[i] == v[i - start - |text| + end])
  }

  lemma SpliceReplaces(v: string, start: nat, end: nat, text: string)
    requires start <= end <= |v|
    ensures Replaced(v, start, end, text, Splice(v, start, end, text))
  {
  }

  /** Replacing back what was there gives the text again. */
  lemma ReplacedBack(v: string, start: nat, end: nat, text: string)
    requires start <= end <= |v|
    ensures var w := Splice(v, start, end, text);
      start + |text| <= |w| && w[start..start + |text|] == text
      && Splice(w, start, start + |text|, v[start..end]) == v
  {
    Parts(v[..start], text, v[end..]);
    Whole(v, start, end);
  }

  lemma Parts(p: string, t: string, s: string)
    ensures var w := p + t + s;
      w[..|p|] == p && w[|p|..|p| + |t|] == t && w[|p| + |t|..] == s
  {
  }

  lemma Whole(v: string, start: nat, end: nat)
    requires start <= end <= |v|
    ensures v[..start] + v[start..end] + v[end..] == v
  {
  }

  /** A deletion takes out the characters between its two offsets, given in any order, and nothing else; they go to
      the register, the cursor to where they were. */
  lemma DeleteLeaves(b: Buffer, from: int, to: int, linewise: bool)
    ensures var start, end := Clamp(Min(from, to), |b.value|), Clamp(Max(from, to), |b.value|);
      var r := DeleteRange(b, from, to, linewise);
      && start <= end && Replaced(b.value, start, end, "", r.value)
      && (if start == end then r == b
          else r.register == Register(b.value[start..end], linewise) && r.cursor == start && !r.selection.active)
  {
    var start, end := Clamp(Min(from, to), |b.value|), Clamp(Max(from, to), |b.value|);
    SpliceReplaces(b.value, start, end, "");
  }

  /** Where an insertion goes: over the selection when asked and there is one, else at the offset. */
  function Place(b: Buffer, offset: int, replaceSelection: bool): (p: (nat, nat))
    requires Inv(b)
    ensures p.0 <= p.1 <= |b.value|
  {
    var (start, end, ok) := Selected(b);
    SelectedInText(b);
    if replaceSelection && ok then (start, end) else (Clamp(offset, |b.value|), Clamp(offset, |b.value|))
  }

  /** An insertion puts the text there and the cursor behind it. */
  lemma InsertLeaves(b: Buffer, offset: int, text: string, replaceSelection: bool)
    requires Inv(b)
    ensures var (start, end) := Place(b, offset, replaceSelection);
      var r := InsertAt(b, offset, text, replaceSelection);
      && Replaced(b.value, start, end, text, r.value) && r.cursor == start + |text| && r.register == b.register
      && (r.selection == if start < end then NoSelection else b.selection)
  {
    SelectedInText(b);
    var (start, end) := Place(b, offset, replaceSelection);
    SpliceReplaces(b.value, start, end, text);
    SpliceTwice(b.value, start, end, text);
    hide Selected, Replaced, Splice;
  }

  lemma SpliceTwice(v: string, start: nat, end: nat, text: string)
    requires start <= end <= |v|
    ensures |Splice(v, start, end, "")| == start + |v| - end
    ensures Splice(Splice(v, start, end, ""), start, start, text) == Splice(v, start, end, text)
  {
    Parts(v[..start], "", v[end..]);
    assert v[..start] + "" == v[..start];
  }

  lemma ReplaceLeaves(b: Buffer, from: int, to: int, text: string)
    ensures var start, end := Clamp(Min(from, to), |b.value|), Clamp(Max(from, to), |b.value|);
      var r := ReplaceRange(b, from, to, text);
      && start <= end && Replaced(b.value, start, end, text, r.value)
      && r.cursor == start + |text| && r.register == b.register && !r.selection.active
  {
    var start, end := Clamp(Min(from, to), |b.value|), Clamp(Max(from, to), |b.value|);
    SpliceReplaces(b.value, start, end, text);
  }

  /** Putting the register back where it was deleted restores the text. */
  lemma DeleteThenPut(b: Buffer, from: int, to: int, linewise: bool)
    requires Inv(b) && Clamp(from, |b.value|) != Clamp(to, |b.value|)
    ensures var d := DeleteRange(b, from, to, linewise);
      Inv(d) && InsertAt(d, d.cursor, d.register.text, false).value == b.value
  {
    var start, end := Clamp(Min(from, to), |b.value|), Clamp(Max(from, to), |b.value|);
    ApplyKeepsInv(b, Delete(from, to, linewise));
    DeleteLeaves(b, from, to, linewise);
    ReplacedBack(b.value, start, end, "");
    var d := DeleteRange(b, from, to, linewise);
    assert d == Apply(b, Delete(from, to, linewise));
    assert d.value == Splice(b.value, start, end, "");
    hide Selected;
    assert InsertAt(d, start, d.register.text, false).value == Splice(d.value, start, start, d.register.text);
  }

  /** Deleting what was inserted restores the text, with the inserted text in the register. */
  lemma PutThenDelete(b: Buffer, offset: int, text: string, linewise: bool)
    requires Inv(b) && text != ""
    ensures var p := InsertAt(b, offset, text, false);
      var d := DeleteRange(p, p.cursor - |text|, p.cursor, linewise);
      d.value == b.value && d.register == Register(text, linewise)
  {
    var at := Clamp(offset, |b.value|);
    hide Selected;
    InsertLeaves(b, offset, text, false);
    ReplacedBack(b.value, at, at, text);
    var p := InsertAt(b, offset, text, false);
    assert p.value == Splice(b.value, at, at, text) && p.cursor - |text| == at;
    assert b.value[at..at] == "";
    DeleteLeaves(p, at, at + |text|, linewise);
    assert DeleteRange(p, at, at + |text|, linewise).value == Splice(p.value, at, at + |text|, "");
  }

  /** Replacing back restores the text. */
  lemma ReplaceBack(b: Buffer, from: int, to: int, text: string)
    ensures var start, end := Clamp(Min(from, to), |b.value|), Clamp(Max(from, to), |b.value|);
      start <= end
      && var r := ReplaceRange(b, from, to, text);
      ReplaceRange(r, start, r.cursor, b.value[start..end]).value == b.value
  {
    var start, end := Clamp(Min(from, to), |b.value|), Clamp(Max(from, to), |b.value|);
    ReplaceLeaves(b, from, to, text);
    ReplacedBack(b.value, start, end, text);
  }

  // ---------------------------------------------------------------- histories

  datatype Op =
    | Insert(offset: int, text: string, replaceSelection: bool)
    | Delete(from: int, to: int, linewise: bool)
    | Replace(from: int, to: int, text: string)
    | DeleteSelected
    | Undo
    | Motion(motion: Motion)
    | Find(direction: Direction, target: char)
    | SetCursor(offset: int)
    | BeginSelection(linewise: bool)
    | ToggleLinewise
    | ClearSelection
    | SwapAnchor
    | SelectAll
    | SetRegister(text: string, linewise: bool)
    | Sync(value: string, cursor: int)
    | ResetUndo

  function Apply(b: Buffer, op: Op): Buffer
    requires Inv(b)
  {
    match op
    case Insert(offset, text, replaceSelection) => InsertAt(b, offset, text, replaceSelection)
    case Delete(from, to, linewise) => DeleteRange(b, from, to, linewise)
    case Replace(from, to, text) => ReplaceRange(b, from, to, text)
    case DeleteSelected => DeleteSelection(b)
    case Undo => UndoEdit(b)
    case Motion(m) => Move(b, m)
    case Find(direction, target) => FindChar(b, direction, target)
    case SetCursor(offset) => At(b, offset)
    case BeginSelection(linewise) => b.(selection := Selection(true, Cursor(b), linewise))
    case ToggleLinewise => b.(selection := b.selection.(linewise := !b.selection.linewise))
    case ClearSelection => b.(selection := NoSelection)
    case SwapAnchor =>
      if !b.selection.active then b
      else At(b.(selection := b.selection.(anchor := Cursor(b))), b.selection.anchor)
    case SelectAll => At(b.(selection := Selection(true, 0, false)), |b.value|)
    case SetRegister(text, linewise) => b.(register := Register(text, linewise))
    case Sync(value, cursor) => SyncWith(b, value, cursor)
    case ResetUndo => b.(undo := [])
  }

  lemma ApplyKeepsInv(b: Buffer, op: Op)
    requires Inv(b)
    ensures Inv(Apply(b, op))
  {
    hide Target, LineStart, LineEnd, Found;
    SelectedInText(b);
    hide Selected;
  }

  function Run(b: Buffer, ops: seq<Op>): (r: Buffer)
    requires Inv(b)
    ensures Inv(r)
  {
    if ops == [] then b
    else
      var before := Run(b, ops[..|ops| - 1]);
      ApplyKeepsInv(before, ops[|ops| - 1]);
      Apply(before, ops[|ops| - 1])
  }

  /** The operation records an undo step. */
  predicate Records(b: Buffer, op: Op)
    requires Inv(b)
  {
    match op
    case Insert(_, _, _) => true
    case Replace(_, _, _) => true
    case Delete(from, to, _) => Clamp(from, |b.value|) != Clamp(to, |b.value|)
    case DeleteSelected => Selected(b).2
    case _ => false
  }

  /** Reference history: what was in the buffer before every edit not undone or forgotten since, however many there
      are. */
  function Edits(b: Buffer, ops: seq<Op>): seq<Snapshot>
    requires Inv(b)
  {
    if ops == [] then []
    else
      NextEdits(Run(b, ops[..|ops| - 1]), ops[|ops| - 1], Edits(b, ops[..|ops| - 1]))
  }

  function NextEdits(before: Buffer, op: Op, past: seq<Snapshot>): seq<Snapshot>
    requires Inv(before)
  {
    if Records(before, op) then past + [Snapshot(before.value, before.cursor)]
    else if op == Undo && before.undo != [] && past != [] then past[..|past| - 1]
    else if op == ResetUndo then []
    else past
  }

  /** `s` is the end of `t`. */
  predicate Suffix<T(==)>(s: seq<T>, t: seq<T>) { |s| <= |t| && t[|t| - |s|..] == s }

  lemma StepUndo(b: Buffer, op: Op)
    requires Inv(b)
    ensures var r := Apply(b, op);
            if Records(b, op) then r.undo == PushUndo(b).undo
            else if op == Undo && b.undo != [] then r.undo == b.undo[..|b.undo| - 1]
            else if op == ResetUndo then r.undo == []
            else r.undo == b.undo
  {
    hide Target, LineStart, LineEnd, Found;
    SelectedInText(b);
    hide Selected;
  }

  lemma PushSuffix(b: Buffer, past: seq<Snapshot>)
    requires Inv(b) && Suffix(b.undo, past)
    ensures Suffix(PushUndo(b).undo, past + [Snapshot(b.value, b.cursor)])
    ensures |PushUndo(b).undo| == Min(|b.undo| + 1, UNDO_LIMIT)
  {
  }

  lemma StepIsRecent(b: Buffer, op: Op, past: seq<Snapshot>)
    requires Inv(b) && Suffix(b.undo, past)
    ensures Suffix(Apply(b, op).undo, NextEdits(b, op, past))
    ensures op != Undo && |b.undo| == Min(|past|, UNDO_LIMIT)
      ==> |Apply(b, op).undo| == Min(|NextEdits(b, op, past)|, UNDO_LIMIT)
  {
    StepUndo(b, op);
    PushSuffix(b, past);
    PopSuffix(b.undo, past);
    hide Apply, Records, PushUndo, Suffix;
  }

  lemma PopSuffix<T>(s: seq<T>, t: seq<T>)
    requires Suffix(s, t)
    ensures s != [] ==> t != [] && Suffix(s[..|s| - 1], t[..|t| - 1])
  {
  }

  /** The undo history is always the most recent part of the reference history; without undos in between
      it is the last hundred edits, or all of them. */
  lemma {:induction false} UndoIsRecent(b: Buffer, ops: seq<Op>)
    requires Inv(b) && b.undo == []
    ensures Suffix(Run(b, ops).undo, Edits(b, ops))
    ensures Undo !in ops ==> |Run(b, ops).undo| == Min(|Edits(b, ops)|, UNDO_LIMIT)
  {
    hide Apply, NextEdits;
    if ops != [] {
      UndoIsRecent(b, ops[..|ops| - 1]);
      StepIsRecent(Run(b, ops[..|ops| - 1]), ops[|ops| - 1], Edits(b, ops[..|ops| - 1]));
    }
  }

  function UndoTimes(b: Buffer, k: nat): Buffer { if k == 0 then b else UndoEdit(UndoTimes(b, k - 1)) }

  lemma {:induction false} UndoTimesPops(b: Buffer, k: nat)
    requires k <= |b.undo|
    ensures UndoTimes(b, k).undo == b.undo[..|b.undo| - k]
    ensures k > 0 ==> UndoTimes(b, k).value == b.undo[|b.undo| - k].value
    ensures k > 0 ==> UndoTimes(b, k).cursor == b.undo[|b.undo| - k].cursor
  {
    if k > 0 {
      UndoTimesPops(b, k - 1);
      assert b.undo[..|b.undo| - (k - 1)][..|b.undo| - k] == b.undo[..|b.undo| - k];
    }
  }

  /** Undo inverts any history: k undos give back the text and the cursor from just before the k-th most
      recent edit, for every k up to the number of edits and the limit. */
  lemma UndoInverts(b: Buffer, ops: seq<Op>, k: nat)
    requires Inv(b) && b.undo == [] && Undo !in ops
    requires 1 <= k <= Min(|Edits(b, ops)|, UNDO_LIMIT)
    ensures var r, edits := UndoTimes(Run(b, ops), k), Edits(b, ops);
            r.value == edits[|edits| - k].value && r.cursor == edits[|edits| - k].cursor
  {
    hide Run, Apply, Edits;
    UndoIsRecent(b, ops);
    UndoTimesPops(Run(b, ops), k);
    var undo, edits := Run(b, ops).undo, Edits(b, ops);
    assert undo[|undo| - k] == edits[|edits| - |undo|..][|undo| - k];
  }

  /** With undos mixed in, the same holds for as many undos as the history still has. */
  lemma UndoInvertsMixed(b: Buffer, ops: seq<Op>, k: nat)
    requires Inv(b) && b.undo == [] && 1 <= k <= |Run(b, ops).undo|
    ensures var r, edits := UndoTimes(Run(b, ops), k), Edits(b, ops);
            |edits| >= k && r.value == edits[|edits| - k].value && r.cursor == edits[|edits| - k].cursor
  {
    hide Run, Apply, Edits;
    UndoIsRecent(b, ops);
    UndoTimesPops(Run(b, ops), k);
    var undo, edits := Run(b, ops).undo, Edits(b, ops);
    assert undo[|undo| - k] == edits[|edits| - |undo|..][|undo| - k];
  }

  // ---------------------------------------------------------------- vertical movement

  lemma {:induction false} LineStartUnique(v: string, s: nat, offset: nat)
    requires s <= offset <= |v| && (s == 0 || v[s - 1] == '\n')
    requires forall i :: s <= i < offset ==> v[i] != '\n'
    ensures LineStart(v, offset) == s
  {
    if s < offset { LineStartUnique(v, s, offset - 1); }
  }

  lemma {:induction false} LineEndUnique(v: string, offset: nat, e: nat)
    requires offset <= e <= |v| && (e == |v| || v[e] == '\n')
    requires forall i :: offset <= i < e ==> v[i] != '\n'
    ensures LineEnd(v, offset) == e
    decreases e - offset
  {
    if offset < e { LineEndUnique(v, offset + 1, e); }
  }

  /** Down and up again comes back exactly when the next line is long enough for the column. */
  lemma DownThenUp(v: string, p: nat)
    requires p <= |v| && LineEnd(v, p) < |v|
    ensures var next := LineEnd(v, p) + 1;
            (Vertical(v, Vertical(v, p, true), false) == p) <==> (p - LineStart(v, p) <= LineEnd(v, next) - next)
  {
    var start, e := LineStart(v, p), LineEnd(v, p);
    LineStartFacts(v, p);
    LineEndFacts(v, p);
    LineEndFacts(v, e + 1);
    hide LineStart, LineEnd;
    var next := e + 1;
    var q := Vertical(v, p, true);
    LineStartUnique(v, next, q);
    LineStartUnique(v, start, e);
    LineEndUnique(v, start, e);
  }

  // ---------------------------------------------------------------- the buffer in place

  class TextBuffer {
    var value: string
    var cursor: int
    var selection: Selection
    var register: Register
    var undo: seq<Snapshot>

    constructor (value: string)
      ensures View() == Buffer(value, 0, NoSelection, Register("", false), []) && Inv(View())
    {
      this.value, cursor, selection, register, undo := value, 0, NoSelection, Register("", false), [];
    }

    function View(): Buffer
      reads this
    {
      Buffer(value, cursor, selection, register, undo)
    }

    method SetCursor(offset: int)
      modifies this`cursor
      ensures View() == At(old(View()), offset)
    {
      cursor := Clamp(offset, |value|);
    }

    method LineBounds(offset: int) returns (start: nat, end: nat)
      ensures var at := Clamp(offset, |value|);
              start == LineStart(value, at) && end == LineEnd(value, at)
      ensures start <= end <= |value|
    {
      var at := Clamp(offset, |value|);
      start := at;
      while start > 0 && value[start - 1] != '\n'
        invariant start <= at && LineStart(value, start) == LineStart(value, at)
      {
        start := start - 1;
      }
      end := at;
      while end < |value| && value[end] != '\n'
        invariant at <= end <= |value| && LineEnd(value, end) == LineEnd(value, at)
      {
        end := end + 1;
      }
    }

    method MoveVertical(down: bool)
      requires Inv(View())
      modifies this`cursor
      ensures View() == Move(old(View()), if down then Down else Up)
    {
      hide LineStart, LineEnd;
      var position := Clamp(cursor, |value|);
      var start, currentEnd := LineBounds(position);
      var column := position - start;
      var target: int;
      if down {
        if currentEnd >= |value| { return; }
        target := currentEnd + 1;
        var _, targetEnd := LineBounds(target);
        target := Min(target + column, targetEnd);
      } else {
        if start == 0 { return; }
        var previousStart, _ := LineBounds(start - 1);
        var _, previousEnd := LineBounds(previousStart);
        target := Min(previousStart + column, previousEnd);
      }
      SetCursor(target);
    }

    method NextWord(position: nat) returns (p: int)
      requires position <= |value|
      ensures p == Min(SkipSpace(value, SkipWord(value, SkipSpace(value, position))), Max(|value| - 1, 0))
    {
      var a := position;
      while a < |value| && Space(value[a])
        invariant a <= |value| && SkipSpace(value, a) == SkipSpace(value, position)
      {
        a := a + 1;
      }
      var w := a;
      while w < |value| && !Space(value[w])
        invariant w <= |value| && SkipWord(value, w) == SkipWord(value, a)
      {
        w := w + 1;
      }
      var z := w;
      while z < |value| && Space(value[z])
        invariant z <= |value| && SkipSpace(value, z) == SkipSpace(value, w)
      {
        z := z + 1;
      }
      p := Min(z, Max(|value| - 1, 0));
    }

    method PreviousWordStart(position: nat) returns (p: nat)
      requires position <= |value|
      ensures p == PreviousWord(value, position)
    {
      var from := Min(Max(position - 1, 0), |value|);
      p := from;
      while p > 0 && Space(value[p])
        invariant p <= from && SpaceFront(value, p) == SpaceFront(value, from)
      {
        p := p - 1;
      }
      ghost var mid := p;
      while p > 0 && !Space(value[p - 1])
        invariant p <= mid && WordFront(value, p) == WordFront(value, mid)
      {
        p := p - 1;
      }
    }

    method EndWord(position: nat) returns (p: int)
      requires position <= |value|
      ensures p == Min(WordTail(value, SkipSpace(value, position)), Max(|value| - 1, 0))
    {
      var a := position;
      while a < |value| && Space(value[a])
        invariant a <= |value| && SkipSpace(value, a) == SkipSpace(value, position)
      {
        a := a + 1;
      }
      ghost var mid := a;
      while a + 1 < |value| && !Space(value[a + 1])
        invariant a <= |value| && WordTail(value, a) == WordTail(value, mid)
      {
        a := a + 1;
      }
      p := Min(a, Max(|value| - 1, 0));
    }

    method MoveBy(m: Motion)
      requires Inv(View())
      modifies this`cursor
      ensures View() == Move(old(View()), m)
    {
      var position: int := Clamp(cursor, |value|);
      match m {
        case Left => SetCursor(position - 1);
        case Right => if |value| > 0 { SetCursor(Min(position + 1, |value| - 1)); }
        case Down => MoveVertical(true);
        case Up => MoveVertical(false);
        case ToLineStart =>
          var start, _ := LineBounds(position);
          SetCursor(start);
        case ToLineEnd =>
          var start, end := LineBounds(position);
          SetCursor(if end > start then end - 1 else end);
        case FirstText =>
          var start, end := LineBounds(position);
          var at := start;
          while at < end && Space(value[at])
            invariant start <= at <= end && SkipBlank(value, at, end) == SkipBlank(value, start, end)
          {
            at := at + 1;
          }
          SetCursor(at);
        case WordForward =>
          var p := NextWord(position);
          SetCursor(p);
        case WordBackward =>
          var p := PreviousWordStart(position);
          SetCursor(p);
        case WordEnd =>
          var p := EndWord(position);
          SetCursor(p);
        case First => SetCursor(0);
        case Last => SetCursor(Max(|value| - 1, 0));
      }
    }

    method FindOnLine(direction: Direction, target: char) returns (found: bool)
      requires Inv(View())
      modifies this`cursor
      ensures View() == FindChar(old(View()), direction, target)
      ensures found <==> Found(old(value), old(cursor), direction, target) >= 0
    {
      var position := Clamp(cursor, |value|);
      found := false;
      if direction == Forward || direction == TillForward {
        var i := position + 1;
        while i < |value| && value[i] != '\n'
          invariant position < i && (position < |value| ==> i <= |value|) && View() == old(View())
          invariant position < |value| ==> FindAhead(value, i, target) == FindAhead(value, position + 1, target)
        {
          if value[i] == target {
            SetCursor(if direction == TillForward then i - 1 else i);
            return true;
          }
          i := i + 1;
        }
      } else {
        var i := position - 1;
        while i >= 0 && value[i] != '\n'
          invariant -1 <= i < position && View() == old(View())
          invariant FindBehind(value, i, target) == FindBehind(value, position - 1, target)
        {
          if value[i] == target {
            SetCursor(if direction == TillBackward then i + 1 else i);
            return true;
          }
          i := i - 1;
        }
      }
    }

    method SelectedRange() returns (start: int, end: int, ok: bool)
      requires Inv(View())
      ensures (start, end, ok) == Selected(View())
    {
      if !selection.active { return 0, 0, false; }
      var current := Clamp(cursor, |value|);
      if selection.linewise {
        var first, _ := LineBounds(selection.anchor);
        var other, _ := LineBounds(current);
        if other < first { first, other := other, first; }
        var _, stop := LineBounds(other);
        if stop < |value| { stop := stop + 1; }
        return first, stop, stop > first;
      }
      start, end := selection.anchor, current;
      if start > end { start, end := end, start; }
      end := Min(end + 1, |value|);
      ok := end > start;
    }

    method SaveUndo()
      modifies this`undo
      ensures View() == PushUndo(old(View()))
    {
      undo := undo + [Snapshot(value, Clamp(cursor, |value|))];
      if |undo| > UNDO_LIMIT { undo := undo[|undo| - UNDO_LIMIT..]; }
    }

    method Delete(from: int, to: int, linewise: bool) returns (text: string, changed: bool)
      modifies this
      ensures View() == DeleteRange(old(View()), from, to, linewise)
      ensures changed <==> Clamp(from, old(|value|)) != Clamp(to, old(|value|))
      ensures changed ==> register.text == text
    {
      var start, end := Clamp(from, |value|), Clamp(to, |value|);
      if start > end { start, end := end, start; }
      if start == end { return "", false; }
      SaveUndo();
      text, changed := value[start..end], true;
      register := Register(text, linewise);
      value := value[..start] + "" + value[end..];
      SetCursor(start);
      selection := NoSelection;
    }

    method DeleteSelected() returns (text: string, changed: bool)
      requires Inv(View())
      modifies this
      ensures View() == DeleteSelection(old(View()))
    {
      var start, end, ok := SelectedRange();
      if !ok {
        selection := NoSelection;
        return "", false;
      }
      text, changed := Delete(start, end, selection.linewise);
      selection := NoSelection;
    }

    method Insert(offset: int, text: string, replaceSelection: bool)
      requires Inv(View())
      modifies this
      ensures View() == InsertAt(old(View()), offset, text, replaceSelection)
    {
      var rest, at := value, offset;
      if replaceSelection {
        var start, end, ok := SelectedRange();
        SelectedInText(View());
        if ok {
          at := start;
          rest := rest[..start] + "" + rest[end..];
          selection := NoSelection;
        }
      }
      at := Clamp(at, |rest|);
      SaveUndo();
      value := rest[..at] + text + rest[at..];
      SetCursor(at + |text|);
    }

    method Replace(from: int, to: int, text: string)
      modifies this
      ensures View() == ReplaceRange(old(View()), from, to, text)
    {
      var start, end := Clamp(from, |value|), Clamp(to, |value|);
      if start > end { start, end := end, start; }
      SaveUndo();
      value := value[..start] + text + value[end..];
      SetCursor(start + |text|);
      selection := NoSelection;
    }

    method UndoLast() returns (undone: bool)
      modifies this
      ensures View() == UndoEdit(old(View()))
      ensures undone <==> old(undo) != []
    {
      if undo == [] { return false; }
      var snapshot := undo[|undo| - 1];
      undo := undo[..|undo| - 1];
      value, cursor, selection := snapshot.value, snapshot.cursor, NoSelection;
      return true;
    }

    method SyncFrom(value: string, cursor: int)
      modifies this
      ensures View() == SyncWith(old(View()), value, cursor)
    {
      var at := Clamp(cursor, |value|);
      if this.value == value && this.cursor == at { return; }
      this.value, this.cursor, selection := value, at, NoSelection;
    }

    method ForgetUndo()
      requires Inv(View())
      modifies this`undo
      ensures View() == Apply(old(View()), ResetUndo)
    {
      undo := [];
    }

    method SwapSelectionAnchor()
      requires Inv(View())
      modifies this`selection, this`cursor
      ensures View() == Apply(old(View()), SwapAnchor)
    {
      if !selection.active { return; }
      var current, anchor := Clamp(cursor, |value|), selection.anchor;
      selection := selection.(anchor := current);
      SetCursor(anchor);
    }

    method SelectEverything()
      requires Inv(View())
      modifies this`selection, this`cursor
      ensures View() == Apply(old(View()), SelectAll)
    {
      selection := Selection(true, 0, false);
      SetCursor(|value|);
    }
  }
}
