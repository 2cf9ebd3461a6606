/** JSON texts (RFC 8259, sections 2 to 7) as a datatype with all their white space, and their bytes. */
module Json {
  import opened Wrappers
  import opened Utf8

  /** Section 7: a character as itself, a two-character escape, or a \u escape. */
  datatype Piece = Plain(c: byte) | Escape(c: byte) | Unicode(h0: byte, h1: byte, h2: byte, h3: byte)

  datatype Value =
    | Token(token: bytes)                                  // a number, true, false or null
    | Text(pieces: seq<Piece>)
    | EmptyArray(blank: bytes)
    | Array(elements: Elements)
    | EmptyObject(blank: bytes)
    | Object(members: Members)

  datatype Elements = Element(item: Padded, more: Option<Elements>)
  datatype Members = Member(pad: bytes, name: seq<Piece>, colon: bytes, item: Padded, more: Option<Members>)
  datatype Padded = Padded(before: bytes, value: Value, after: bytes)

  const QUOTE: byte := 34
  const BACKSLASH: byte := 92
  const LBRACKET: byte := 91
  const RBRACKET: byte := 93
  const LBRACE: byte := 123
  const RBRACE: byte := 125
  const COMMA: byte := 44
  const COLON: byte := 58

  /** Section 2: insignificant white space. */
  predicate IsBlank(s: bytes) { forall i :: 0 <= i < |s| ==> s[i] in {32, 9, 10, 13} }

  predicate IsHex(b: byte) { 48 <= b <= 57 || 65 <= b <= 70 || 97 <= b <= 102 }

  predicate GoodPiece(p: Piece)
  {
    match p
    case Plain(c) => c >= 0x20 && c != QUOTE && c != BACKSLASH
    case Escape(c) => c in {QUOTE, BACKSLASH, 47, 98, 102, 110, 114, 116}
    case Unicode(a, b, c, d) => IsHex(a) && IsHex(b) && IsHex(c) && IsHex(d)
  }

  predicate GoodText(ps: seq<Piece>) { forall i :: 0 <= i < |ps| ==> GoodPiece(ps[i]) }

  /** Letters, digits, sign and point: every number and literal name is made of these. */
  predicate GoodToken(s: bytes)
  {
    s != [] && forall i :: 0 <= i < |s| ==>
      48 <= s[i] <= 57 || 65 <= s[i] <= 90 || 97 <= s[i] <= 122 || s[i] in {43, 45, 46}
  }

  predicate Good(v: Value)
  {
    match v
    case Token(t) => GoodToken(t)
    case Text(ps) => GoodText(ps)
    case EmptyArray(blank) => IsBlank(blank)
    case EmptyObject(blank) => IsBlank(blank)
    case Array(es) => GoodElements(es)
    case Object(ms) => GoodMembers(ms)
  }

  predicate GoodPadded(p: Padded) { IsBlank(p.before) && Good(p.value) && IsBlank(p.after) }

  predicate GoodElements(es: Elements)
  {
    GoodPadded(es.item) && (es.more.Some? ==> GoodElements(es.more.value))
  }

  predicate GoodMembers(ms: Members)
  {
    IsBlank(ms.pad) && GoodText(ms.name) && IsBlank(ms.colon) && GoodPadded(ms.item)
    && (ms.more.Some? ==> GoodMembers(ms.more.value))
  }

  function PrintPiece(p: Piece): bytes
  {
    match p
    case Plain(c) => [c]
    case Escape(c) => [BACKSLASH, c]
    case Unicode(a, b, c, d) => [BACKSLASH, 117, a, b, c, d]
  }

  function PrintPieces(ps: seq<Piece>): bytes
  {
    if ps == [] then [] else PrintPiece(ps[0]) + PrintPieces(ps[1..])
  }

  function PrintText(ps: seq<Piece>): bytes { [QUOTE] + PrintPieces(ps) + [QUOTE] }

  function Print(v: Value): bytes
  {
    match v
    case Token(t) => t
    case Text(ps) => PrintText(ps)
    case EmptyArray(blank) => [LBRACKET] + blank + [RBRACKET]
    case Array(es) => [LBRACKET] + PrintElements(es) + [RBRACKET]
    case EmptyObject(blank) => [LBRACE] + blank + [RBRACE]
    case Object(ms) => [LBRACE] + PrintMembers(ms) + [RBRACE]
  }

  function PrintPadded(p: Padded): bytes { p.before + Print(p.value) + p.after }

  function PrintElements(es: Elements): bytes
  {
    PrintPadded(es.item) + (match es.more case None => [] case Some(more) => [COMMA] + PrintElements(more))
  }

  function PrintMembers(ms: Members): bytes
  {
    ms.pad + PrintText(ms.name) + ms.colon + [COLON] + PrintPadded(ms.item)
    + (match ms.more case None => [] case Some(more) => [COMMA] + PrintMembers(more))
  }
}
