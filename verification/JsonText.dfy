/**
 * JSON texts as concrete syntax, in the shape agents emit them: the grammar of RFC 8259
 * plus the two dominant malformations, bare control characters inside string literals
 * and a trailing comma before a closing bracket. `Print` gives the text of a tree.
 */
module JsonText {

  /** One unit of a string literal's body. `Control` is not legal JSON. */
  datatype Piece = Plain(c: char) | Escape(c: char) | Unicode(hex: string) | Control(c: char)

  /** The insignificant whitespace of section 2 of RFC 8259. */
  predicate IsBlank(c: char) { c == ' ' || c == '\t' || c == '\n' || c == '\r' }

  predicate Blank(s: string) { forall c | c in s :: IsBlank(c) }

  predicate IsHexDigit(c: char) { '0' <= c <= '9' || 'a' <= c <= 'f' || 'A' <= c <= 'F' }

  predicate IsControl(c: char) { c < ' ' }

  predicate WellFormedPiece(p: Piece) {
    match p
    case Plain(c) => !IsControl(c) && c != '"' && c != '\\'
    case Escape(c) => c in "\"\\/bfnrt"
    case Unicode(hex) => |hex| == 4 && forall c | c in hex :: IsHexDigit(c)
    case Control(c) => IsControl(c)
  }

  /** The characters numbers and literal names are made of. */
  predicate IsTokenChar(c: char) {
    '0' <= c <= '9' || 'a' <= c <= 'z' || 'A' <= c <= 'Z' || c in "+-."
  }

  /**
   * A value with the whitespace around it. `Token` is a number or a literal name; `trailing`
   * marks an illegal comma after the last element.
   */
  datatype Json =
    | Token(text: string)
    | Text(pieces: seq<Piece>)
    | Array(items: Items, trailing: bool, tail: string)
    | Object(members: Members, trailing: bool, tail: string)

  datatype Items = NoItems | Item(lead: string, value: Json, after: string, rest: Items)

  datatype Members =
    | NoMembers
    | Member(lead: string, key: seq<Piece>, beforeColon: string, afterColon: string, value: Json, after: string, rest: Members)

  predicate WellFormed(v: Json) {
    match v
    case Token(text) => text != "" && forall c | c in text :: IsTokenChar(c)
    case Text(pieces) => forall p | p in pieces :: WellFormedPiece(p)
    case Array(items, trailing, tail) => WellFormedItems(items) && Blank(tail) && (trailing ==> items.Item?)
    case Object(members, trailing, tail) => WellFormedMembers(members) && Blank(tail) && (trailing ==> members.Member?)
  }

  predicate WellFormedItems(items: Items) {
    match items
    case NoItems => true
    case Item(lead, value, after, rest) => Blank(lead) && Blank(after) && WellFormed(value) && WellFormedItems(rest)
  }

  predicate WellFormedMembers(members: Members) {
    match members
    case NoMembers => true
    case Member(lead, key, beforeColon, afterColon, value, after, rest) =>
      Blank(lead) && Blank(beforeColon) && Blank(afterColon) && Blank(after)
      && (forall p | p in key :: WellFormedPiece(p)) && WellFormed(value) && WellFormedMembers(rest)
  }

  // ---------------------------------------------------------------- printing

  function PrintPiece(p: Piece): string {
    match p
    case Plain(c) => [c]
    case Escape(c) => ['\\', c]
    case Unicode(hex) => "\\u" + hex
    case Control(c) => [c]
  }

  function PrintPieces(ps: seq<Piece>): string {
    if ps == [] then "" else PrintPiece(ps[0]) + PrintPieces(ps[1..])
  }

  function PrintText(ps: seq<Piece>): string { "\"" + PrintPieces(ps) + "\"" }

  /** The end of a container: an illegal comma if there is one, whitespace, the bracket. */
  function Ending(trailing: bool, tail: string, close: char): string {
    (if trailing then "," else "") + (tail + [close])
  }

  /** What follows an element: whitespace, and a comma if another element comes. */
  function Separator(after: string, more: bool): string {
    after + (if more then "," else "")
  }

  function Colon(before: string, after: string): string { before + (":" + after) }

  function Print(v: Json): string {
    match v
    case Token(text) => text
    case Text(pieces) => PrintText(pieces)
    case Array(items, trailing, tail) => "[" + (PrintItems(items) + Ending(trailing, tail, ']'))
    case Object(members, trailing, tail) => "{" + (PrintMembers(members) + Ending(trailing, tail, '}'))
  }

  function PrintItems(items: Items): string {
    match items
    case NoItems => ""
    case Item(lead, value, after, rest) =>
      lead + (Print(value) + (Separator(after, rest.Item?) + PrintItems(rest)))
  }

  function PrintMembers(members: Members): string {
    match members
    case NoMembers => ""
    case Member(lead, key, beforeColon, afterColon, value, after, rest) =>
      lead + (PrintText(key) + (Colon(beforeColon, afterColon)
        + (Print(value) + (Separator(after, rest.Member?) + PrintMembers(rest)))))
  }

  // ---------------------------------------------------------------- legality and repair on trees

  predicate StrictPieces(ps: seq<Piece>) { forall p | p in ps :: !p.Control? }

  /** Neither malformation occurs anywhere: the text is legal JSON. */
  predicate Strict(v: Json) {
    match v
    case Token(_) => true
    case Text(pieces) => StrictPieces(pieces)
    case Array(items, trailing, _) => !trailing && StrictItems(items)
    case Object(members, trailing, _) => !trailing && StrictMembers(members)
  }

  predicate StrictItems(items: Items) {
    items.NoItems? || (Strict(items.value) && StrictItems(items.rest))
  }

  predicate StrictMembers(members: Members) {
    members.NoMembers? || (StrictPieces(members.key) && Strict(members.value) && StrictMembers(members.rest))
  }

  function HexDigit(n: nat): char
    requires n < 16
  {
    if n < 10 then '0' + n as char else 'a' + (n - 10) as char
  }

  /** The escape that stands for a control character. */
  function CleanPiece(p: Piece): Piece {
    match p
    case Control(c) =>
      if c == '\n' then Escape('n')
      else if c == '\r' then Escape('r')
      else if c == '\t' then Escape('t')
      else if IsControl(c) then Unicode("00" + [HexDigit(c as nat / 16), HexDigit(c as nat % 16)])
      else p
    case _ => p
  }

  function CleanPieces(ps: seq<Piece>): (r: seq<Piece>)
    ensures |r| == |ps| && forall i | 0 <= i < |ps| :: r[i] == CleanPiece(ps[i])
  {
    seq(|ps|, i requires 0 <= i < |ps| => CleanPiece(ps[i]))
  }

  /** The same value without either malformation. */
  function Clean(v: Json): Json {
    match v
    case Token(_) => v
    case Text(pieces) => Text(CleanPieces(pieces))
    case Array(items, _, tail) => Array(CleanItems(items), false, tail)
    case Object(members, _, tail) => Object(CleanMembers(members), false, tail)
  }

  function CleanItems(items: Items): Items {
    match items
    case NoItems => NoItems
    case Item(lead, value, after, rest) => Item(lead, Clean(value), after, CleanItems(rest))
  }

  function CleanMembers(members: Members): Members {
    match members
    case NoMembers => NoMembers
    case Member(lead, key, beforeColon, afterColon, value, after, rest) =>
      Member(lead, CleanPieces(key), beforeColon, afterColon, Clean(value), after, CleanMembers(rest))
  }

  lemma CleanPieceIsLegal(p: Piece)
    requires WellFormedPiece(p)
    ensures WellFormedPiece(CleanPiece(p)) && !CleanPiece(p).Control?
    ensures !p.Control? ==> CleanPiece(p) == p
  {
    if p.Control? && CleanPiece(p).Unicode? {
      assert forall c | c in CleanPiece(p).hex :: IsHexDigit(c);
    }
  }

  lemma CleanPiecesAreLegal(ps: seq<Piece>)
    requires forall p | p in ps :: WellFormedPiece(p)
    ensures StrictPieces(CleanPieces(ps)) && forall p | p in CleanPieces(ps) :: WellFormedPiece(p)
    ensures StrictPieces(ps) ==> CleanPieces(ps) == ps
  {
    forall i | 0 <= i < |ps|
      ensures WellFormedPiece(CleanPieces(ps)[i]) && !CleanPieces(ps)[i].Control?
      ensures !ps[i].Control? ==> CleanPieces(ps)[i] == ps[i]
    {
      CleanPieceIsLegal(ps[i]);
    }
  }

  /** Cleaning yields legal JSON and leaves legal JSON alone. */
  lemma {:induction false} CleanIsLegal(v: Json)
    requires WellFormed(v)
    ensures WellFormed(Clean(v)) && Strict(Clean(v))
    ensures Strict(v) ==> Clean(v) == v
  {
    match v
    case Token(_) =>
    case Text(pieces) => CleanPiecesAreLegal(pieces);
    case Array(items, _, _) => CleanItemsAreLegal(items);
    case Object(members, _, _) => CleanMembersAreLegal(members);
  }

  lemma {:induction false} CleanItemsAreLegal(items: Items)
    requires WellFormedItems(items)
    ensures WellFormedItems(CleanItems(items)) && StrictItems(CleanItems(items))
    ensures StrictItems(items) ==> CleanItems(items) == items
  {
    if items.Item? {
      CleanIsLegal(items.value);
      CleanItemsAreLegal(items.rest);
    }
  }

  lemma {:induction false} CleanMembersAreLegal(members: Members)
    requires WellFormedMembers(members)
    ensures WellFormedMembers(CleanMembers(members)) && StrictMembers(CleanMembers(members))
    ensures StrictMembers(members) ==> CleanMembers(members) == members
  {
    if members.Member? {
      CleanPiecesAreLegal(members.key);
      CleanIsLegal(members.value);
      CleanMembersAreLegal(members.rest);
    }
  }

  // ---------------------------------------------------------------- what a text says

  function DigitValue(c: char): nat
    requires IsHexDigit(c)
  {
    if '0' <= c <= '9' then (c - '0') as nat
    else if 'a' <= c <= 'f' then (c - 'a') as nat + 10
    else (c - 'A') as nat + 10
  }

  function HexValue(hex: string): nat
    requires forall c | c in hex :: IsHexDigit(c)
  {
    if hex == "" then 0 else 16 * HexValue(hex[..|hex| - 1]) + DigitValue(hex[|hex| - 1])
  }

  /** The character code a reader takes a unit for, as section 7 of RFC 8259 has it; a bare control is taken for itself. */
  function Spelled(p: Piece): nat
    requires WellFormedPiece(p)
  {
    match p
    case Plain(c) => c as nat
    case Control(c) => c as nat
    case Unicode(hex) => HexValue(hex)
    case Escape(c) =>
      if c == 'b' then 8 else if c == 't' then 9 else if c == 'n' then 10
      else if c == 'f' then 12 else if c == 'r' then 13 else c as nat
  }

  function SpelledAll(ps: seq<Piece>): (r: seq<nat>)
    requires forall p | p in ps :: WellFormedPiece(p)
    ensures |r| == |ps| && forall i | 0 <= i < |ps| :: r[i] == Spelled(ps[i])
  {
    seq(|ps|, i requires 0 <= i < |ps| => Spelled(ps[i]))
  }

  /** What a reader makes of a text: no whitespace, no spelling, no stray comma. */
  datatype Value = Atom(text: string) | Str(codes: seq<nat>) | List(values: seq<Value>) | Dict(entries: seq<(seq<nat>, Value)>)

  function ValueOf(v: Json): Value
    requires WellFormed(v)
  {
    match v
    case Token(text) => Atom(text)
    case Text(pieces) => Str(SpelledAll(pieces))
    case Array(items, _, _) => List(ValuesOf(items))
    case Object(members, _, _) => Dict(EntriesOf(members))
  }

  function ValuesOf(items: Items): seq<Value>
    requires WellFormedItems(items)
  {
    if items.NoItems? then [] else [ValueOf(items.value)] + ValuesOf(items.rest)
  }

  function EntriesOf(members: Members): seq<(seq<nat>, Value)>
    requires WellFormedMembers(members)
  {
    if members.NoMembers? then [] else [(SpelledAll(members.key), ValueOf(members.value))] + EntriesOf(members.rest)
  }

  lemma TwoDigits(n: nat)
    requires n < 32
    ensures var hex := "00" + [HexDigit(n / 16), HexDigit(n % 16)];
            (forall c | c in hex :: IsHexDigit(c)) && HexValue(hex) == n
  {
    var hi, lo := HexDigit(n / 16), HexDigit(n % 16);
    var hex := "00" + [hi, lo];
    assert DigitValue(hi) == n / 16 && DigitValue(lo) == n % 16 && DigitValue('0') == 0;
    assert HexValue("") == 0;
    assert hex[..3] == "00" + [hi] && hex[..3][..2] == "00" && "00"[..1] == "0" && "0"[..0] == "";
    assert HexValue("0") == 0 && HexValue("00") == 0 && HexValue(hex[..3]) == n / 16;
  }

  lemma CleanPieceSaysTheSame(p: Piece)
    requires WellFormedPiece(p)
    ensures WellFormedPiece(CleanPiece(p)) && Spelled(CleanPiece(p)) == Spelled(p)
  {
    CleanPieceIsLegal(p);
    if p.Control? {
      TwoDigits(p.c as nat);
    }
  }

  lemma CleanPiecesSayTheSame(ps: seq<Piece>)
    requires forall p | p in ps :: WellFormedPiece(p)
    ensures (forall p | p in CleanPieces(ps) :: WellFormedPiece(p)) && SpelledAll(CleanPieces(ps)) == SpelledAll(ps)
  {
    CleanPiecesAreLegal(ps);
    forall i | 0 <= i < |ps|
      ensures Spelled(CleanPieces(ps)[i]) == Spelled(ps[i])
    {
      CleanPieceSaysTheSame(ps[i]);
    }
  }

  /** Cleaning changes nothing a reader makes of the text: every string, key, element and their order stand. */
  lemma {:induction false} CleanSaysTheSame(v: Json)
    requires WellFormed(v)
    ensures WellFormed(Clean(v)) && ValueOf(Clean(v)) == ValueOf(v)
  {
    CleanIsLegal(v);
    match v
    case Token(_) =>
    case Text(pieces) => CleanPiecesSayTheSame(pieces);
    case Array(items, _, _) => CleanItemsSayTheSame(items);
    case Object(members, _, _) => CleanMembersSayTheSame(members);
  }

  lemma {:induction false} CleanItemsSayTheSame(items: Items)
    requires WellFormedItems(items)
    ensures WellFormedItems(CleanItems(items)) && ValuesOf(CleanItems(items)) == ValuesOf(items)
  {
    CleanItemsAreLegal(items);
    if items.Item? {
      CleanSaysTheSame(items.value);
      CleanItemsSayTheSame(items.rest);
    }
  }

  lemma {:induction false} CleanMembersSayTheSame(members: Members)
    requires WellFormedMembers(members)
    ensures WellFormedMembers(CleanMembers(members)) && EntriesOf(CleanMembers(members)) == EntriesOf(members)
  {
    CleanMembersAreLegal(members);
    if members.Member? {
      CleanPiecesSayTheSame(members.key);
      CleanSaysTheSame(members.value);
      CleanMembersSayTheSame(members.rest);
    }
  }
}
