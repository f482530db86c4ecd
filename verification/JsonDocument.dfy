/** JSON documents with their layout, and what parsing a printed document yields. */
module JsonDocument {
  import opened CText
  import opened JsonLexer
  import opened JsonTokens
  import opened JsonMachine

  /** White space and line comments between tokens. */
  datatype Gap = NoGap | Blank(c: char, rest: Gap) | Comment(body: string, eol: char, rest: Gap)

  datatype Literal = LString(raw: string) | LTrue | LFalse | LNull | LNumber(n: Numeral)

  datatype Json = Lit(l: Literal) | Object(members: Members) | Array(items: Items)

  /** What follows '{' or a comma in an object; NoMember after a comma is a trailing comma. */
  datatype Members =
    | NoMember(gap: Gap)
    | Member(before: Gap, name: string, beforeColon: Gap, beforeValue: Gap, value: Json, after: Gap, more: MoreMembers)
  datatype MoreMembers = EndMembers | NextMember(members: Members)

  datatype Items = NoItem(gap: Gap) | Item(before: Gap, value: Json, after: Gap, more: MoreItems)
  datatype MoreItems = EndItems | NextItem(items: Items)

  /** The end is empty, or a comment that no line end follows. */
  datatype Document = Document(lead: Gap, root: Json, trail: Gap, end: string)

  predicate IsEol(c: char) {
    c == '\r' || c == '\n'
  }

  /** What a gap may hold besides comments: white space, and also a backspace where a
      member may begin and a backslash where an item may. */
  predicate IsFiller(p: Phase, c: char) {
    || c == ' ' || c == '\t' || c == '\r' || c == '\n'
    || (p == InObject && c == '\U{8}') || (p == InArray && c == '\\')
  }

  predicate ValidGap(g: Gap, p: Phase) {
    match g
    case NoGap => true
    case Blank(c, rest) => IsFiller(p, c) && ValidGap(rest, p)
    case Comment(body, eol, rest) => NoEol(body) && IsEol(eol) && ValidGap(rest, p)
  }

  predicate NoEol(body: string) {
    forall k :: 0 <= k < |body| ==> !IsEol(body[k])
  }

  /** A comment at the very end of the text. */
  predicate ValidEnd(end: string) {
    end == "" || (|end| >= 2 && end[..2] == "//" && NoEol(end[2..]))
  }

  function NumeralValue(n: Numeral): int {
    if n.sign == "-" then 0 - DecimalValue(n.digits, 0) else DecimalValue(n.digits, 0)
  }

  predicate ValidLiteral(l: Literal, inArray: bool) {
    match l
    case LString(raw) => EscapedText(raw, false)
    case LNumber(n) =>
      && ValidNumeral(n) && (n.sign == "+" ==> inArray) && |PrintNumeral(n)| < 32
      && (!IsDouble(n) ==> FitsLongLong(NumeralValue(n)))
    case _ => true
  }

  predicate ValidJson(v: Json, inArray: bool) {
    match v
    case Lit(l) => ValidLiteral(l, inArray)
    case Object(members) => ValidMembers(members)
    case Array(items) => ValidItems(items)
  }

  predicate ValidMembers(m: Members) {
    match m
    case NoMember(gap) => ValidGap(gap, InObject)
    case Member(before, name, beforeColon, beforeValue, value, after, more) =>
      && ValidGap(before, InObject) && EscapedText(name, true) && ValidGap(beforeColon, FindColon)
      && ValidGap(beforeValue, FindValue) && ValidJson(value, false) && ValidGap(after, FindComma)
      && (more.NextMember? ==> ValidMembers(more.members))
  }

  predicate ValidItems(m: Items) {
    match m
    case NoItem(gap) => ValidGap(gap, InArray)
    case Item(before, value, after, more) =>
      && ValidGap(before, InArray) && ValidJson(value, true) && ValidGap(after, FindComma)
      && (more.NextItem? ==> ValidItems(more.items))
  }

  predicate ValidDocument(d: Document) {
    && ValidGap(d.lead, ParseBegin) && !d.root.Lit? && ValidJson(d.root, false)
    && ValidGap(d.trail, FindComma) && ValidEnd(d.end)
  }

  function PrintGap(g: Gap): string {
    match g
    case NoGap => ""
    case Blank(c, rest) => [c] + PrintGap(rest)
    case Comment(body, eol, rest) => "//" + (body + ([eol] + PrintGap(rest)))
  }

  function Quoted(raw: string): string {
    "\"" + (raw + "\"")
  }

  function PrintLiteral(l: Literal): string {
    match l
    case LString(raw) => Quoted(raw)
    case LTrue => "true"
    case LFalse => "false"
    case LNull => "null"
    case LNumber(n) => PrintNumeral(n)
  }

  function Print(v: Json): string {
    match v
    case Lit(l) => PrintLiteral(l)
    case Object(members) => "{" + (PrintMembers(members) + "}")
    case Array(items) => "[" + (PrintItems(items) + "]")
  }

  function PrintMembers(m: Members): string {
    match m
    case NoMember(gap) => PrintGap(gap)
    case Member(before, name, beforeColon, beforeValue, value, after, more) =>
      PrintGap(before) + (Quoted(name) + (PrintGap(beforeColon) + (":" + (PrintGap(beforeValue)
      + (Print(value) + (PrintGap(after)
      + match more case EndMembers => "" case NextMember(rest) => "," + PrintMembers(rest)))))))
  }

  function PrintItems(m: Items): string {
    match m
    case NoItem(gap) => PrintGap(gap)
    case Item(before, value, after, more) =>
      PrintGap(before) + (Print(value) + (PrintGap(after)
      + match more case EndItems => "" case NextItem(rest) => "," + PrintItems(rest)))
  }

  function PrintDocument(d: Document): string {
    PrintGap(d.lead) + (Print(d.root) + (PrintGap(d.trail) + d.end))
  }

  function LiteralValue(l: Literal): Value {
    match l
    case LString(raw) => Str(raw)
    case LTrue => Bool(true)
    case LFalse => Bool(false)
    case LNull => Null
    case LNumber(n) => if IsDouble(n) then Double(PrintNumeral(n)) else Integer(ToInt32(NumeralValue(n)))
  }

  /** The leaves of a value, depth first, each with its full path. */
  function Leaves(v: Json, path: seq<PathElement>): seq<Event> {
    match v
    case Lit(l) => [Event(path, LiteralValue(l))]
    case Object(members) => MemberLeaves(members, path)
    case Array(items) => ItemLeaves(items, path, 0)
  }

  function MemberLeaves(m: Members, path: seq<PathElement>): seq<Event> {
    match m
    case NoMember(_) => []
    case Member(_, name, _, _, value, _, more) =>
      Leaves(value, path + [Name(name)])
      + match more case EndMembers => [] case NextMember(rest) => MemberLeaves(rest, path)
  }

  function ItemLeaves(m: Items, path: seq<PathElement>, k: nat): seq<Event> {
    match m
    case NoItem(_) => []
    case Item(_, value, _, more) =>
      Leaves(value, path + [Index(k)])
      + match more case EndItems => [] case NextItem(rest) => ItemLeaves(rest, path, k + 1)
  }

  /** Path slots a part of a document needs above the ones in use: one for each
      nested container, and one for a comment. */
  function GapSlots(g: Gap): (n: nat)
    ensures n <= 1
  {
    match g
    case NoGap => 0
    case Blank(_, rest) => GapSlots(rest)
    case Comment(_, _, _) => 1
  }

  function Slots(v: Json): nat {
    match v
    case Lit(_) => 0
    case Object(members) => 1 + MemberSlots(members)
    case Array(items) => 1 + ItemSlots(items)
  }

  function MemberSlots(m: Members): nat {
    match m
    case NoMember(gap) => GapSlots(gap)
    case Member(before, _, beforeColon, beforeValue, value, after, more) =>
      Max(Max(Max(GapSlots(before), Max(GapSlots(beforeColon), GapSlots(beforeValue))),
              Max(Slots(value), GapSlots(after))),
          match more case EndMembers => 0 case NextMember(rest) => MemberSlots(rest))
  }

  function ItemSlots(m: Items): nat {
    match m
    case NoItem(gap) => GapSlots(gap)
    case Item(before, value, after, more) =>
      Max(Max(GapSlots(before), Max(Slots(value), GapSlots(after))),
          match more case EndItems => 0 case NextItem(rest) => ItemSlots(rest))
  }

  /** The brace of a non-empty root object without trailing comma leaves its slot in use. */
  predicate KeepsRootSlot(m: Members) {
    m.Member? && match m.more case EndMembers => true case NextMember(rest) => KeepsRootSlot(rest)
  }

  function DocumentSlots(d: Document): nat {
    Max(1 + GapSlots(d.lead),
        Max(Slots(d.root),
            (if d.root.Object? && KeepsRootSlot(d.root.members) then 1 else 0)
            + Max(GapSlots(d.trail), if d.end == "" then 0 else 1)))
  }
}
