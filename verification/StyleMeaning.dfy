/**
  What a style object means: which value each side ends up with, in either
  direction. A literal makes an object the way JavaScript does; its entries are
  ordered, the last one for a side wins, physical and logical declarations of
  the same side compete (section 4 of CSS Logical Properties and Values Level
  1), and shorthands expand.
 */
module StyleMeaning {
  import opened Wrappers
  import opened StyleTree

  datatype Direction = Ltr | Rtl

  datatype Edge = TopEdge | RightEdge | BottomEdge | LeftEdge

  /** A place of the computed style. Radius families only use the left and right edges, for the two corners. */
  datatype Slot = At(family: Family, edge: Edge) | Keyword(aligning: Aligning) | Plain(name: string)

  /** The text given to a place, or the component of a border shorthand that belongs there. */
  datatype Content = Whole(text: string) | Component(text: string)

  function SideOf(line: Line, dir: Direction): Side {
    if (line == Start) == (dir == Ltr) then Left else Right
  }

  function EdgeOf(side: Side): Edge {
    if side == Left then LeftEdge else RightEdge
  }

  predicate Sideways(edge: Edge) {
    edge == LeftEdge || edge == RightEdge
  }

  /** Whether declarations of `family` set places of `member`. */
  predicate Covers(family: Family, member: Family) {
    if family == Border then member == BorderWidth || member == BorderStyle || member == BorderColor
    else member == family
  }

  function PartOf(family: Family, text: string): Content {
    if family == Border then Component(text) else Whole(text)
  }

  /** The blank-separated words of a text. */
  function Words(text: string): seq<string> {
    WordsFrom(text, "")
  }

  function WordsFrom(text: string, word: string): seq<string> {
    if text == "" then (if word == "" then [] else [word])
    else if text[0] == ' ' then (if word == "" then [] else [word]) + WordsFrom(text[1..], "")
    else WordsFrom(text[1..], word + [text[0]])
  }

  /** One to four values: top, right, bottom, left, with the usual omissions. */
  function BoxWord(words: seq<string>, edge: Edge): string
    requires 1 <= |words| <= 4
  {
    match edge
    case TopEdge => words[0]
    case RightEdge => if |words| == 1 then words[0] else words[1]
    case BottomEdge => if |words| <= 2 then words[0] else words[2]
    case LeftEdge => if |words| == 1 then words[0] else if |words| == 4 then words[3] else words[1]
  }

  /** One to four radii: top left, top right, bottom right, bottom left, with the usual omissions. */
  function CornerWord(words: seq<string>, top: bool, edge: Edge): string
    requires 1 <= |words| <= 4
  {
    if |words| == 1 then words[0]
    else if top && edge == LeftEdge then words[0]
    else if top then words[1]
    else if edge == RightEdge then (if |words| == 2 then words[0] else words[2])
    else if |words| == 4 then words[3] else words[1]
  }

  function StartWord(k: Aligning): string {
    if k == TextAlign then "start" else "inline-start"
  }

  function EndWord(k: Aligning): string {
    if k == TextAlign then "end" else "inline-end"
  }

  function ResolveKeyword(k: Aligning, text: string, dir: Direction): string {
    if text == StartWord(k) then (if dir == Ltr then "left" else "right")
    else if text == EndWord(k) then (if dir == Ltr then "right" else "left")
    else text
  }

  /**
    What the declaration `name: text` writes to a place, if anything. A
    shorthand with a wrong number of words is void.
   */
  function Written(name: Name, text: string, dir: Direction, slot: Slot): Option<Content> {
    match name
    case Physical(f, side) =>
      if slot.At? && Covers(f, slot.family) && slot.edge == EdgeOf(side) then Some(PartOf(f, text)) else None
    case Logical(f, line) =>
      if slot.At? && Covers(f, slot.family) && slot.edge == EdgeOf(SideOf(line, dir)) then Some(PartOf(f, text))
      else None
    case Inline(f) =>
      if !slot.At? || !Covers(f, slot.family) || !Sideways(slot.edge) || !Effective(name, text) then None
      else if f == Border then Some(Component(text))
      else if slot.edge == EdgeOf(SideOf(Start, dir)) then Some(Whole(Words(text)[0]))
      else Some(Whole(Words(text)[|Words(text)| - 1]))
    case Box(f) =>
      if !slot.At? || !Covers(f, slot.family) || !Effective(name, text) then None
      else if f == Border then Some(Component(text))
      else Some(Whole(BoxWord(Words(text), slot.edge)))
    case Vertical(f, top) =>
      if slot.At? && Covers(f, slot.family) && slot.edge == (if top then TopEdge else BottomEdge)
      then Some(PartOf(f, text)) else None
    case Corners =>
      if !slot.At? || !(slot.family == TopRadius || slot.family == BottomRadius) || !Sideways(slot.edge)
         || !Effective(name, text) then None
      else Some(Whole(CornerWord(Words(text), slot.family == TopRadius, slot.edge)))
    case Align(k) => if slot == Keyword(k) then Some(Whole(ResolveKeyword(k, text, dir))) else None
    case Other(n) => if slot == Plain(n) then Some(Whole(text)) else None
  }

  /** A declaration is void only when a shorthand has too few or too many words. */
  predicate Effective(name: Name, text: string) {
    match name
    case Inline(f) => f != Border ==> 1 <= |Words(text)| <= 2
    case Box(f) => f != Border ==> 1 <= |Words(text)| <= 4
    case Corners => 1 <= |Words(text)| <= 4
    case _ => true
  }

  lemma EffectiveIffWritesSomething(name: Name, text: string)
    ensures Effective(name, text) <==> exists slot :: Written(name, text, Ltr, slot).Some?
  {
    if Effective(name, text) {
      var member := (f: Family) => if f == Border then BorderWidth else f;
      var slot := match name
        case Physical(f, side) => At(member(f), EdgeOf(side))
        case Logical(f, line) => At(member(f), EdgeOf(SideOf(line, Ltr)))
        case Inline(f) => At(member(f), LeftEdge)
        case Box(f) => At(member(f), LeftEdge)
        case Vertical(f, top) => At(member(f), if top then TopEdge else BottomEdge)
        case Corners => At(TopRadius, LeftEdge)
        case Align(k) => Keyword(k)
        case Other(n) => Plain(n);
      assert Written(name, text, Ltr, slot).Some?;
    }
  }

  // ---- from a tree to its objects

  predicate StaticKey(key: Key) {
    match key
    case Identifier(_, computed) => !computed
    case Literal(_) => true
    case Dynamic => false
  }

  predicate StaticItem(item: Item)
    decreases item
  {
    (item.Property? ==> StaticKey(item.key))
    && (item.value.Block? ==> StaticKeys(item.value.items))
  }

  /** Every key is written out, so a name is the name it seems to be. */
  predicate StaticKeys(items: seq<Item>)
    decreases items
  {
    items == [] || (StaticItem(items[0]) && StaticKeys(items[1..]))
  }

  /** A key that an object literal puts into its object. */
  datatype Put = Put(name: Name, value: Value)

  predicate StaticPut(put: Put) {
    put.value.Block? ==> StaticKeys(put.value.items)
  }

  predicate StaticPuts(puts: seq<Put>) {
    forall p :: p in puts ==> StaticPut(p)
  }

  function PutsOf(item: Item): (puts: seq<Put>)
    requires StaticItem(item)
    ensures StaticPuts(puts)
    decreases item
  {
    match item
    case Property(key, value) => [Put(key.name, value)]
    case Spread(value) => if value.Block? then Puts(value.items) else []
  }

  /** What a literal puts, in order; a literal that is spread puts its own keys where it stands. */
  function Puts(items: seq<Item>): (puts: seq<Put>)
    requires StaticKeys(items)
    ensures StaticPuts(puts)
    decreases items
  {
    if items == [] then [] else PutsOf(items[0]) + Puts(items[1..])
  }

  /** Keys compared by the names they have, or by those the rule asks for. */
  datatype Naming = AsWritten | OnceFixed

  function Called(name: Name, naming: Naming): Name {
    if naming == AsWritten then name else Replacement(name).GetOr(name)
  }

  /** JavaScript's way with a key that is there already: it keeps its position and gets the new value. */
  function Assign(entries: seq<Put>, put: Put, naming: Naming): (r: seq<Put>)
    ensures forall p :: p in r ==> p in entries || p == put
  {
    if entries == [] then [put]
    else if Called(entries[0].name, naming) == Called(put.name, naming) then [put] + entries[1..]
    else [entries[0]] + Assign(entries[1..], put, naming)
  }

  /** The entries of the object that a literal makes. */
  function Entries(puts: seq<Put>, naming: Naming): (r: seq<Put>)
    ensures forall p :: p in r ==> p in puts
  {
    if puts == [] then []
    else Assign(Entries(puts[..|puts| - 1], naming), puts[|puts| - 1], naming)
  }

  function Lookup(entries: seq<Put>, name: Name, naming: Naming): (r: Option<Put>)
    ensures r.Some? ==> r.value in entries && Called(r.value.name, naming) == name
  {
    if entries == [] then None
    else if Called(entries[0].name, naming) == name then Some(entries[0])
    else Lookup(entries[1..], name, naming)
  }

  /** What lies under a name: the entries of the object there, if there is one. */
  function Inside(entry: Option<Put>): (puts: seq<Put>)
    requires entry.Some? ==> StaticPut(entry.value)
    ensures StaticPuts(puts)
  {
    if entry.Some? && entry.value.value.Block? then Puts(entry.value.value.items) else []
  }

  /** The entries of the object at a path of selectors or style names; none if there is no object. */
  function EntriesAt(puts: seq<Put>, naming: Naming, path: seq<Name>): (r: seq<Put>)
    requires StaticPuts(puts)
    ensures StaticPuts(r)
    decreases |path|
  {
    var entries := Entries(puts, naming);
    if path == [] then entries
    else EntriesAt(Inside(Lookup(entries, path[0], naming)), naming, path[1..])
  }

  /** The values of the expressions a style object mentions. */
  type Env = nat -> string

  function TextOf(value: Value, env: Env): string {
    match value
    case Text(text) => text
    case Expression(id) => env(id)
    case Block(_) => ""
  }

  function Effect(put: Put, env: Env, dir: Direction, slot: Slot): Option<Content> {
    if put.value.Block? then None else Written(put.name, TextOf(put.value, env), dir, slot)
  }

  /** The last entry that writes a place decides it. */
  function Resolve(entries: seq<Put>, env: Env, dir: Direction, slot: Slot): Option<Content> {
    if entries == [] then None
    else
      var last := Effect(entries[|entries| - 1], env, dir, slot);
      if last.Some? then last else Resolve(entries[..|entries| - 1], env, dir, slot)
  }

  /** The object at a path of a style, by the names its keys have. */
  function StyleAt(items: seq<Item>, path: seq<Name>): (r: seq<Put>)
    requires StaticKeys(items)
    ensures StaticPuts(r)
  {
    EntriesAt(Puts(items), AsWritten, path)
  }

  function Style(items: seq<Item>, env: Env, dir: Direction, path: seq<Name>, slot: Slot): Option<Content>
    requires StaticKeys(items)
  {
    Resolve(StyleAt(items, path), env, dir, slot)
  }

  ghost predicate SameStyle(t: seq<Item>, u: seq<Item>, env: Env, dir: Direction)
    requires StaticKeys(t) && StaticKeys(u)
  {
    forall path, slot :: Style(t, env, dir, path, slot) == Style(u, env, dir, path, slot)
  }

  // ---- mirroring

  function MirrorSlot(slot: Slot): Slot {
    match slot
    case At(f, LeftEdge) => At(f, RightEdge)
    case At(f, RightEdge) => At(f, LeftEdge)
    case _ => slot
  }

  function MirrorContent(slot: Slot, content: Content): Content {
    if slot.Keyword? && content == Whole("left") then Whole("right")
    else if slot.Keyword? && content == Whole("right") then Whole("left")
    else content
  }

  predicate Mirrored(slot: Slot, ltr: Option<Content>, rtl: Option<Content>) {
    match ltr
    case Some(content) => rtl == Some(MirrorContent(slot, content))
    case None => rtl == None
  }

  predicate MirrorsAt(items: seq<Item>, env: Env, path: seq<Name>, slot: Slot)
    requires StaticKeys(items)
  {
    Mirrored(slot, Style(items, env, Ltr, path, slot), Style(items, env, Rtl, path, MirrorSlot(slot)))
  }

  /** The right-to-left style is the left/right mirror image of the left-to-right style. */
  ghost predicate Mirrors(items: seq<Item>, env: Env)
    requires StaticKeys(items)
  {
    forall path, slot :: MirrorsAt(items, env, path, slot)
  }
}
