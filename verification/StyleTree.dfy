/**
  Style objects as ESLint sees them, and the rule `no-physical-properties`.

  A style object is an ordered sequence of items. An item is a property, or a
  spread whose operand may again be an object literal. A node is identified by
  its position: the item indices on the way down to it.
 */
module StyleTree {
  import opened Wrappers

  datatype Side = Left | Right
  datatype Line = Start | End

  /** Families of properties that have a left and a right member. */
  datatype Family =
    | Margin | Padding | Inset
    | Border | BorderWidth | BorderStyle | BorderColor
    | TopRadius | BottomRadius

  /** The families that also have members for all four sides and for the inline axis. */
  type BoxFamily = f: Family | f != TopRadius && f != BottomRadius witness Margin

  datatype Aligning = TextAlign | Float | Clear

  /**
    Property names by what they address; `Spelling` gives the ones the rule's
    table is about. `Other` is every name outside these families.
   */
  datatype Name =
    | Physical(family: Family, side: Side)  // marginLeft, borderTopRightRadius, left
    | Logical(family: Family, line: Line)   // marginInlineStart, borderStartEndRadius
    | Inline(box: BoxFamily)                // marginInline, borderInlineWidth
    | Box(box: BoxFamily)                   // margin, inset, borderColor
    | Vertical(box: BoxFamily, top: bool)   // marginTop, bottom, borderTopColor
    | Corners                               // borderRadius
    | Align(keyword: Aligning)              // textAlign, float, clear
    | Other(name: string)

  /** `Identifier` also covers `[name]: v`: the rule never looks at `computed`. */
  datatype Key = Identifier(name: Name, computed: bool) | Literal(name: Name) | Dynamic

  /** `Expression` stands for every value that is neither a literal nor an object literal. */
  datatype Value = Text(text: string) | Expression(id: nat) | Block(items: seq<Item>)

  datatype Item = Property(key: Key, value: Value) | Spread(value: Value)

  type Position = seq<nat>

  datatype Edit = RenameKey(name: Name) | ReplaceText(text: string)

  datatype Report = Report(at: Position, edit: Edit)

  /** The rule's replacement for a name. `borderLeftStyle` and `borderRightStyle` are not in its table. */
  function Replacement(name: Name): Option<Name> {
    if name.Physical? && name.family != BorderStyle then
      Some(Logical(name.family, if name.side == Left then Start else End))
    else None
  }

  /** The key the visitor works with; `None` where it returns at once. */
  function KeyOf(key: Key): Option<Name> {
    match key
    case Identifier(name, _) => Some(name)
    case Literal(name) => if name == Other("") then None else Some(name)
    case Dynamic => None
  }

  /** What the rule asks for at one node. */
  function Suggestion(item: Item): Option<Edit> {
    if item.Spread? || KeyOf(item.key).None? then None
    else if Replacement(KeyOf(item.key).value).Some? then
      Some(RenameKey(Replacement(KeyOf(item.key).value).value))
    else if KeyOf(item.key).value == Align(TextAlign) && item.value.Text? && item.value.text == "left" then
      Some(ReplaceText("start"))
    else if KeyOf(item.key).value == Align(TextAlign) && item.value.Text? && item.value.text == "right" then
      Some(ReplaceText("end"))
    else None
  }

  /** What the rule reports at one node: at most one thing. */
  function ReportOn(item: Item, at: Position): seq<Report> {
    match Suggestion(item)
    case Some(edit) => [Report(at, edit)]
    case None => []
  }

  /** The reports of one node and of everything below it: parents first. */
  function ReportsIn(item: Item, at: Position): seq<Report>
    decreases item
  {
    ReportOn(item, at) + if item.value.Block? then ReportsFrom(item.value.items, at, 0) else []
  }

  /** Siblings in order; `items` starts at index `k` of its object. */
  function ReportsFrom(items: seq<Item>, prefix: Position, k: nat): seq<Report>
    decreases items
  {
    if items == [] then []
    else ReportsIn(items[0], prefix + [k]) + ReportsFrom(items[1..], prefix, k + 1)
  }

  function Reports(items: seq<Item>): seq<Report> {
    ReportsFrom(items, [], 0)
  }

  // ---- the rule's table, in its own words

  function Spelling(name: Name): string
    requires name.Physical? || name.Logical?
  {
    match name
    case Physical(Margin, s) => if s == Left then "marginLeft" else "marginRight"
    case Physical(Padding, s) => if s == Left then "paddingLeft" else "paddingRight"
    case Physical(Inset, s) => if s == Left then "left" else "right"
    case Physical(Border, s) => if s == Left then "borderLeft" else "borderRight"
    case Physical(BorderWidth, s) => if s == Left then "borderLeftWidth" else "borderRightWidth"
    case Physical(BorderStyle, s) => if s == Left then "borderLeftStyle" else "borderRightStyle"
    case Physical(BorderColor, s) => if s == Left then "borderLeftColor" else "borderRightColor"
    case Physical(TopRadius, s) => if s == Left then "borderTopLeftRadius" else "borderTopRightRadius"
    case Physical(BottomRadius, s) => if s == Left then "borderBottomLeftRadius" else "borderBottomRightRadius"
    case Logical(Margin, l) => if l == Start then "marginInlineStart" else "marginInlineEnd"
    case Logical(Padding, l) => if l == Start then "paddingInlineStart" else "paddingInlineEnd"
    case Logical(Inset, l) => if l == Start then "insetInlineStart" else "insetInlineEnd"
    case Logical(Border, l) => if l == Start then "borderInlineStart" else "borderInlineEnd"
    case Logical(BorderWidth, l) => if l == Start then "borderInlineStartWidth" else "borderInlineEndWidth"
    case Logical(BorderStyle, l) => if l == Start then "borderInlineStartStyle" else "borderInlineEndStyle"
    case Logical(BorderColor, l) => if l == Start then "borderInlineStartColor" else "borderInlineEndColor"
    case Logical(TopRadius, l) => if l == Start then "borderStartStartRadius" else "borderStartEndRadius"
    case Logical(BottomRadius, l) => if l == Start then "borderEndStartRadius" else "borderEndEndRadius"
  }

  const PHYSICAL: seq<(string, string)> := [
    ("marginLeft", "marginInlineStart"),
    ("marginRight", "marginInlineEnd"),
    ("paddingLeft", "paddingInlineStart"),
    ("paddingRight", "paddingInlineEnd"),
    ("borderLeft", "borderInlineStart"),
    ("borderRight", "borderInlineEnd"),
    ("borderLeftWidth", "borderInlineStartWidth"),
    ("borderRightWidth", "borderInlineEndWidth"),
    ("borderLeftColor", "borderInlineStartColor"),
    ("borderRightColor", "borderInlineEndColor"),
    ("borderTopLeftRadius", "borderStartStartRadius"),
    ("borderTopRightRadius", "borderStartEndRadius"),
    ("borderBottomLeftRadius", "borderEndStartRadius"),
    ("borderBottomRightRadius", "borderEndEndRadius"),
    ("left", "insetInlineStart"),
    ("right", "insetInlineEnd")]

  /** The row of the table that a physical name has. */
  function Row(family: Family, side: Side): (row: nat)
    requires family != BorderStyle
    ensures row < 16
  {
    (match family
     case Margin => 0
     case Padding => 2
     case Border => 4
     case BorderWidth => 6
     case BorderColor => 8
     case TopRadius => 10
     case BottomRadius => 12
     case Inset => 14)
    + if side == Left then 0 else 1
  }

  /** `Replacement` is the table: each replaced name has its own row, and the rows are all of them. */
  lemma ReplacementIsTheTable(family: Family, side: Side)
    requires family != BorderStyle
    ensures |PHYSICAL| == 16
    ensures PHYSICAL[Row(family, side)]
         == (Spelling(Physical(family, side)), Spelling(Replacement(Physical(family, side)).value))
    ensures forall f, s :: f != BorderStyle && Row(f, s) == Row(family, side) ==> f == family && s == side
  {
    match family {
      case Margin =>
      case Padding =>
      case Inset =>
      case Border =>
      case BorderWidth =>
      case BorderColor =>
      case TopRadius =>
      case BottomRadius =>
    }
  }

  /** Conversely: a name without a replacement is spelt like no key of the table. */
  lemma OtherNamesAreNotInTheTable(name: Name, row: nat)
    requires name.Physical? || name.Logical?
    requires row < 16 && Replacement(name).None?
    ensures PHYSICAL[row].0 != Spelling(name)
  {
  }

  /** ESLint's report list together with the rule's visitor. */
  class RuleContext {
    var reports: seq<Report>

    constructor ()
      ensures reports == []
    {
      reports := [];
    }

    /** The visitor `Property(node)`. */
    method Visit(item: Item, at: Position)
      modifies this
      ensures reports == old(reports) + ReportOn(item, at)
    {
      if item.Spread? { return; }
      var key := KeyOf(item.key);
      if key.None? { return; }

      if Replacement(key.value).Some? {
        reports := reports + [Report(at, RenameKey(Replacement(key.value).value))];
        return;
      }

      if key.value == Align(TextAlign) && item.value.Text? {
        var v := item.value.text;
        if v == "left" || v == "right" {
          reports := reports + [Report(at, ReplaceText(if v == "left" then "start" else "end"))];
        }
      }
    }

    /** ESLint's walk: a node is visited before its children. */
    method Enter(item: Item, at: Position)
      modifies this
      ensures reports == old(reports) + ReportsIn(item, at)
      decreases item
    {
      Visit(item, at);
      if item.value.Block? {
        Traverse(item.value.items, at, 0);
      }
    }

    method Traverse(items: seq<Item>, prefix: Position, first: nat)
      modifies this
      ensures reports == old(reports) + ReportsFrom(items, prefix, first)
      decreases items
    {
      if items != [] {
        ghost var before := reports;
        Enter(items[0], prefix + [first]);
        Traverse(items[1..], prefix, first + 1);
        assert reports == before + (ReportsIn(items[0], prefix + [first]) + ReportsFrom(items[1..], prefix, first + 1));
      }
    }

    method Lint(items: seq<Item>)
      modifies this
      ensures reports == old(reports) + Reports(items)
    {
      Traverse(items, [], 0);
    }
  }
}
