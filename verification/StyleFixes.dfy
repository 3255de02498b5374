/**
  Carrying out what the rule asks for: one report at a time, in any order, or
  everywhere at once.
 */
module StyleFixes {
  import opened Wrappers
  import opened StyleTree

  // ---- navigation, independent of the traversal that reports

  /** An item with its children hidden. */
  function Shallow(item: Item): Item {
    if item.value.Block? then item.(value := Block([])) else item
  }

  function ItemAt(items: seq<Item>, at: Position): Option<Item>
    decreases |at|
  {
    if at == [] || at[0] >= |items| then None
    else if |at| == 1 then Some(items[at[0]])
    else if items[at[0]].value.Block? then ItemAt(items[at[0]].value.items, at[1..])
    else None
  }

  function NodeAt(items: seq<Item>, at: Position): Option<Item> {
    match ItemAt(items, at)
    case Some(item) => Some(Shallow(item))
    case None => None
  }

  /** A tree is determined by its nodes. */
  lemma {:induction false} SameNodesSameTree(t: seq<Item>, u: seq<Item>)
    requires forall at :: NodeAt(t, at) == NodeAt(u, at)
    ensures t == u
    decreases t
  {
    assert |t| == |u| by {
      assert NodeAt(t, [|t|]).None?;
      assert NodeAt(u, [|u|]).None?;
    }
    forall i | 0 <= i < |t|
      ensures t[i] == u[i]
    {
      assert NodeAt(t, [i]) == NodeAt(u, [i]);
      if t[i].value.Block? {
        var inner, other := t[i].value.items, u[i].value.items;
        assert t[i] in t && t[i].value < t[i];
        forall at
          ensures NodeAt(inner, at) == NodeAt(other, at)
        {
          if at != [] {
            assert ([i] + at)[1..] == at;
            assert NodeAt(t, [i] + at) == NodeAt(u, [i] + at);
          }
        }
        SameNodesSameTree(inner, other);
      }
    }
  }

  // ---- the reports are exact

  /** Positions below `prefix`, at child `k` or later. */
  predicate Within(at: Position, prefix: Position, k: nat) {
    |prefix| < |at| && at[..|prefix|] == prefix && k <= at[|prefix|]
  }

  /** The position relative to the suffix of siblings that starts at child `k`. */
  function Relative(at: Position, prefix: Position, k: nat): Position
    requires Within(at, prefix, k)
  {
    [at[|prefix|] - k] + at[|prefix| + 1..]
  }

  /** What the siblings `items`, the first of them at child `k`, suggest at a position. */
  predicate Suggests(items: seq<Item>, prefix: Position, k: nat, r: Report) {
    Within(r.at, prefix, k)
    && ItemAt(items, Relative(r.at, prefix, k)).Some?
    && Suggestion(ItemAt(items, Relative(r.at, prefix, k)).value) == Some(r.edit)
  }

  lemma {:induction false} ReportedInNode(item: Item, at: Position, r: Report)
    ensures r in ReportsIn(item, at)
       <==> r in ReportOn(item, at) || (item.value.Block? && Suggests(item.value.items, at, 0, r))
    decreases item
  {
    if item.value.Block? {
      ReportedIffSuggested(item.value.items, at, 0, r);
    }
  }

  lemma {:induction false} ReportedIffSuggested(items: seq<Item>, prefix: Position, k: nat, r: Report)
    ensures r in ReportsFrom(items, prefix, k) <==> Suggests(items, prefix, k, r)
    decreases items
  {
    if items != [] {
      ReportedInNode(items[0], prefix + [k], r);
      ReportedIffSuggested(items[1..], prefix, k + 1, r);
      FirstOrLaterSibling(items, prefix, k, r);
    }
  }

  /** A position among siblings is the first one, below the first one, or at a later one. */
  lemma FirstOrLaterSibling(items: seq<Item>, prefix: Position, k: nat, r: Report)
    requires items != []
    ensures Suggests(items, prefix, k, r)
       <==> || r in ReportOn(items[0], prefix + [k])
            || (items[0].value.Block? && Suggests(items[0].value.items, prefix + [k], 0, r))
            || Suggests(items[1..], prefix, k + 1, r)
  {
    var here := prefix + [k];
    assert Within(r.at, here, 0) ==> Within(r.at, prefix, k) && r.at[|prefix|] == k by {
      if Within(r.at, here, 0) {
        assert r.at[..|prefix|] == r.at[..|here|][..|prefix|];
        assert r.at[|prefix|] == r.at[..|here|][|prefix|];
      }
    }
    assert r.at == here ==> Within(r.at, prefix, k) && r.at[..|prefix|] == prefix;
    if Within(r.at, prefix, k) {
      var rel := Relative(r.at, prefix, k);
      if rel[0] > 0 {
        assert Relative(r.at, prefix, k + 1) == [rel[0] - 1] + rel[1..];
      } else if |rel| == 1 {
        assert r.at == r.at[..|prefix|] + [k] == here;
      } else {
        assert r.at[..|here|] == r.at[..|prefix|] + [k] == here;
        assert Relative(r.at, here, 0) == rel[1..];
      }
    }
  }

  /** A node is reported, with its suggestion, exactly when it is physical: at any depth, and nothing else is. */
  lemma ReportsAreExact(items: seq<Item>, r: Report)
    ensures r in Reports(items)
       <==> ItemAt(items, r.at).Some? && Suggestion(ItemAt(items, r.at).value) == Some(r.edit)
  {
    ReportedIffSuggested(items, [], 0, r);
    if r.at != [] {
      assert Relative(r.at, [], 0) == r.at;
    }
  }

  /**
    The same, spelled out: a key is to be renamed if and only if it is, quoted,
    computed or not, a physical side other than that of a border style, and a
    value is to be replaced if and only if it is the literal `left` or `right`
    of a `textAlign`.
   */
  lemma ReportedIffPhysical(items: seq<Item>, r: Report)
    ensures r in Reports(items)
       <==> && ItemAt(items, r.at).Some?
            && var item := ItemAt(items, r.at).value;
               && item.Property? && !item.key.Dynamic?
               && match r.edit
                  case RenameKey(name) =>
                    exists f, s :: f != BorderStyle && item.key.name == Physical(f, s)
                                   && name == Logical(f, if s == Left then Start else End)
                  case ReplaceText(text) =>
                    item.key.name == Align(TextAlign)
                    && ((item.value == Text("left") && text == "start")
                        || (item.value == Text("right") && text == "end"))
  {
    ReportsAreExact(items, r);
    if ItemAt(items, r.at).Some? {
      var item := ItemAt(items, r.at).value;
      if item.Property? && !item.key.Dynamic? && item.key.name.Physical? && item.key.name.family != BorderStyle {
        assert item.key.name == Physical(item.key.name.family, item.key.name.side);
      }
    }
  }

  ghost predicate Distinct(rs: seq<Report>) {
    forall i, j :: 0 <= i < j < |rs| ==> rs[i].at != rs[j].at
  }

  lemma {:induction false} NodeReportsAreDistinct(item: Item, at: Position)
    ensures Distinct(ReportsIn(item, at))
    decreases item
  {
    if item.value.Block? {
      var inner := ReportsFrom(item.value.items, at, 0);
      ReportsAreDistinct(item.value.items, at, 0);
      forall r | r in inner ensures r.at != at {
        ReportedIffSuggested(item.value.items, at, 0, r);
      }
    }
  }

  /** No node is reported twice. */
  lemma {:induction false} ReportsAreDistinct(items: seq<Item>, prefix: Position, k: nat)
    ensures Distinct(ReportsFrom(items, prefix, k))
    decreases items
  {
    if items != [] {
      var here := prefix + [k];
      NodeReportsAreDistinct(items[0], here);
      ReportsAreDistinct(items[1..], prefix, k + 1);
      forall r | r in ReportsIn(items[0], here) ensures |prefix| < |r.at| && r.at[|prefix|] == k {
        ReportedInNode(items[0], here, r);
        assert r.at != here ==> r.at[|prefix|] == r.at[..|here|][|prefix|];
      }
      forall r | r in ReportsFrom(items[1..], prefix, k + 1) ensures Within(r.at, prefix, k + 1) {
        ReportedIffSuggested(items[1..], prefix, k + 1, r);
      }
    }
  }

  // ---- carrying reports out

  function ApplyEdit(item: Item, edit: Edit): Item {
    match edit
    case RenameKey(name) =>
      if item.Spread? || item.key.Dynamic? then item else item.(key := item.key.(name := name))
    case ReplaceText(text) =>
      if item.value.Text? then item.(value := Text(text)) else item
  }

  function Fixed(item: Item): Item {
    match Suggestion(item)
    case Some(edit) => ApplyEdit(item, edit)
    case None => item
  }

  function RewriteItem(item: Item): Item
    decreases item
  {
    Fixed(if item.value.Block? then item.(value := Block(Rewrite(item.value.items))) else item)
  }

  function Rewrite(items: seq<Item>): (fixed: seq<Item>)
    ensures |fixed| == |items|
    decreases items
  {
    if items == [] then [] else [RewriteItem(items[0])] + Rewrite(items[1..])
  }

  function Apply(items: seq<Item>, at: Position, edit: Edit): seq<Item>
    decreases |at|
  {
    if at == [] || at[0] >= |items| then items
    else
      var item := items[at[0]];
      if |at| == 1 then items[at[0] := ApplyEdit(item, edit)]
      else if item.value.Block? then
        items[at[0] := item.(value := Block(Apply(item.value.items, at[1..], edit)))]
      else items
  }

  function ApplyAll(items: seq<Item>, fixes: seq<Report>): seq<Item> {
    if fixes == [] then items
    else
      var last := fixes[|fixes| - 1];
      Apply(ApplyAll(items, fixes[..|fixes| - 1]), last.at, last.edit)
  }

  lemma {:induction false} ApplyChangesOneNode(items: seq<Item>, at: Position, edit: Edit, p: Position)
    ensures NodeAt(Apply(items, at, edit), p)
         == if p == at && NodeAt(items, p).Some? then Some(ApplyEdit(NodeAt(items, p).value, edit))
            else NodeAt(items, p)
    decreases |at|
  {
    if at != [] && at[0] < |items| && |at| > 1 && items[at[0]].value.Block? && p != [] && p[0] == at[0] {
      ApplyChangesOneNode(items[at[0]].value.items, at[1..], edit, p[1..]);
      assert p == at <==> p[1..] == at[1..] by {
        assert p == [p[0]] + p[1..];
        assert at == [at[0]] + at[1..];
      }
    }
  }

  lemma {:induction false} RewriteFixesEveryNode(items: seq<Item>, p: Position)
    ensures NodeAt(Rewrite(items), p)
         == if NodeAt(items, p).Some? then Some(Fixed(NodeAt(items, p).value)) else None
    decreases items
  {
    if items != [] && p != [] {
      var item := items[0];
      assert item in items && item.value < item;
      if p[0] > 0 {
        var q := [p[0] - 1] + p[1..];
        RewriteFixesEveryNode(items[1..], q);
        assert Rewrite(items)[1..] == Rewrite(items[1..]);
        assert NodeAt(items, p) == NodeAt(items[1..], q);
        assert q[1..] == p[1..];
      } else if item.value.Block? {
        RewriteFixesEveryNode(item.value.items, p[1..]);
      }
    }
  }

  predicate Touched(fixes: seq<Report>, p: Position) {
    exists i :: 0 <= i < |fixes| && fixes[i].at == p
  }

  /** After any of the reports, in any order and even repeatedly, exactly the nodes they name are fixed. */
  lemma {:induction false} ApplyAllFixesTheNamedNodes(items: seq<Item>, fixes: seq<Report>, p: Position)
    requires forall f :: f in fixes ==> f in Reports(items)
    ensures Touched(fixes, p) ==> NodeAt(items, p).Some? && Suggestion(NodeAt(items, p).value).Some?
    ensures NodeAt(ApplyAll(items, fixes), p)
         == if Touched(fixes, p) then Some(Fixed(NodeAt(items, p).value)) else NodeAt(items, p)
    decreases |fixes|
  {
    if fixes != [] {
      var n := |fixes| - 1;
      var before, last := fixes[..n], fixes[n];
      ApplyAllFixesTheNamedNodes(items, before, p);
      ApplyChangesOneNode(ApplyAll(items, before), last.at, last.edit, p);
      ReportsAreExact(items, last);
      assert Touched(fixes, p) <==> Touched(before, p) || last.at == p by {
        if Touched(fixes, p) {
          var i :| 0 <= i < |fixes| && fixes[i].at == p;
          assert i < n ==> before[i].at == p;
        }
        if Touched(before, p) {
          var i :| 0 <= i < |before| && before[i].at == p;
          assert fixes[i].at == p;
        }
        assert fixes[n] == last;
      }
    }
  }

  /** What is left to report is what has not been carried out yet. */
  lemma RemainingReports(items: seq<Item>, fixes: seq<Report>, r: Report)
    requires forall f :: f in fixes ==> f in Reports(items)
    ensures r in Reports(ApplyAll(items, fixes)) <==> r in Reports(items) && !Touched(fixes, r.at)
  {
    ReportsAreExact(items, r);
    ReportsAreExact(ApplyAll(items, fixes), r);
    ApplyAllFixesTheNamedNodes(items, fixes, r.at);
  }

  /** Every order of carrying out all reports ends in the same tree, and that tree has no reports. */
  lemma AnyOrderReachesTheRewrite(items: seq<Item>, fixes: seq<Report>)
    requires multiset(fixes) == multiset(Reports(items))
    ensures ApplyAll(items, fixes) == Rewrite(items)
    ensures Reports(Rewrite(items)) == []
  {
    forall r ensures r in fixes <==> r in Reports(items) {
      assert r in fixes <==> r in multiset(fixes);
      assert r in Reports(items) <==> r in multiset(Reports(items));
    }
    forall p ensures NodeAt(ApplyAll(items, fixes), p) == NodeAt(Rewrite(items), p) {
      ApplyAllFixesTheNamedNodes(items, fixes, p);
      RewriteFixesEveryNode(items, p);
      if NodeAt(items, p).Some? && Suggestion(NodeAt(items, p).value).Some? {
        var r := Report(p, Suggestion(NodeAt(items, p).value).value);
        ReportsAreExact(items, r);
        var i :| 0 <= i < |fixes| && fixes[i] == r;
        assert Touched(fixes, p);
      }
    }
    SameNodesSameTree(ApplyAll(items, fixes), Rewrite(items));
    if Reports(Rewrite(items)) != [] {
      var r := Reports(Rewrite(items))[0];
      RemainingReports(items, fixes, r);
      assert r in fixes ==> Touched(fixes, r.at);
      assert false;
    }
  }

  /** The rewrite differs from the original at the reported nodes and nowhere else. */
  lemma RewriteDiffersOnlyWhereReported(items: seq<Item>, p: Position)
    ensures NodeAt(Rewrite(items), p) != NodeAt(items, p)
       <==> exists edit :: Report(p, edit) in Reports(items)
  {
    RewriteFixesEveryNode(items, p);
    forall edit {
      ReportsAreExact(items, Report(p, edit));
    }
    if NodeAt(items, p).Some? && Suggestion(NodeAt(items, p).value).Some? {
      assert Report(p, Suggestion(NodeAt(items, p).value).value) in Reports(items);
    }
  }
}
