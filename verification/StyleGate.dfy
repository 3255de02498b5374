/**
  What the rule is for: a style without reports mirrors. It does exactly under
  a condition that can be read off its objects.
 */
module StyleGate {
  import opened Wrappers
  import opened StyleTree
  import opened StyleFixes
  import opened StyleMeaning
  import opened StyleOrder
  import opened StyleRewrite
  import opened StyleVocabulary

  // ---- what a tree without reports puts

  predicate CleanPut(put: Put) {
    Replacement(put.name).None? && FixedText(put.name, put.value) == put.value
  }

  /** A literal without reports, at some position. */
  ghost predicate CleanValue(value: Value) {
    value.Block? ==> exists prefix :: ReportsFrom(value.items, prefix, 0) == []
  }

  ghost predicate CleanPuts(puts: seq<Put>) {
    forall p :: p in puts ==> CleanPut(p) && CleanValue(p.value)
  }

  lemma {:induction false} CleanItemPutsClean(item: Item, at: Position)
    requires StaticItem(item) && ReportsIn(item, at) == []
    ensures CleanPuts(PutsOf(item))
    decreases item
  {
    if item.value.Block? {
      assert ReportsFrom(item.value.items, at, 0) == [];
      if item.Spread? {
        CleanTreePutsClean(item.value.items, at, 0);
      }
    }
  }

  lemma {:induction false} CleanTreePutsClean(items: seq<Item>, prefix: Position, k: nat)
    requires StaticKeys(items) && ReportsFrom(items, prefix, k) == []
    ensures CleanPuts(Puts(items))
    decreases items
  {
    if items != [] {
      CleanItemPutsClean(items[0], prefix + [k]);
      CleanTreePutsClean(items[1..], prefix, k + 1);
    }
  }

  lemma {:induction false} CleanObjects(puts: seq<Put>, path: seq<Name>)
    requires StaticPuts(puts) && CleanPuts(puts)
    ensures CleanPuts(EntriesAt(puts, AsWritten, path))
    decreases |path|
  {
    if path != [] {
      var entry := Lookup(Entries(puts, AsWritten), path[0], AsWritten);
      if entry.Some? && entry.value.value.Block? {
        assert CleanValue(entry.value.value);
        var prefix :| ReportsFrom(entry.value.value.items, prefix, 0) == [];
        CleanTreePutsClean(entry.value.value.items, prefix, 0);
      }
      CleanObjects(Inside(entry), path[1..]);
    }
  }

  // ---- one declaration

  /** Whether a declaration treats the two sides of a place alike, read off its words. */
  predicate Symmetric(name: Name, text: string, slot: Slot) {
    match name
    case Box(f) =>
      f != Border && slot.At? && Sideways(slot.edge) && |Words(text)| == 4 ==> Words(text)[1] == Words(text)[3]
    case Corners =>
      slot.At? ==>
        var w := Words(text);
        if 2 <= |w| <= 4 && slot.family == TopRadius then w[0] == w[1]
        else if |w| == 2 then w[0] == w[1]
        else if |w| == 3 then w[1] == w[2]
        else |w| == 4 ==> w[2] == w[3]
    case Align(k) => text != "left" && text != "right"
    case _ => true
  }

  /**
    Apart from the physical names, a declaration writes a place and, right to
    left, its mirror image; symmetric ones write both alike.
   */
  lemma DeclarationMirrors(name: Name, text: string, slot: Slot)
    requires !name.Physical?
    ensures var ltr, rtl := Written(name, text, Ltr, slot), Written(name, text, Rtl, MirrorSlot(slot));
            && (ltr.Some? <==> rtl.Some?)
            && (ltr.Some? ==> (Mirrored(slot, ltr, rtl) <==> Symmetric(name, text, slot)))
  {
  }

  // ---- one place of one object

  predicate PlaceMirrors(entries: seq<Put>, env: Env, slot: Slot) {
    Mirrored(slot, Resolve(entries, env, Ltr, slot), Resolve(entries, env, Rtl, MirrorSlot(slot)))
  }

  /** `borderLeftStyle` and `borderRightStyle`, the physical names that the rule's table leaves out. */
  predicate OneSided(entries: seq<Put>, i: Option<nat>)
    requires i.Some? ==> i.value < |entries|
  {
    i.Some? && entries[i.value].name.Physical?
  }

  /**
    What decides a place left to right and what decides its mirror place right
    to left treat the two alike. If either is one of the one-sided names there
    must be both, and they must write the same; otherwise it is one entry, and
    its words must be symmetric.
   */
  predicate DecidedAlike(entries: seq<Put>, env: Env, slot: Slot) {
    var i := Decider(entries, env, Ltr, slot);
    var j := Decider(entries, env, Rtl, MirrorSlot(slot));
    if OneSided(entries, i) || OneSided(entries, j) then
      i.Some? && j.Some?
      && Effect(entries[i.value], env, Ltr, slot) == Effect(entries[j.value], env, Rtl, MirrorSlot(slot))
    else
      i.Some? ==> Symmetric(entries[i.value].name, TextOf(entries[i.value].value, env), slot)
  }

  /** Where the last entry writes one of the two places. */
  lemma LastMirrorsIff(entries: seq<Put>, env: Env, slot: Slot)
    requires entries != [] && CleanPut(entries[|entries| - 1])
    requires var last := entries[|entries| - 1];
             Effect(last, env, Ltr, slot).Some? || Effect(last, env, Rtl, MirrorSlot(slot)).Some?
    ensures PlaceMirrors(entries, env, slot) <==> DecidedAlike(entries, env, slot)
  {
    var last := entries[|entries| - 1];
    if !last.name.Physical? {
      DeclarationMirrors(last.name, TextOf(last.value, env), slot);
    }
  }

  lemma {:induction false} PlaceMirrorsIff(entries: seq<Put>, env: Env, slot: Slot)
    requires forall p :: p in entries ==> CleanPut(p)
    ensures PlaceMirrors(entries, env, slot) <==> DecidedAlike(entries, env, slot)
  {
    if entries != [] {
      var last := entries[|entries| - 1];
      assert last in entries;
      if Effect(last, env, Ltr, slot).Some? || Effect(last, env, Rtl, MirrorSlot(slot)).Some? {
        LastMirrorsIff(entries, env, slot);
      } else {
        PlaceMirrorsIff(entries[..|entries| - 1], env, slot);
      }
    }
  }

  // ---- whole styles

  /** Every place of every object is decided alike. */
  ghost predicate DecidedAlikeEverywhere(t: seq<Item>, env: Env)
    requires StaticKeys(t)
  {
    forall path, slot :: DecidedAlike(StyleAt(t, path), env, slot)
  }

  lemma CleanPlaceMirrors(t: seq<Item>, env: Env, path: seq<Name>, slot: Slot)
    requires StaticKeys(t) && Reports(t) == []
    ensures MirrorsAt(t, env, path, slot) <==> DecidedAlike(StyleAt(t, path), env, slot)
  {
    CleanTreePutsClean(t, [], 0);
    CleanObjects(Puts(t), path);
    PlaceMirrorsIff(StyleAt(t, path), env, slot);
  }

  /**
    A style without reports mirrors if and only if every place is decided
    alike. The rule does not look at the words of a four-sided or four-cornered
    shorthand, at `float` and `clear`, at a text alignment that is not a
    literal, or at the styles of the left and right border.
   */
  lemma CleanStyleMirrors(t: seq<Item>, env: Env)
    requires StaticKeys(t) && Reports(t) == []
    ensures Mirrors(t, env) <==> DecidedAlikeEverywhere(t, env)
  {
    forall path, slot
      ensures MirrorsAt(t, env, path, slot) <==> DecidedAlike(StyleAt(t, path), env, slot)
    {
      CleanPlaceMirrors(t, env, path, slot);
    }
    if Mirrors(t, env) {
      forall path, slot ensures DecidedAlike(StyleAt(t, path), env, slot) {
        assert MirrorsAt(t, env, path, slot);
      }
    }
    if DecidedAlikeEverywhere(t, env) {
      forall path, slot ensures MirrorsAt(t, env, path, slot) {
        assert DecidedAlike(StyleAt(t, path), env, slot);
      }
    }
  }

  /** The same of the rewritten style, read off the original one. */
  ghost predicate DecidedAlikeOnceFixed(t: seq<Item>, env: Env)
    requires StaticKeys(t)
  {
    forall path, slot :: DecidedAlike(FixedPuts(FixedAt(t, path)), env, slot)
  }

  lemma RewriteMirrors(t: seq<Item>, env: Env)
    requires StaticKeys(t) && StaticKeys(Rewrite(t)) && Reports(Rewrite(t)) == []
    ensures Mirrors(Rewrite(t), env) <==> DecidedAlikeOnceFixed(t, env)
  {
    CleanStyleMirrors(Rewrite(t), env);
    forall path ensures StyleAt(Rewrite(t), path) == FixedPuts(FixedAt(t, path)) {
      RewrittenStyleAt(t, path);
    }
  }

  /**
    What carrying out the reports is worth, for every style and in any order:
    nothing is left to report; the left-to-right style is the old one if and
    only if nothing that takes effect sits below a reported key and no
    collision of keys does harm; and the result mirrors if and only if every
    place, once fixed, is decided alike.
   */
  lemma GateVerdict(t: seq<Item>, fixes: seq<Report>, env: Env)
    requires StaticKeys(t)
    requires multiset(fixes) == multiset(Reports(t))
    ensures var u := ApplyAll(t, fixes);
            && Reports(u) == [] && StaticKeys(u)
            && (SameStyle(u, t, env, Ltr)
                <==> NothingBelowReportedKey(Puts(t), env) && CollisionsAreHarmless(t, env))
            && (Mirrors(u, env) <==> DecidedAlikeOnceFixed(t, env))
  {
    AnyOrderReachesTheRewrite(t, fixes);
    RewriteKeepsLtrStyle(t, env);
    RewriteMirrors(t, env);
  }

  /** A declaration over the rule's vocabulary, with the same to say about both sides once it is fixed. */
  ghost predicate EvenHanded(put: Put, env: Env) {
    && (put.name.Physical? ==> put.name.family != BorderStyle)
    && forall slot :: Symmetric(FixedPut(put).name, TextOf(FixedPut(put).value, env), slot)
  }

  lemma EvenHandedIsDecidedAlike(entries: seq<Put>, env: Env, slot: Slot)
    requires forall p :: p in entries ==> EvenHanded(p, env)
    ensures DecidedAlike(FixedPuts(entries), env, slot)
  {
    forall i | 0 <= i < |entries|
      ensures !FixedPuts(entries)[i].name.Physical?
      ensures Symmetric(FixedPuts(entries)[i].name, TextOf(FixedPuts(entries)[i].value, env), slot)
    {
      assert EvenHanded(entries[i], env);
    }
  }

  /**
    The promise of the gate: a style whose declarations are even-handed, whose
    selectors and style names are not those of a side, and whose objects have
    no reported key beside its replacement, mirrors once it is clean.
   */
  lemma GateDeliversMirroredStyle(t: seq<Item>, fixes: seq<Report>, env: Env)
    requires StaticKeys(t)
    requires multiset(fixes) == multiset(Reports(t))
    requires forall path, p :: p in FixedAt(t, path) ==> EvenHanded(p, env)
    requires forall path :: ThroughReportedKey(path) ==> StyleAt(t, path) == []
    requires forall path :: !SharesAlong(Puts(t), path)
    ensures var u := ApplyAll(t, fixes);
            Reports(u) == [] && StaticKeys(u) && SameStyle(u, t, env, Ltr) && Mirrors(u, env)
  {
    GateVerdict(t, fixes, env);
    forall path, slot ensures DecidedAlike(FixedPuts(FixedAt(t, path)), env, slot) {
      EvenHandedIsDecidedAlike(FixedAt(t, path), env, slot);
    }
  }

  // ---- what passes the rule and still does not mirror, or is flagged for nothing

  /** The object of a literal with one property. */
  lemma OneProperty(name: Name, value: Value)
    requires value.Block? ==> StaticKeys(value.items)
    ensures var t := [Property(Identifier(name, false), value)];
            && StaticKeys(t) && Puts(t) == [Put(name, value)] && StyleAt(t, []) == [Put(name, value)]
            && Reports(t) == ReportsIn(t[0], [0])
  {
    var t := [Property(Identifier(name, false), value)];
    assert t[1..] == [] && StaticItem(t[0]);
    assert PutsOf(t[0]) == [Put(name, value)];
    assert [Put(name, value)][..0] == [];
    assert Entries([], AsWritten) == [];
    assert [] + [0] == [0] && ReportsFrom([], [], 1) == [];
    assert ReportsIn(t[0], [0]) + [] == ReportsIn(t[0], [0]);
  }

  lemma MarginWords()
    ensures Words("0 1 0 2") == ["0", "1", "0", "2"]
  {
    assert ["0", "1", "0", "2"][1..] == ["1", "0", "2"] && ["1", "0", "2"][1..] == ["0", "2"];
    assert ["0", "2"][1..] == ["2"];
    assert Joined(["0", "2"]) == "0" + " " + "2" == "0 2";
    assert Joined(["1", "0", "2"]) == "1" + " " + "0 2" == "1 0 2";
    assert Joined(["0", "1", "0", "2"]) == "0" + " " + "1 0 2" == "0 1 0 2";
    WordsOfJoined(["0", "1", "0", "2"]);
  }

  /** `margin: '0 1 0 2'` is not reported, keeps 1 on the right in both directions, and so does not mirror. */
  lemma FourSidedMarginPassesUnmirrored(env: Env)
    ensures var t := [Property(Identifier(Box(Margin), false), Text("0 1 0 2"))];
            Reports(t) == [] && StaticKeys(t) && !Mirrors(t, env)
  {
    var put := Put(Box(Margin), Text("0 1 0 2"));
    var t := [Property(Identifier(put.name, false), put.value)];
    OneProperty(put.name, put.value);
    MarginWords();
    var slot := At(Margin, LeftEdge);
    assert !Symmetric(put.name, TextOf(put.value, env), slot);
    assert !DecidedAlike([put], env, slot);
    assert !DecidedAlike(StyleAt(t, []), env, slot);
    CleanStyleMirrors(t, env);
  }

  /** `borderLeftStyle` is missing from the table: it passes the rule and stays on the left. */
  lemma BorderSideStylePassesUnmirrored(env: Env)
    ensures var t := [Property(Identifier(Physical(BorderStyle, Left), false), Text("solid"))];
            Reports(t) == [] && StaticKeys(t) && !Mirrors(t, env)
  {
    var put := Put(Physical(BorderStyle, Left), Text("solid"));
    var t := [Property(Identifier(put.name, false), put.value)];
    OneProperty(put.name, put.value);
    var slot := At(BorderStyle, LeftEdge);
    assert Decider([put], env, Rtl, MirrorSlot(slot)).None?;
    assert !DecidedAlike([put], env, slot);
    assert !DecidedAlike(StyleAt(t, []), env, slot);
    CleanStyleMirrors(t, env);
  }

  /** A style named `left` is reported although nothing in it is physical, and obeying the report renames it. */
  lemma StyleNamedLeftIsFlagged(env: Env)
    ensures var t := [Property(Identifier(Physical(Inset, Left), false),
                               Block([Property(Identifier(Other("color"), false), Text("red"))]))];
            |Reports(t)| == 1 && StaticKeys(t) && StaticKeys(Rewrite(t)) && !SameStyle(Rewrite(t), t, env, Ltr)
  {
    var inner := [Property(Identifier(Other("color"), false), Text("red"))];
    var side := Physical(Inset, Left);
    var item := Property(Identifier(side, false), Block(inner));
    OneProperty(Other("color"), Text("red"));
    OneProperty(side, Block(inner));
    assert ReportsIn(inner[0], [0] + [0]) == [];
    assert ReportsFrom(inner, [0], 0) == [];
    assert [] + [0] == [0];
    assert ReportsIn(item, [0]) == [Report([0], RenameKey(Logical(Inset, Start)))];
    assert ReportsFrom([item][1..], [], 1) == [];
    assert Reports([item]) == [Report([0], RenameKey(Logical(Inset, Start)))];
    assert Lookup([Put(side, Block(inner))], side, AsWritten) == Some(Put(side, Block(inner)));
    assert [side][1..] == [];
    assert StyleAt([item], [side]) == [Put(Other("color"), Text("red"))];
    assert Replacement([side][0]).Some?;
    assert TakesEffect(Put(Other("color"), Text("red")), env);
    RewriteKeepsLtrStyle([item], env);
  }
}
