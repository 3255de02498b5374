/**
  What becomes of a style object that has a reported key and also the key the
  rule would have there instead: the rewrite writes one key twice, and
  JavaScript keeps the first one's position and the last one's value.
 */
module StyleCollision {
  import opened Wrappers
  import opened StyleTree
  import opened StyleFixes
  import opened StyleMeaning
  import opened StyleOrder
  import opened StyleRewrite
  import opened StyleVocabulary

  /** The put that has the last word on the new name of put `i`. */
  function Heir(puts: seq<Put>, i: nat): (h: nat)
    requires i < |puts|
    ensures i <= h && Holds(puts, OnceFixed, h)
    ensures Called(puts[h].name, OnceFixed) == Called(puts[i].name, OnceFixed)
    decreases |puts|
  {
    var n := |puts| - 1;
    if Called(puts[n].name, OnceFixed) == Called(puts[i].name, OnceFixed) then n else Heir(puts[..n], i)
  }

  /** Put `y` still writes the place, after the position that the winner `w` moves to. */
  predicate Between(puts: seq<Put>, env: Env, slot: Slot, w: nat, y: nat)
    requires w < |puts|
  {
    Writes(puts, OnceFixed, env, slot, y) && PositionOf(puts, OnceFixed, w) < PositionOf(puts, OnceFixed, y)
  }

  /** It does stand between: before the position that the winner had. */
  lemma StandsBetween(puts: seq<Put>, env: Env, slot: Slot, w: nat, y: nat)
    requires Wins(puts, AsWritten, env, slot, w) && Between(puts, env, slot, w, y)
    ensures PositionOf(puts, OnceFixed, w) < PositionOf(puts, OnceFixed, y) < PositionOf(puts, AsWritten, w)
  {
    HeldOnceFixedIsHeld(puts, y);
    assert Writes(puts, AsWritten, env, slot, y);
    var k := PositionOf(puts, AsWritten, y);
    assert Called(puts[k].name, OnceFixed) == Called(puts[y].name, OnceFixed);
    var m := PositionOf(puts, AsWritten, w);
    assert Called(puts[m].name, OnceFixed) == Called(puts[w].name, OnceFixed);
  }

  lemma SharedNamesShareTheirPlace(p: Put, q: Put, env: Env, slot: Slot)
    requires p.name != q.name && Called(p.name, OnceFixed) == Called(q.name, OnceFixed)
    requires !p.value.Block? && !q.value.Block?
    ensures Effect(p, env, Ltr, slot).Some? <==> Effect(q, env, Ltr, slot).Some?
  {
  }

  lemma HeirWrites(puts: seq<Put>, env: Env, slot: Slot, w: nat)
    requires Writes(puts, AsWritten, env, slot, w) && !puts[Heir(puts, w)].value.Block?
    ensures Writes(puts, OnceFixed, env, slot, Heir(puts, w))
    ensures PositionOf(puts, OnceFixed, Heir(puts, w)) == PositionOf(puts, OnceFixed, w)
  {
    var h := Heir(puts, w);
    if puts[h].name == puts[w].name {
      assert h == w;
    } else {
      SharedNamesShareTheirPlace(puts[h], puts[w], env, slot);
    }
  }

  /** With nothing between, the heir of the winner wins. */
  lemma HeirWins(puts: seq<Put>, env: Env, slot: Slot, w: nat)
    requires Writes(puts, AsWritten, env, slot, w) && !puts[Heir(puts, w)].value.Block?
    requires forall y :: 0 <= y < |puts| ==> !Between(puts, env, slot, w, y)
    ensures Wins(puts, OnceFixed, env, slot, Heir(puts, w))
  {
    HeirWrites(puts, env, slot, w);
    forall j | 0 <= j < |puts| && Writes(puts, OnceFixed, env, slot, j)
      ensures PositionOf(puts, OnceFixed, j) <= PositionOf(puts, OnceFixed, w)
    {
      assert !Between(puts, env, slot, w, j);
    }
  }

  predicate LastBetween(puts: seq<Put>, env: Env, slot: Slot, w: nat, y: nat)
    requires w < |puts|
  {
    Between(puts, env, slot, w, y)
    && forall z :: 0 <= z < |puts| && Between(puts, env, slot, w, z) ==>
         PositionOf(puts, OnceFixed, z) <= PositionOf(puts, OnceFixed, y)
  }

  /** Otherwise the last of those between wins. */
  lemma LastBetweenWins(puts: seq<Put>, env: Env, slot: Slot, w: nat, y: nat)
    requires w < |puts| && LastBetween(puts, env, slot, w, y)
    ensures Wins(puts, OnceFixed, env, slot, y)
  {
    forall j | 0 <= j < |puts| && Writes(puts, OnceFixed, env, slot, j)
      ensures PositionOf(puts, OnceFixed, j) <= PositionOf(puts, OnceFixed, y)
    {
      assert Between(puts, env, slot, w, j) || PositionOf(puts, OnceFixed, j) <= PositionOf(puts, OnceFixed, w);
    }
  }

  /**
    Any number of collisions in one object, keys put repeatedly included. The
    put `w` wins a place, and what has the last word on its new name is a
    value. If nothing stands between where that name first was put and where
    `w`'s own was, the rewrite keeps the place if and only if the last word
    writes what `w` wrote; otherwise if and only if the last of what stands
    between does.
   */
  lemma CollisionsKeepPlaceIff(t: seq<Item>, env: Env, path: seq<Name>, slot: Slot, w: nat)
    requires StaticKeys(t) && StaticKeys(Rewrite(t))
    requires PutsAt(Puts(t), OnceFixed, path) == PutsAt(Puts(t), AsWritten, path)
    requires Wins(PutsAt(Puts(t), AsWritten, path), AsWritten, env, slot, w)
    requires !PutsAt(Puts(t), AsWritten, path)[Heir(PutsAt(Puts(t), AsWritten, path), w)].value.Block?
    ensures var puts := PutsAt(Puts(t), AsWritten, path);
            var kept := Style(Rewrite(t), env, Ltr, path, slot) == Style(t, env, Ltr, path, slot);
            && ((forall y :: 0 <= y < |puts| ==> !Between(puts, env, slot, w, y)) ==>
                  (kept <==> Effect(puts[Heir(puts, w)], env, Ltr, slot) == Effect(puts[w], env, Ltr, slot)))
            && (forall y :: 0 <= y < |puts| && LastBetween(puts, env, slot, w, y) ==>
                  (kept <==> Effect(puts[y], env, Ltr, slot) == Effect(puts[w], env, Ltr, slot)))
  {
    var puts := PutsAt(Puts(t), AsWritten, path);
    PlaceAfterRewrite(t, env, path, slot);
    EntriesAtAreThoseOfPutsAt(Puts(t), OnceFixed, path);
    EntriesAtAreThoseOfPutsAt(Puts(t), AsWritten, path);
    WinnerDecides(puts, AsWritten, env, slot, w);
    if forall y :: 0 <= y < |puts| ==> !Between(puts, env, slot, w, y) {
      HeirWins(puts, env, slot, w);
      WinnerDecides(puts, OnceFixed, env, slot, Heir(puts, w));
    }
    forall y | 0 <= y < |puts| && LastBetween(puts, env, slot, w, y)
      ensures Resolve(Entries(puts, OnceFixed), env, Ltr, slot) == Effect(puts[y], env, Ltr, slot)
    {
      LastBetweenWins(puts, env, slot, w, y);
      WinnerDecides(puts, OnceFixed, env, slot, y);
    }
  }

  /** A collision of selectors or style names: at a path that comes to lead elsewhere nothing is left. */
  lemma DivertedPlaceIsLost(t: seq<Item>, env: Env, path: seq<Name>, slot: Slot)
    requires StaticKeys(t) && StaticKeys(Rewrite(t))
    requires NothingBelowReportedKey(Puts(t), env) && !ThroughReportedKey(path)
    requires PutsAt(Puts(t), OnceFixed, path) != PutsAt(Puts(t), AsWritten, path)
    ensures Style(Rewrite(t), env, Ltr, path, slot) == None
  {
    PlaceAfterRewrite(t, env, path, slot);
    DivertedPathDecidesNothing(Puts(t), env, path, slot);
  }

  /** A literal of three properties whose values are texts. */
  function Three(p: Put, q: Put, r: Put): seq<Item> {
    [Property(Identifier(p.name, false), p.value),
     Property(Identifier(q.name, false), q.value),
     Property(Identifier(r.name, false), r.value)]
  }

  lemma PutsOfThree(p: Put, q: Put, r: Put)
    requires p.value.Text? && q.value.Text? && r.value.Text?
    ensures StaticKeys(Three(p, q, r)) && Puts(Three(p, q, r)) == [p, q, r]
  {
    var t := Three(p, q, r);
    assert t[1..][1..] == [t[2]] && t[1..][1..][1..] == [];
    assert StaticItem(t[2]) && StaticKeys(t[1..][1..]) && StaticItem(t[1]) && StaticKeys(t[1..]);
    assert Puts(t[1..][1..]) == [r] && Puts(t[1..]) == [q, r];
  }

  /** Three values at one level, the first and the last of which come to share a name. */
  lemma CollisionOfThree(p: Put, q: Put, r: Put, env: Env, slot: Slot)
    requires p.name != q.name && q.name != r.name && p.name != r.name
    requires Called(p.name, OnceFixed) == Called(r.name, OnceFixed) != Called(q.name, OnceFixed)
    requires Effect(q, env, Ltr, slot).Some? && Effect(r, env, Ltr, slot).Some?
    ensures Wins([p, q, r], AsWritten, env, slot, 2) && Wins([p, q, r], OnceFixed, env, slot, 1)
  {
    var puts := [p, q, r];
    assert puts[0] == p && puts[1] == q && puts[2] == r;
    assert PositionOf(puts, AsWritten, 2) == 2;
    assert PositionOf(puts, OnceFixed, 2) == 0 && PositionOf(puts, OnceFixed, 1) == 1;
    assert !Holds(puts, OnceFixed, 0);
  }

  /** The style of such a literal, before and after. */
  lemma StyleOfThree(p: Put, q: Put, r: Put, env: Env, slot: Slot)
    requires p.value.Text? && q.value.Text? && r.value.Text?
    ensures var t := Three(p, q, r);
            && StaticKeys(t) && StaticKeys(Rewrite(t))
            && Style(t, env, Ltr, [], slot) == Resolve(Entries([p, q, r], AsWritten), env, Ltr, slot)
            && Style(Rewrite(t), env, Ltr, [], slot) == Resolve(Entries([p, q, r], OnceFixed), env, Ltr, slot)
  {
    PutsOfThree(p, q, r);
    RewriteKeepsStaticKeys(Three(p, q, r));
    PlaceAfterRewrite(Three(p, q, r), env, [], slot);
  }

  lemma MarginWritesLeft(env: Env, c: char)
    requires c != ' '
    ensures Effect(Put(Box(Margin), Text([c])), env, Ltr, At(Margin, LeftEdge)) == Some(Whole([c]))
  {
    WordsOfJoined([[c]]);
  }

  /**
    `{ marginInlineStart: '1', margin: '5', marginLeft: '2' }` has 2 on the
    left. Renaming the reported key leaves `{ marginInlineStart: '2', margin:
    '5' }`, with 5 there, although no declaration sits below a reported key.
   */
  lemma CollidingKeysChangeTheStyle(env: Env)
    ensures var t := Three(Put(Logical(Margin, Start), Text("1")), Put(Box(Margin), Text("5")),
                           Put(Physical(Margin, Left), Text("2")));
            && StaticKeys(t) && StaticKeys(Rewrite(t))
            && Style(t, env, Ltr, [], At(Margin, LeftEdge)) == Some(Whole("2"))
            && Style(Rewrite(t), env, Ltr, [], At(Margin, LeftEdge)) == Some(Whole("5"))
  {
    var p, q := Put(Logical(Margin, Start), Text("1")), Put(Box(Margin), Text("5"));
    var r := Put(Physical(Margin, Left), Text("2"));
    var left := At(Margin, LeftEdge);
    MarginWritesLeft(env, '5');
    assert Effect(r, env, Ltr, left) == Some(Whole("2"));
    StyleOfThree(p, q, r, env, left);
    CollisionOfThree(p, q, r, env, left);
    WinnerDecides([p, q, r], AsWritten, env, left, 2);
    WinnerDecides([p, q, r], OnceFixed, env, left, 1);
  }
}
