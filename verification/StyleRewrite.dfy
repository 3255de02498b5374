/**
  What carrying out the rule's reports does to the left-to-right style. It is
  kept exactly under conditions that can be read off the tree.
 */
module StyleRewrite {
  import opened Wrappers
  import opened StyleTree
  import opened StyleFixes
  import opened StyleMeaning
  import opened StyleOrder

  // ---- the rewrite on what a literal puts

  function FixedText(name: Name, value: Value): Value {
    if name == Align(TextAlign) && value == Text("left") then Text("start")
    else if name == Align(TextAlign) && value == Text("right") then Text("end")
    else value
  }

  function FixedPut(put: Put): Put {
    Put(Called(put.name, OnceFixed),
        if put.value.Block? then Block(Rewrite(put.value.items)) else FixedText(put.name, put.value))
  }

  function FixedPuts(puts: seq<Put>): (r: seq<Put>)
    ensures |r| == |puts|
  {
    seq(|puts|, i requires 0 <= i < |puts| => FixedPut(puts[i]))
  }

  lemma {:induction false} RewriteKeepsStaticItem(item: Item)
    requires StaticItem(item)
    ensures StaticItem(RewriteItem(item))
    decreases item
  {
    if item.value.Block? {
      RewriteKeepsStaticKeys(item.value.items);
    }
  }

  lemma {:induction false} RewriteKeepsStaticKeys(items: seq<Item>)
    requires StaticKeys(items)
    ensures StaticKeys(Rewrite(items))
    decreases items
  {
    if items != [] {
      RewriteKeepsStaticItem(items[0]);
      RewriteKeepsStaticKeys(items[1..]);
      assert Rewrite(items)[1..] == Rewrite(items[1..]);
    }
  }

  lemma {:induction false} PutsOfRewrittenItem(item: Item)
    requires StaticItem(item) && StaticItem(RewriteItem(item))
    ensures PutsOf(RewriteItem(item)) == FixedPuts(PutsOf(item))
    decreases item
  {
    if item.Spread? && item.value.Block? {
      RewriteKeepsStaticKeys(item.value.items);
      PutsOfRewrite(item.value.items);
    }
  }

  /** A rewritten literal puts the rewritten keys and values, in the same order. */
  lemma {:induction false} PutsOfRewrite(items: seq<Item>)
    requires StaticKeys(items) && StaticKeys(Rewrite(items))
    ensures Puts(Rewrite(items)) == FixedPuts(Puts(items))
    decreases items
  {
    if items != [] {
      assert Rewrite(items)[0] == RewriteItem(items[0]);
      assert Rewrite(items)[1..] == Rewrite(items[1..]);
      PutsOfRewrittenItem(items[0]);
      PutsOfRewrite(items[1..]);
    }
  }

  lemma {:induction false} AssignFixed(entries: seq<Put>, put: Put)
    ensures Assign(FixedPuts(entries), FixedPut(put), AsWritten) == FixedPuts(Assign(entries, put, OnceFixed))
  {
    if entries != [] {
      assert FixedPuts(entries)[0] == FixedPut(entries[0]);
      assert FixedPuts(entries)[1..] == FixedPuts(entries[1..]);
      AssignFixed(entries[1..], put);
    }
  }

  lemma {:induction false} EntriesFixed(puts: seq<Put>)
    ensures Entries(FixedPuts(puts), AsWritten) == FixedPuts(Entries(puts, OnceFixed))
  {
    if puts != [] {
      var n := |puts| - 1;
      assert FixedPuts(puts)[..n] == FixedPuts(puts[..n]);
      EntriesFixed(puts[..n]);
      AssignFixed(Entries(puts[..n], OnceFixed), puts[n]);
    }
  }

  lemma {:induction false} LookupFixed(entries: seq<Put>, name: Name)
    ensures Lookup(FixedPuts(entries), name, AsWritten)
         == match Lookup(entries, name, OnceFixed)
            case Some(p) => Some(FixedPut(p))
            case None => None
  {
    if entries != [] {
      assert FixedPuts(entries)[0] == FixedPut(entries[0]);
      assert FixedPuts(entries)[1..] == FixedPuts(entries[1..]);
      LookupFixed(entries[1..], name);
    }
  }

  /** The rewritten style, read as it is written, is the old one read by the names the rule asks for. */
  lemma {:induction false} EntriesAtFixed(puts: seq<Put>, path: seq<Name>)
    requires StaticPuts(puts) && StaticPuts(FixedPuts(puts))
    ensures EntriesAt(FixedPuts(puts), AsWritten, path) == FixedPuts(EntriesAt(puts, OnceFixed, path))
    decreases |path|
  {
    EntriesFixed(puts);
    if path != [] {
      LookupFixed(Entries(puts, OnceFixed), path[0]);
      var entry := Lookup(Entries(puts, OnceFixed), path[0], OnceFixed);
      if entry.Some? && entry.value.value.Block? {
        RewriteKeepsStaticKeys(entry.value.value.items);
        PutsOfRewrite(entry.value.value.items);
      } else {
        assert FixedPuts([]) == [];
      }
      EntriesAtFixed(Inside(entry), path[1..]);
    }
  }

  /** The object at a path by the names the rule asks for. */
  function FixedAt(items: seq<Item>, path: seq<Name>): (r: seq<Put>)
    requires StaticKeys(items)
    ensures StaticPuts(r)
  {
    EntriesAt(Puts(items), OnceFixed, path)
  }

  lemma RewrittenStyleAt(t: seq<Item>, path: seq<Name>)
    requires StaticKeys(t)
    ensures StaticKeys(Rewrite(t)) && StyleAt(Rewrite(t), path) == FixedPuts(FixedAt(t, path))
  {
    RewriteKeepsStaticKeys(t);
    PutsOfRewrite(t);
    EntriesAtFixed(Puts(t), path);
  }

  // ---- when the rewrite keeps the left-to-right style

  lemma FixedPutKeepsEffect(put: Put, env: Env, slot: Slot)
    ensures Effect(FixedPut(put), env, Ltr, slot) == Effect(put, env, Ltr, slot)
  {
  }

  lemma {:induction false} FixedPutsKeepStyle(entries: seq<Put>, env: Env, slot: Slot)
    ensures Resolve(FixedPuts(entries), env, Ltr, slot) == Resolve(entries, env, Ltr, slot)
  {
    if entries != [] {
      var n := |entries| - 1;
      FixedPutKeepsEffect(entries[n], env, slot);
      assert FixedPuts(entries)[..n] == FixedPuts(entries[..n]);
      FixedPutsKeepStyle(entries[..n], env, slot);
    }
  }

  predicate TakesEffect(put: Put, env: Env) {
    !put.value.Block? && Effective(put.name, TextOf(put.value, env))
  }

  lemma TakesEffectSomewhere(put: Put, env: Env)
    ensures TakesEffect(put, env) <==> exists slot :: Effect(put, env, Ltr, slot).Some?
  {
    EffectiveIffWritesSomething(put.name, TextOf(put.value, env));
    if TakesEffect(put, env) {
      var slot :| Written(put.name, TextOf(put.value, env), Ltr, slot).Some?;
      assert Effect(put, env, Ltr, slot).Some?;
    }
  }

  /** A selector or style name on the way that happens to spell a physical property. */
  predicate ThroughReportedKey(path: seq<Name>) {
    exists k :: 0 <= k < |path| && Replacement(path[k]).Some?
  }

  /** No declaration that takes effect sits below a reported key. */
  ghost predicate NothingBelowReportedKey(puts: seq<Put>, env: Env)
    requires StaticPuts(puts)
  {
    forall path, p :: ThroughReportedKey(path) && p in EntriesAt(puts, AsWritten, path) ==> !TakesEffect(p, env)
  }

  /** An object with a reported key and also the key that the rule would have there instead. */
  predicate SharesKey(puts: seq<Put>) {
    exists p, q :: p in puts && q in puts && p.name != q.name && Called(p.name, OnceFixed) == Called(q.name, OnceFixed)
  }

  predicate SharesAlong(puts: seq<Put>, path: seq<Name>)
    requires StaticPuts(puts)
    decreases |path|
  {
    SharesKey(puts) || (path != [] && SharesAlong(Inside(LastPut(puts, path[0], AsWritten)), path[1..]))
  }

  /**
    What decides a place still decides it once keys that come to share a name
    count as one: the path still leads to the same object, and the put that
    wins there now, if it is another one, writes the same.
   */
  predicate WinnerIsKept(before: seq<Put>, after: seq<Put>, env: Env, slot: Slot) {
    forall w :: 0 <= w < |before| && Wins(before, AsWritten, env, slot, w) ==>
      after == before
      && exists x :: 0 <= x < |before| && Wins(before, OnceFixed, env, slot, x)
                     && Effect(before[x], env, Ltr, slot) == Effect(before[w], env, Ltr, slot)
  }

  /** Wherever an object on the way has a reported key beside its replacement, winners are kept. */
  ghost predicate CollisionsAreHarmless(t: seq<Item>, env: Env)
    requires StaticKeys(t)
  {
    forall path, slot :: !ThroughReportedKey(path) && SharesAlong(Puts(t), path) ==>
      WinnerIsKept(PutsAt(Puts(t), AsWritten, path), PutsAt(Puts(t), OnceFixed, path), env, slot)
  }

  // ---- paths under the two namings

  /** What is last when more keys count as one is last when fewer do. */
  lemma HeldOnceFixedIsHeld(puts: seq<Put>, i: nat)
    requires Holds(puts, OnceFixed, i)
    ensures Holds(puts, AsWritten, i)
  {
  }

  lemma FixedEntriesAreEntries(puts: seq<Put>)
    ensures forall p :: p in Entries(puts, OnceFixed) ==> p in Entries(puts, AsWritten)
  {
    EntriesAreLastPuts(puts, OnceFixed);
    EntriesAreLastPuts(puts, AsWritten);
    forall p | IsLastPut(puts, OnceFixed, p) ensures IsLastPut(puts, AsWritten, p) {
      var i: nat :| Holds(puts, OnceFixed, i) && puts[i] == p;
      HeldOnceFixedIsHeld(puts, i);
    }
  }

  lemma {:induction false} NothingInNothing(naming: Naming, path: seq<Name>)
    ensures EntriesAt([], naming, path) == []
    decreases |path|
  {
    if path != [] {
      NothingInNothing(naming, path[1..]);
    }
  }

  /** No path leads through a reported key once the keys are fixed. */
  lemma {:induction false} FixedPathsAvoidReported(puts: seq<Put>, path: seq<Name>)
    requires StaticPuts(puts) && ThroughReportedKey(path)
    ensures EntriesAt(puts, OnceFixed, path) == []
    decreases |path|
  {
    var entry := Lookup(Entries(puts, OnceFixed), path[0], OnceFixed);
    if Replacement(path[0]).Some? {
      NothingInNothing(OnceFixed, path[1..]);
    } else {
      var k :| 0 <= k < |path| && Replacement(path[k]).Some?;
      assert path[1..][k - 1] == path[k];
      FixedPathsAvoidReported(Inside(entry), path[1..]);
    }
  }

  lemma {:induction false} LastFixedPutIsLast(puts: seq<Put>, name: Name)
    requires LastPut(puts, name, OnceFixed).Some?
    ensures LastPut(puts, LastPut(puts, name, OnceFixed).value.name, AsWritten) == LastPut(puts, name, OnceFixed)
  {
    if Called(puts[|puts| - 1].name, OnceFixed) != name {
      LastFixedPutIsLast(puts[..|puts| - 1], name);
    }
  }

  lemma {:induction false} NoPutsInNothing(naming: Naming, path: seq<Name>)
    ensures PutsAt([], naming, path) == []
    decreases |path|
  {
    if path != [] {
      NoPutsInNothing(naming, path[1..]);
    }
  }

  lemma Tail(path: seq<Name>)
    requires path != []
    ensures ThroughReportedKey(path) <==> Replacement(path[0]).Some? || ThroughReportedKey(path[1..])
  {
    assert forall k :: 0 <= k < |path[1..]| ==> path[1..][k] == path[k + 1];
    if ThroughReportedKey(path) && Replacement(path[0]).None? {
      var k :| 0 <= k < |path| && Replacement(path[k]).Some?;
      assert path[1..][k - 1] == path[k];
    }
  }

  /** What a fixed path leads to is what was there by the names it had: the same ones, or a reported one among them. */
  lemma {:induction false} FixedPathHasOrigin(puts: seq<Put>, path: seq<Name>) returns (origin: seq<Name>)
    requires StaticPuts(puts) && !ThroughReportedKey(path)
    ensures PutsAt(puts, OnceFixed, path) == PutsAt(puts, AsWritten, origin)
    ensures origin == path || ThroughReportedKey(origin)
    decreases |path|
  {
    if path == [] { return []; }
    Tail(path);
    var put := LastPut(puts, path[0], OnceFixed);
    if put.None? {
      NoPutsInNothing(OnceFixed, path[1..]);
      NoPutsInNothing(AsWritten, path[1..]);
      assert LastPut(puts, path[0], AsWritten).None?;
      return path;
    }
    LastFixedPutIsLast(puts, path[0]);
    var rest := FixedPathHasOrigin(Inside(put), path[1..]);
    origin := [put.value.name] + rest;
    assert origin[1..] == rest;
    Tail(origin);
    assert put.value.name == path[0] ==> origin == path || ThroughReportedKey(rest);
  }

  lemma {:induction false} IneffectiveEntriesDecideNothing(entries: seq<Put>, env: Env, slot: Slot)
    requires forall p :: p in entries ==> !TakesEffect(p, env)
    ensures Resolve(entries, env, Ltr, slot) == None
  {
    if entries != [] {
      TakesEffectSomewhere(entries[|entries| - 1], env);
      IneffectiveEntriesDecideNothing(entries[..|entries| - 1], env, slot);
    }
  }

  /** A path that no longer leads where it led leads to nothing that takes effect. */
  lemma DivertedPathDecidesNothing(puts: seq<Put>, env: Env, path: seq<Name>, slot: Slot)
    requires StaticPuts(puts) && NothingBelowReportedKey(puts, env) && !ThroughReportedKey(path)
    requires PutsAt(puts, OnceFixed, path) != PutsAt(puts, AsWritten, path)
    ensures Resolve(EntriesAt(puts, OnceFixed, path), env, Ltr, slot) == None
  {
    var origin := FixedPathHasOrigin(puts, path);
    EntriesAtAreThoseOfPutsAt(puts, OnceFixed, path);
    EntriesAtAreThoseOfPutsAt(puts, AsWritten, origin);
    FixedEntriesAreEntries(PutsAt(puts, OnceFixed, path));
    IneffectiveEntriesDecideNothing(EntriesAt(puts, OnceFixed, path), env, slot);
  }

  // ---- one place

  lemma NoWinnerNoneOnceFixed(puts: seq<Put>, env: Env, slot: Slot)
    requires Resolve(Entries(puts, AsWritten), env, Ltr, slot).None?
    ensures Resolve(Entries(puts, OnceFixed), env, Ltr, slot).None?
  {
    if Resolve(Entries(puts, OnceFixed), env, Ltr, slot).Some? {
      var x := DecidedHasWinner(puts, OnceFixed, env, slot);
      HeldOnceFixedIsHeld(puts, x);
      var k := EntryOf(puts, AsWritten, x);
      DeciderIsLast(Entries(puts, AsWritten), env, Ltr, slot, k);
      assert false;
    }
  }

  /** An object decides a place the same under both namings exactly if the winner is kept. */
  lemma ObjectKeepsPlaceIff(puts: seq<Put>, env: Env, slot: Slot)
    ensures Resolve(Entries(puts, OnceFixed), env, Ltr, slot) == Resolve(Entries(puts, AsWritten), env, Ltr, slot)
       <==> WinnerIsKept(puts, puts, env, slot)
  {
    forall i: nat, naming | Wins(puts, naming, env, slot, i)
      ensures Resolve(Entries(puts, naming), env, Ltr, slot) == Effect(puts[i], env, Ltr, slot)
    {
      WinnerDecides(puts, naming, env, slot, i);
    }
    if Resolve(Entries(puts, AsWritten), env, Ltr, slot).None? {
      NoWinnerNoneOnceFixed(puts, env, slot);
    } else {
      var w := DecidedHasWinner(puts, AsWritten, env, slot);
      if Resolve(Entries(puts, OnceFixed), env, Ltr, slot).Some? {
        var x := DecidedHasWinner(puts, OnceFixed, env, slot);
      }
    }
  }

  /** And so does a place at any path that leads through no reported key. */
  lemma PlaceKeptIff(puts: seq<Put>, env: Env, path: seq<Name>, slot: Slot)
    requires StaticPuts(puts) && NothingBelowReportedKey(puts, env) && !ThroughReportedKey(path)
    ensures Resolve(EntriesAt(puts, OnceFixed, path), env, Ltr, slot)
            == Resolve(EntriesAt(puts, AsWritten, path), env, Ltr, slot)
       <==> WinnerIsKept(PutsAt(puts, AsWritten, path), PutsAt(puts, OnceFixed, path), env, slot)
  {
    var before, after := PutsAt(puts, AsWritten, path), PutsAt(puts, OnceFixed, path);
    EntriesAtAreThoseOfPutsAt(puts, OnceFixed, path);
    EntriesAtAreThoseOfPutsAt(puts, AsWritten, path);
    if after == before {
      ObjectKeepsPlaceIff(before, env, slot);
    } else {
      DivertedPathDecidesNothing(puts, env, path, slot);
      if Resolve(Entries(before, AsWritten), env, Ltr, slot).Some? {
        var w := DecidedHasWinner(before, AsWritten, env, slot);
      }
      forall w: nat | Wins(before, AsWritten, env, slot, w)
        ensures Resolve(Entries(before, AsWritten), env, Ltr, slot).Some?
      {
        WinnerDecides(before, AsWritten, env, slot, w);
      }
    }
  }

  // ---- where no keys come to share a name

  lemma UnsharedHolds(puts: seq<Put>, i: nat)
    requires !SharesKey(puts) && i < |puts|
    ensures Holds(puts, OnceFixed, i) <==> Holds(puts, AsWritten, i)
    ensures PositionOf(puts, OnceFixed, i) == PositionOf(puts, AsWritten, i)
  {
    assert forall j :: 0 <= j < |puts| ==> puts[j] in puts;
  }

  lemma UnsharedObjectKeepsWinners(puts: seq<Put>, env: Env, slot: Slot)
    requires !SharesKey(puts)
    ensures WinnerIsKept(puts, puts, env, slot)
  {
    forall i: nat | i < |puts|
      ensures Holds(puts, OnceFixed, i) <==> Holds(puts, AsWritten, i)
      ensures PositionOf(puts, OnceFixed, i) == PositionOf(puts, AsWritten, i)
    {
      UnsharedHolds(puts, i);
    }
    forall w | 0 <= w < |puts| && Wins(puts, AsWritten, env, slot, w)
      ensures Wins(puts, OnceFixed, env, slot, w)
    {
    }
  }

  lemma {:induction false} UnsharedLastPut(puts: seq<Put>, name: Name)
    requires !SharesKey(puts) && Replacement(name).None? && LastPut(puts, name, AsWritten).Some?
    ensures LastPut(puts, name, OnceFixed) == LastPut(puts, name, AsWritten)
  {
    var found, last := LastPut(puts, name, AsWritten).value, puts[|puts| - 1];
    assert last in puts && forall p :: p in puts[..|puts| - 1] ==> p in puts;
    if Called(last.name, OnceFixed) == name {
      assert found.name == last.name;
    } else {
      UnsharedLastPut(puts[..|puts| - 1], name);
    }
  }

  /** Without shared keys on the way a path leads where it led, or led nowhere. */
  lemma {:induction false} UnsharedPath(puts: seq<Put>, path: seq<Name>)
    requires StaticPuts(puts) && !ThroughReportedKey(path) && !SharesAlong(puts, path)
    ensures PutsAt(puts, AsWritten, path) != [] ==> PutsAt(puts, OnceFixed, path) == PutsAt(puts, AsWritten, path)
    ensures !SharesKey(PutsAt(puts, AsWritten, path))
    decreases |path|
  {
    if path != [] {
      Tail(path);
      var put := LastPut(puts, path[0], AsWritten);
      if put.Some? {
        UnsharedLastPut(puts, path[0]);
        UnsharedPath(Inside(put), path[1..]);
      } else {
        NoPutsInNothing(AsWritten, path[1..]);
      }
    }
  }

  /** Where no reported key stands beside its replacement, every place is kept. */
  lemma UnsharedPlaceIsKept(puts: seq<Put>, env: Env, path: seq<Name>, slot: Slot)
    requires StaticPuts(puts) && NothingBelowReportedKey(puts, env)
    requires !ThroughReportedKey(path) && !SharesAlong(puts, path)
    ensures Resolve(EntriesAt(puts, OnceFixed, path), env, Ltr, slot)
         == Resolve(EntriesAt(puts, AsWritten, path), env, Ltr, slot)
  {
    UnsharedPath(puts, path);
    UnsharedObjectKeepsWinners(PutsAt(puts, AsWritten, path), env, slot);
    PlaceKeptIff(puts, env, path, slot);
  }

  // ---- the exact condition

  lemma PlaceAfterRewrite(t: seq<Item>, env: Env, path: seq<Name>, slot: Slot)
    requires StaticKeys(t) && StaticKeys(Rewrite(t))
    ensures Style(Rewrite(t), env, Ltr, path, slot) == Resolve(FixedAt(t, path), env, Ltr, slot)
  {
    RewrittenStyleAt(t, path);
    FixedPutsKeepStyle(FixedAt(t, path), env, slot);
  }

  lemma LostBelowReportedKey(t: seq<Item>, env: Env, path: seq<Name>, p: Put)
    requires StaticKeys(t) && StaticKeys(Rewrite(t))
    requires ThroughReportedKey(path) && p in StyleAt(t, path) && TakesEffect(p, env)
    ensures !SameStyle(Rewrite(t), t, env, Ltr)
  {
    TakesEffectSomewhere(p, env);
    var slot :| Effect(p, env, Ltr, slot).Some?;
    PlaceAfterRewrite(t, env, path, slot);
    FixedPathsAvoidReported(Puts(t), path);
    ResolvesIfWritten(StyleAt(t, path), env, Ltr, slot, p);
    assert Style(Rewrite(t), env, Ltr, path, slot) != Style(t, env, Ltr, path, slot);
  }

  lemma ResolvesIfWritten(entries: seq<Put>, env: Env, dir: Direction, slot: Slot, p: Put)
    requires p in entries && Effect(p, env, dir, slot).Some?
    ensures Resolve(entries, env, dir, slot).Some?
  {
    var i :| 0 <= i < |entries| && entries[i] == p;
    assert Decider(entries, env, dir, slot).Some?;
  }

  lemma KeptStyleKeepsWinners(t: seq<Item>, env: Env)
    requires StaticKeys(t) && StaticKeys(Rewrite(t)) && SameStyle(Rewrite(t), t, env, Ltr)
    requires NothingBelowReportedKey(Puts(t), env)
    ensures CollisionsAreHarmless(t, env)
  {
    forall path, slot | !ThroughReportedKey(path)
      ensures WinnerIsKept(PutsAt(Puts(t), AsWritten, path), PutsAt(Puts(t), OnceFixed, path), env, slot)
    {
      PlaceAfterRewrite(t, env, path, slot);
      assert Style(Rewrite(t), env, Ltr, path, slot) == Style(t, env, Ltr, path, slot);
      PlaceKeptIff(Puts(t), env, path, slot);
    }
  }

  lemma PlaceIsKept(t: seq<Item>, env: Env, path: seq<Name>, slot: Slot)
    requires StaticKeys(t) && StaticKeys(Rewrite(t))
    requires NothingBelowReportedKey(Puts(t), env) && CollisionsAreHarmless(t, env)
    ensures Style(Rewrite(t), env, Ltr, path, slot) == Style(t, env, Ltr, path, slot)
  {
    PlaceAfterRewrite(t, env, path, slot);
    if ThroughReportedKey(path) {
      FixedPathsAvoidReported(Puts(t), path);
      IneffectiveEntriesDecideNothing(StyleAt(t, path), env, slot);
    } else if SharesAlong(Puts(t), path) {
      PlaceKeptIff(Puts(t), env, path, slot);
    } else {
      UnsharedPlaceIsKept(Puts(t), env, path, slot);
    }
  }

  lemma KeptStyleHasNothingBelow(t: seq<Item>, env: Env)
    requires StaticKeys(t) && StaticKeys(Rewrite(t)) && SameStyle(Rewrite(t), t, env, Ltr)
    ensures NothingBelowReportedKey(Puts(t), env)
  {
    forall path, p | ThroughReportedKey(path) && p in EntriesAt(Puts(t), AsWritten, path)
      ensures !TakesEffect(p, env)
    {
      if TakesEffect(p, env) {
        LostBelowReportedKey(t, env, path, p);
      }
    }
  }

  lemma StyleIsKept(t: seq<Item>, env: Env)
    requires StaticKeys(t) && StaticKeys(Rewrite(t))
    requires NothingBelowReportedKey(Puts(t), env) && CollisionsAreHarmless(t, env)
    ensures SameStyle(Rewrite(t), t, env, Ltr)
  {
    forall path, slot
      ensures Style(Rewrite(t), env, Ltr, path, slot) == Style(t, env, Ltr, path, slot)
    {
      PlaceIsKept(t, env, path, slot);
    }
  }

  /**
    The rewrite keeps the left-to-right style if and only if no declaration
    that takes effect sits below a reported key, and wherever keys come to
    share a name the put that wins a place is kept.
   */
  lemma RewriteKeepsLtrStyle(t: seq<Item>, env: Env)
    requires StaticKeys(t)
    ensures StaticKeys(Rewrite(t))
    ensures SameStyle(Rewrite(t), t, env, Ltr)
       <==> NothingBelowReportedKey(Puts(t), env) && CollisionsAreHarmless(t, env)
  {
    RewriteKeepsStaticKeys(t);
    if SameStyle(Rewrite(t), t, env, Ltr) {
      KeptStyleHasNothingBelow(t, env);
      KeptStyleKeepsWinners(t, env);
    } else if NothingBelowReportedKey(Puts(t), env) && CollisionsAreHarmless(t, env) {
      StyleIsKept(t, env);
    }
  }
}
