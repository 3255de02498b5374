/**
  Which put decides a place: a key holds the value of its last put, at the
  place of its first put. This is the object that JavaScript makes, told by the
  order of the puts alone.
 */
module StyleOrder {
  import opened Wrappers
  import opened StyleTree
  import opened StyleMeaning

  // ---- positions and winners

  /** The position of a key: that of its first put; the length if there is none. */
  function Position(puts: seq<Put>, name: Name, naming: Naming): (i: nat)
    ensures i <= |puts|
    ensures i < |puts| ==> Called(puts[i].name, naming) == name
    ensures forall j :: 0 <= j < i ==> Called(puts[j].name, naming) != name
  {
    if puts == [] then 0
    else if Called(puts[0].name, naming) == name then 0
    else 1 + Position(puts[1..], name, naming)
  }

  /** The position of the key that put `i` puts. */
  function PositionOf(puts: seq<Put>, naming: Naming, i: nat): (k: nat)
    requires i < |puts|
    ensures k <= i && Called(puts[k].name, naming) == Called(puts[i].name, naming)
    ensures forall j :: 0 <= j < k ==> Called(puts[j].name, naming) != Called(puts[i].name, naming)
  {
    Position(puts, Called(puts[i].name, naming), naming)
  }

  /** Put `i` is the last one of its key. */
  predicate Holds(puts: seq<Put>, naming: Naming, i: nat) {
    i < |puts| && forall j :: i < j < |puts| ==> Called(puts[j].name, naming) != Called(puts[i].name, naming)
  }

  /** Put `i` is the last one of its key, and writes the place. */
  predicate Writes(puts: seq<Put>, naming: Naming, env: Env, slot: Slot, i: nat) {
    Holds(puts, naming, i) && Effect(puts[i], env, Ltr, slot).Some?
  }

  /** Of the puts that write the place, `i` has the key with the latest position. */
  predicate Wins(puts: seq<Put>, naming: Naming, env: Env, slot: Slot, i: nat) {
    Writes(puts, naming, env, slot, i)
    && forall j :: 0 <= j < |puts| && Writes(puts, naming, env, slot, j) ==>
         PositionOf(puts, naming, j) <= PositionOf(puts, naming, i)
  }

  /** The last put of a key. */
  function LastPut(puts: seq<Put>, name: Name, naming: Naming): (r: Option<Put>)
    ensures r.Some? ==> r.value in puts && Called(r.value.name, naming) == name
    ensures r.None? ==> forall p :: p in puts ==> Called(p.name, naming) != name
  {
    if puts == [] then None
    else if Called(puts[|puts| - 1].name, naming) == name then Some(puts[|puts| - 1])
    else LastPut(puts[..|puts| - 1], name, naming)
  }

  /** What the object at a path is given: follow the last put of each key on the way. */
  function PutsAt(puts: seq<Put>, naming: Naming, path: seq<Name>): (r: seq<Put>)
    requires StaticPuts(puts)
    ensures StaticPuts(r)
    decreases |path|
  {
    if path == [] then puts else PutsAt(Inside(LastPut(puts, path[0], naming)), naming, path[1..])
  }

  // ---- entries

  /** The index of the entry that decides a place. */
  function Decider(entries: seq<Put>, env: Env, dir: Direction, slot: Slot): (i: Option<nat>)
    ensures i.Some? ==> i.value < |entries| && Effect(entries[i.value], env, dir, slot).Some?
    ensures forall j :: (if i.Some? then i.value + 1 else 0) <= j < |entries| ==>
              Effect(entries[j], env, dir, slot).None?
    ensures Resolve(entries, env, dir, slot) == if i.Some? then Effect(entries[i.value], env, dir, slot) else None
  {
    if entries == [] then None
    else if Effect(entries[|entries| - 1], env, dir, slot).Some? then Some(|entries| - 1)
    else Decider(entries[..|entries| - 1], env, dir, slot)
  }

  predicate DistinctKeys(entries: seq<Put>, naming: Naming) {
    forall i, j :: 0 <= i < j < |entries| ==> Called(entries[i].name, naming) != Called(entries[j].name, naming)
  }

  lemma HeadAndTail(entries: seq<Put>, naming: Naming)
    requires entries != []
    ensures forall p :: p in entries <==> p == entries[0] || p in entries[1..]
    ensures DistinctKeys(entries, naming)
       <==> && DistinctKeys(entries[1..], naming)
            && forall p :: p in entries[1..] ==> Called(p.name, naming) != Called(entries[0].name, naming)
  {
    assert forall j :: 0 < j < |entries| ==> entries[j] == entries[1..][j - 1] && entries[j] in entries[1..];
  }

  lemma {:induction false} AssignPutsOne(entries: seq<Put>, put: Put, naming: Naming)
    requires DistinctKeys(entries, naming)
    ensures forall p :: p in Assign(entries, put, naming)
              <==> p == put || (p in entries && Called(p.name, naming) != Called(put.name, naming))
    ensures DistinctKeys(Assign(entries, put, naming), naming)
  {
    if entries != [] {
      HeadAndTail(entries, naming);
      AssignPutsOne(entries[1..], put, naming);
      HeadAndTail(Assign(entries, put, naming), naming);
    }
  }

  lemma {:induction false} EntriesAreDistinct(puts: seq<Put>, naming: Naming)
    ensures DistinctKeys(Entries(puts, naming), naming)
  {
    if puts != [] {
      EntriesAreDistinct(puts[..|puts| - 1], naming);
      AssignPutsOne(Entries(puts[..|puts| - 1], naming), puts[|puts| - 1], naming);
    }
  }

  lemma {:induction false} LookupFinds(entries: seq<Put>, put: Put, naming: Naming)
    requires DistinctKeys(entries, naming) && put in entries
    ensures Lookup(entries, Called(put.name, naming), naming) == Some(put)
  {
    if put != entries[0] {
      var i :| 0 <= i < |entries| && entries[i] == put;
      assert put == entries[1..][i - 1];
      LookupFinds(entries[1..], put, naming);
    }
  }

  // ---- the entries are the last puts, by position

  lemma HoldsAfter(puts: seq<Put>, naming: Naming, i: nat)
    requires puts != []
    ensures Holds(puts, naming, i)
       <==> i == |puts| - 1
            || (Holds(puts[..|puts| - 1], naming, i)
                && Called(puts[i].name, naming) != Called(puts[|puts| - 1].name, naming))
  {
  }

  ghost predicate IsLastPut(puts: seq<Put>, naming: Naming, p: Put) {
    exists i: nat :: Holds(puts, naming, i) && puts[i] == p
  }

  lemma IsLastPutAfter(puts: seq<Put>, naming: Naming, p: Put)
    requires puts != []
    ensures IsLastPut(puts, naming, p)
       <==> p == puts[|puts| - 1]
            || (IsLastPut(puts[..|puts| - 1], naming, p)
                && Called(p.name, naming) != Called(puts[|puts| - 1].name, naming))
  {
    var before, last := puts[..|puts| - 1], puts[|puts| - 1];
    if IsLastPut(puts, naming, p) {
      var i: nat :| Holds(puts, naming, i) && puts[i] == p;
      HoldsAfter(puts, naming, i);
      assert i < |before| ==> Holds(before, naming, i) && before[i] == p;
    }
    if IsLastPut(before, naming, p) && Called(p.name, naming) != Called(last.name, naming) {
      var i: nat :| Holds(before, naming, i) && before[i] == p;
      HoldsAfter(puts, naming, i);
      assert Holds(puts, naming, i) && puts[i] == p;
    }
    assert Holds(puts, naming, |puts| - 1);
  }

  /** The entries are the last puts of their keys. */
  lemma {:induction false} EntriesAreLastPuts(puts: seq<Put>, naming: Naming)
    ensures forall p :: p in Entries(puts, naming) <==> IsLastPut(puts, naming, p)
  {
    if puts != [] {
      var before, last := puts[..|puts| - 1], puts[|puts| - 1];
      EntriesAreLastPuts(before, naming);
      EntriesAreDistinct(before, naming);
      AssignPutsOne(Entries(before, naming), last, naming);
      forall p ensures p in Entries(puts, naming) <==> IsLastPut(puts, naming, p) {
        IsLastPutAfter(puts, naming, p);
      }
    }
  }

  function Names(entries: seq<Put>, naming: Naming): (names: seq<Name>)
    ensures |names| == |entries|
  {
    seq(|entries|, i requires 0 <= i < |entries| => Called(entries[i].name, naming))
  }

  lemma {:induction false} NamesAfter(entries: seq<Put>, put: Put, naming: Naming)
    ensures var name := Called(put.name, naming);
            Names(Assign(entries, put, naming), naming)
            == if name in Names(entries, naming) then Names(entries, naming) else Names(entries, naming) + [name]
  {
    if entries != [] {
      var names := Names(entries, naming);
      assert names == [Called(entries[0].name, naming)] + Names(entries[1..], naming);
      var r := Assign(entries, put, naming);
      assert Names(r, naming) == [Called(r[0].name, naming)] + Names(r[1..], naming);
      NamesAfter(entries[1..], put, naming);
      if Called(entries[0].name, naming) == Called(put.name, naming) {
        assert r[1..] == entries[1..];
      } else {
        assert r[1..] == Assign(entries[1..], put, naming);
      }
    }
  }

  /** These are the names put. */
  ghost predicate AreNames(puts: seq<Put>, naming: Naming, names: seq<Name>) {
    forall name :: name in names <==> Position(puts, name, naming) < |puts|
  }

  /** They stand in the order in which they first were put. */
  predicate InPosition(puts: seq<Put>, naming: Naming, names: seq<Name>) {
    forall k, l :: 0 <= k < l < |names| ==> Position(puts, names[k], naming) < Position(puts, names[l], naming)
  }

  lemma {:induction false} PositionAfter(puts: seq<Put>, last: Put, naming: Naming, name: Name)
    ensures Position(puts + [last], name, naming)
         == if Position(puts, name, naming) < |puts| then Position(puts, name, naming)
            else if Called(last.name, naming) == name then |puts| else |puts| + 1
  {
    if puts == [] {
      assert puts + [last] == [last] && [last][1..] == [];
    } else {
      assert (puts + [last])[1..] == puts[1..] + [last];
      PositionAfter(puts[1..], last, naming, name);
    }
  }

  lemma OneMoreName(puts: seq<Put>, last: Put, naming: Naming, names: seq<Name>, after: seq<Name>)
    requires AreNames(puts, naming, names)
    requires forall name :: name in after <==> name in names || name == Called(last.name, naming)
    ensures AreNames(puts + [last], naming, after)
  {
    forall name ensures name in after <==> Position(puts + [last], name, naming) < |puts + [last]| {
      PositionAfter(puts, last, naming, name);
    }
  }

  lemma OneMoreInPosition(puts: seq<Put>, last: Put, naming: Naming, names: seq<Name>, after: seq<Name>)
    requires AreNames(puts, naming, names) && InPosition(puts, naming, names)
    requires after == names || (after == names + [Called(last.name, naming)] && Called(last.name, naming) !in names)
    ensures InPosition(puts + [last], naming, after)
  {
    forall k, l | 0 <= k < l < |after|
      ensures Position(puts + [last], after[k], naming) < Position(puts + [last], after[l], naming)
    {
      PositionAfter(puts, last, naming, after[k]);
      PositionAfter(puts, last, naming, after[l]);
      assert after[k] == names[k] && names[k] in names;
      if l < |names| {
        assert after[l] == names[l] && names[l] in names;
      }
    }
  }

  ghost predicate EntriesInPosition(puts: seq<Put>, naming: Naming) {
    var names := Names(Entries(puts, naming), naming);
    AreNames(puts, naming, names) && InPosition(puts, naming, names)
  }

  lemma OneMoreEntry(puts: seq<Put>, last: Put, naming: Naming)
    requires EntriesInPosition(puts, naming)
    ensures EntriesInPosition(puts + [last], naming)
  {
    var names := Names(Entries(puts, naming), naming);
    assert (puts + [last])[..|puts|] == puts;
    var after := Names(Assign(Entries(puts, naming), last, naming), naming);
    NamesAfter(Entries(puts, naming), last, naming);
    OneMoreName(puts, last, naming, names, after);
    OneMoreInPosition(puts, last, naming, names, after);
  }

  /** The entries stand in the order in which their keys were first put. */
  lemma {:induction false} EntriesAreInPosition(puts: seq<Put>, naming: Naming)
    ensures EntriesInPosition(puts, naming)
  {
    if puts != [] {
      EntriesAreInPosition(puts[..|puts| - 1], naming);
      OneMoreEntry(puts[..|puts| - 1], puts[|puts| - 1], naming);
      assert puts[..|puts| - 1] + [puts[|puts| - 1]] == puts;
    }
  }

  // ---- the winner decides the place

  /** A last put is an entry, and its key has the entry's position. */
  lemma EntryOf(puts: seq<Put>, naming: Naming, i: nat) returns (k: nat)
    requires Holds(puts, naming, i)
    ensures k < |Entries(puts, naming)| && Entries(puts, naming)[k] == puts[i]
    ensures PositionOf(puts, naming, i) == Position(puts, Names(Entries(puts, naming), naming)[k], naming)
  {
    var entries := Entries(puts, naming);
    EntriesAreLastPuts(puts, naming);
    assert IsLastPut(puts, naming, puts[i]);
    k :| 0 <= k < |entries| && entries[k] == puts[i];
  }

  lemma PutOf(puts: seq<Put>, naming: Naming, k: nat) returns (i: nat)
    requires k < |Entries(puts, naming)|
    ensures Holds(puts, naming, i) && puts[i] == Entries(puts, naming)[k]
    ensures PositionOf(puts, naming, i) == Position(puts, Names(Entries(puts, naming), naming)[k], naming)
  {
    EntriesAreLastPuts(puts, naming);
    assert Entries(puts, naming)[k] in Entries(puts, naming);
    i :| Holds(puts, naming, i) && puts[i] == Entries(puts, naming)[k];
  }

  lemma LaterEntryIsLater(puts: seq<Put>, naming: Naming, k: nat, l: nat)
    requires k < l < |Entries(puts, naming)|
    ensures var names := Names(Entries(puts, naming), naming);
            Position(puts, names[k], naming) < Position(puts, names[l], naming)
  {
    EntriesAreInPosition(puts, naming);
  }

  /** A place that is decided has a winner, and what it writes decides. */
  lemma DecidedHasWinner(puts: seq<Put>, naming: Naming, env: Env, slot: Slot) returns (i: nat)
    requires Resolve(Entries(puts, naming), env, Ltr, slot).Some?
    ensures Wins(puts, naming, env, slot, i)
    ensures Resolve(Entries(puts, naming), env, Ltr, slot) == Effect(puts[i], env, Ltr, slot)
  {
    var d := Decider(Entries(puts, naming), env, Ltr, slot).value;
    i := PutOf(puts, naming, d);
    forall j | 0 <= j < |puts| && Writes(puts, naming, env, slot, j)
      ensures PositionOf(puts, naming, j) <= PositionOf(puts, naming, i)
    {
      WriterIsNoLater(puts, naming, env, slot, d, j);
    }
  }

  lemma DeciderIsLast(entries: seq<Put>, env: Env, dir: Direction, slot: Slot, l: nat)
    requires l < |entries| && Effect(entries[l], env, dir, slot).Some?
    ensures Decider(entries, env, dir, slot).Some? && l <= Decider(entries, env, dir, slot).value
  {
  }

  lemma WriterIsNoLater(puts: seq<Put>, naming: Naming, env: Env, slot: Slot, d: nat, j: nat)
    requires Decider(Entries(puts, naming), env, Ltr, slot) == Some(d) && Writes(puts, naming, env, slot, j)
    ensures PositionOf(puts, naming, j) <= Position(puts, Names(Entries(puts, naming), naming)[d], naming)
  {
    var l := EntryOf(puts, naming, j);
    DeciderIsLast(Entries(puts, naming), env, Ltr, slot, l);
    if l != d {
      LaterEntryIsLater(puts, naming, l, d);
    }
  }

  lemma SamePositionSamePut(puts: seq<Put>, naming: Naming, i: nat, j: nat)
    requires Holds(puts, naming, i) && Holds(puts, naming, j)
    requires PositionOf(puts, naming, i) == PositionOf(puts, naming, j)
    ensures i == j
  {
    assert Called(puts[i].name, naming) == Called(puts[j].name, naming);
  }

  /** The winner decides the place. */
  lemma WinnerDecides(puts: seq<Put>, naming: Naming, env: Env, slot: Slot, i: nat)
    requires Wins(puts, naming, env, slot, i)
    ensures Resolve(Entries(puts, naming), env, Ltr, slot) == Effect(puts[i], env, Ltr, slot)
  {
    var k := EntryOf(puts, naming, i);
    DeciderIsLast(Entries(puts, naming), env, Ltr, slot, k);
    var j := DecidedHasWinner(puts, naming, env, slot);
    SamePositionSamePut(puts, naming, i, j);
  }

  // ---- along a path

  lemma LookupIsLastPut(puts: seq<Put>, name: Name, naming: Naming)
    ensures Lookup(Entries(puts, naming), name, naming) == LastPut(puts, name, naming)
  {
    var entries := Entries(puts, naming);
    EntriesAreDistinct(puts, naming);
    EntriesAreLastPuts(puts, naming);
    LastPutIsLast(puts, name, naming);
    var last := LastPut(puts, name, naming);
    if last.Some? {
      LookupFinds(entries, last.value, naming);
    }
  }

  lemma {:induction false} LastPutIsLast(puts: seq<Put>, name: Name, naming: Naming)
    ensures LastPut(puts, name, naming).Some? ==> IsLastPut(puts, naming, LastPut(puts, name, naming).value)
  {
    if puts != [] && Called(puts[|puts| - 1].name, naming) != name {
      LastPutIsLast(puts[..|puts| - 1], name, naming);
      if LastPut(puts, name, naming).Some? {
        IsLastPutAfter(puts, naming, LastPut(puts, name, naming).value);
      }
    } else if puts != [] {
      IsLastPutAfter(puts, naming, puts[|puts| - 1]);
    }
  }

  /** The object at a path is made of the puts that the order of the puts leads to. */
  lemma {:induction false} EntriesAtAreThoseOfPutsAt(puts: seq<Put>, naming: Naming, path: seq<Name>)
    requires StaticPuts(puts)
    ensures EntriesAt(puts, naming, path) == Entries(PutsAt(puts, naming, path), naming)
    decreases |path|
  {
    if path != [] {
      LookupIsLastPut(puts, path[0], naming);
      EntriesAtAreThoseOfPutsAt(Inside(LastPut(puts, path[0], naming)), naming, path[1..]);
    }
  }
}
