/**
  A literal that is spread is an object first, and then its entries are put
  where the spread stands. Putting its keys there one by one, as `Puts` does,
  makes the same object.
 */
module StyleSpread {
  import opened StyleTree
  import opened StyleMeaning
  import opened StyleOrder

  function AssignAll(entries: seq<Put>, puts: seq<Put>): seq<Put>
    decreases |puts|
  {
    if puts == [] then entries else AssignAll(Assign(entries, puts[0], AsWritten), puts[1..])
  }

  predicate HasKey(entries: seq<Put>, name: Name) {
    exists p :: p in entries && p.name == name
  }

  lemma {:induction false} EntriesOfConcat(a: seq<Put>, b: seq<Put>)
    ensures Entries(a + b, AsWritten) == AssignAll(Entries(a, AsWritten), b)
    decreases |b|
  {
    if b == [] {
      assert a + b == a;
    } else {
      assert a + b == a + [b[0]] + b[1..];
      assert (a + [b[0]])[..|a|] == a;
      EntriesOfConcat(a + [b[0]], b[1..]);
    }
  }

  lemma {:induction false} AssignTwice(entries: seq<Put>, p: Put, q: Put)
    requires p.name == q.name
    ensures Assign(Assign(entries, p, AsWritten), q, AsWritten) == Assign(entries, q, AsWritten)
  {
    if entries != [] {
      AssignTwice(entries[1..], p, q);
    }
  }

  lemma {:induction false} AssignKeepsKeys(entries: seq<Put>, p: Put, name: Name)
    requires HasKey(entries, name) || p.name == name
    ensures HasKey(Assign(entries, p, AsWritten), name)
  {
    var r := Assign(entries, p, AsWritten);
    if entries == [] || entries[0].name == name || p.name == entries[0].name {
      if entries != [] && entries[0].name != name && p.name != name {
        var q :| q in entries && q.name == name;
        assert q in entries[1..] && q in r;
      } else {
        assert r[0] in r;
      }
    } else {
      AssignKeepsKeys(entries[1..], p, name);
      assert forall q :: q in Assign(entries[1..], p, AsWritten) ==> q in r;
    }
  }

  /** A key that is there already can be given its value before or after another key. */
  lemma {:induction false} AssignsCommute(entries: seq<Put>, p: Put, z: Put)
    requires HasKey(entries, p.name) && p.name != z.name
    ensures Assign(Assign(entries, p, AsWritten), z, AsWritten) == Assign(Assign(entries, z, AsWritten), p, AsWritten)
  {
    if entries[0].name != p.name && entries[0].name != z.name {
      AssignsCommute(entries[1..], p, z);
    }
  }

  lemma {:induction false} AssignBeforeOthers(entries: seq<Put>, p: Put, others: seq<Put>)
    requires HasKey(entries, p.name) && forall z :: z in others ==> z.name != p.name
    ensures AssignAll(Assign(entries, p, AsWritten), others) == Assign(AssignAll(entries, others), p, AsWritten)
    decreases |others|
  {
    if others != [] {
      AssignsCommute(entries, p, others[0]);
      AssignKeepsKeys(entries, others[0], p.name);
      AssignBeforeOthers(Assign(entries, others[0], AsWritten), p, others[1..]);
    }
  }

  lemma {:induction false} AssignAllOfAssigned(entries: seq<Put>, inner: seq<Put>, p: Put)
    requires DistinctKeys(inner, AsWritten)
    ensures AssignAll(entries, Assign(inner, p, AsWritten)) == Assign(AssignAll(entries, inner), p, AsWritten)
    decreases |inner|
  {
    if inner != [] {
      var first, rest := inner[0], inner[1..];
      HeadAndTail(inner, AsWritten);
      if first.name == p.name {
        AssignTwice(entries, first, p);
        AssignKeepsKeys(entries, first, p.name);
        AssignBeforeOthers(Assign(entries, first, AsWritten), p, rest);
      } else {
        AssignAllOfAssigned(Assign(entries, first, AsWritten), rest, p);
      }
    }
  }

  lemma {:induction false} AssignAllOfEntries(entries: seq<Put>, b: seq<Put>)
    ensures AssignAll(entries, Entries(b, AsWritten)) == AssignAll(entries, b)
  {
    if b != [] {
      var fewer, last := b[..|b| - 1], b[|b| - 1];
      AssignAllOfEntries(entries, fewer);
      EntriesAreDistinct(fewer, AsWritten);
      AssignAllOfAssigned(entries, Entries(fewer, AsWritten), last);
      AssignAllSnoc(entries, fewer, last);
      assert fewer + [last] == b;
    }
  }

  lemma {:induction false} AssignAllSnoc(entries: seq<Put>, puts: seq<Put>, last: Put)
    ensures AssignAll(entries, puts + [last]) == Assign(AssignAll(entries, puts), last, AsWritten)
    decreases |puts|
  {
    if puts != [] {
      assert (puts + [last])[1..] == puts[1..] + [last];
      AssignAllSnoc(Assign(entries, puts[0], AsWritten), puts[1..], last);
    }
  }

  /** It makes no difference that the spread literal becomes an object of its own first. */
  lemma SpreadMayBeFlattened(a: seq<Put>, b: seq<Put>, c: seq<Put>)
    ensures Entries(a + Entries(b, AsWritten) + c, AsWritten) == Entries(a + b + c, AsWritten)
  {
    EntriesOfConcat(a + Entries(b, AsWritten), c);
    EntriesOfConcat(a + b, c);
    EntriesOfConcat(a, Entries(b, AsWritten));
    EntriesOfConcat(a, b);
    AssignAllOfEntries(Entries(a, AsWritten), b);
  }
}
