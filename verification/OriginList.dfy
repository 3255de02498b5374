/**
  The list of allowed origins. The API's environment and the realtime gateway
  each parse the same variable with the same expression; `Parse` is both.
 */
module OriginList {
  import opened Wrappers

  /** `s.split(',')`: always at least one part. */
  function Split(s: string): (parts: seq<string>)
    ensures parts != []
  {
    SplitFrom(s, "")
  }

  function SplitFrom(s: string, part: string): (parts: seq<string>)
    ensures parts != []
  {
    if s == "" then [part]
    else if s[0] == ',' then [part] + SplitFrom(s[1..], "")
    else SplitFrom(s[1..], part + [s[0]])
  }

  /** The white space and line terminators that `trim` removes. */
  predicate Space(c: char) {
    '\t' <= c <= '\r' || c == ' ' || c == '\U{00A0}' || c == '\U{1680}' || '\U{2000}' <= c <= '\U{200A}'
    || c == '\U{2028}' || c == '\U{2029}' || c == '\U{202F}' || c == '\U{205F}' || c == '\U{3000}' || c == '\U{FEFF}'
  }

  function TrimStart(s: string): string {
    if s != "" && Space(s[0]) then TrimStart(s[1..]) else s
  }

  function TrimEnd(s: string): string {
    if s != "" && Space(s[|s| - 1]) then TrimEnd(s[..|s| - 1]) else s
  }

  function Trim(s: string): string {
    TrimEnd(TrimStart(s))
  }

  /** `.map(trim).filter(Boolean)`. */
  function Cleaned(parts: seq<string>): seq<string> {
    if parts == [] then []
    else (if Trim(parts[0]) == "" then [] else [Trim(parts[0])]) + Cleaned(parts[1..])
  }

  /** The variable's value; unset reads as empty. */
  function Parse(variable: Option<string>): seq<string> {
    Cleaned(Split(variable.GetOr("")))
  }

  /** An entry as an operator would write it: not empty, no comma, no space around it. */
  predicate Entry(s: string) {
    s != "" && ',' !in s && !Space(s[0]) && !Space(s[|s| - 1])
  }

  function Join(entries: seq<string>): string {
    if entries == [] then ""
    else if |entries| == 1 then entries[0]
    else entries[0] + "," + Join(entries[1..])
  }

  // ---- splitting

  lemma {:induction false} SplitWithoutComma(s: string, part: string)
    requires ',' !in s
    ensures SplitFrom(s, part) == [part + s]
  {
    if s != "" {
      SplitWithoutComma(s[1..], part + [s[0]]);
      assert part + [s[0]] + s[1..] == part + s;
    } else {
      assert part + s == part;
    }
  }

  /** Splitting at a comma splits both sides. */
  lemma {:induction false} SplitAtComma(s: string, t: string, part: string)
    ensures SplitFrom(s + "," + t, part) == SplitFrom(s, part) + Split(t)
  {
    if s == "" {
      assert ("" + "," + t)[0] == ',' && ("" + "," + t)[1..] == t;
    } else {
      assert (s + "," + t)[0] == s[0] && (s + "," + t)[1..] == s[1..] + "," + t;
      SplitAtComma(s[1..], t, if s[0] == ',' then "" else part + [s[0]]);
    }
  }

  lemma {:induction false} CleanedConcat(a: seq<string>, b: seq<string>)
    ensures Cleaned(a + b) == Cleaned(a) + Cleaned(b)
  {
    if a == [] {
      assert a + b == b;
    } else {
      assert (a + b)[1..] == a[1..] + b;
      CleanedConcat(a[1..], b);
    }
  }

  // ---- trimming

  lemma {:induction false} TrimStartLeavesNoSpace(s: string)
    ensures TrimStart(s) == "" || !Space(TrimStart(s)[0])
    ensures forall c :: c in TrimStart(s) ==> c in s
  {
    if s != "" && Space(s[0]) {
      TrimStartLeavesNoSpace(s[1..]);
    }
  }

  lemma {:induction false} TrimEndLeavesNoSpace(s: string)
    ensures TrimEnd(s) == "" || !Space(TrimEnd(s)[|TrimEnd(s)| - 1])
    ensures TrimEnd(s) == "" || (s != "" && TrimEnd(s)[0] == s[0])
    ensures forall c :: c in TrimEnd(s) ==> c in s
  {
    if s != "" && Space(s[|s| - 1]) {
      TrimEndLeavesNoSpace(s[..|s| - 1]);
    }
  }

  lemma TrimGivesEntry(s: string)
    requires ',' !in s
    ensures Trim(s) == "" || Entry(Trim(s))
  {
    TrimStartLeavesNoSpace(s);
    TrimEndLeavesNoSpace(TrimStart(s));
  }

  lemma {:induction false} CleanedGivesEntries(parts: seq<string>)
    requires forall p :: p in parts ==> ',' !in p
    ensures forall e :: e in Cleaned(parts) ==> Entry(e)
  {
    if parts != [] {
      TrimGivesEntry(parts[0]);
      CleanedGivesEntries(parts[1..]);
    }
  }

  lemma {:induction false} SplitGivesNoComma(s: string, part: string)
    requires ',' !in part
    ensures forall p :: p in SplitFrom(s, part) ==> ',' !in p
  {
    if s != "" {
      SplitGivesNoComma(s[1..], if s[0] == ',' then "" else part + [s[0]]);
    }
  }

  // ---- what the parser promises

  /** Parsing the join of two lists is parsing both. */
  lemma ParseOfJoined(s: string, t: string)
    ensures Parse(Some(s + "," + t)) == Parse(Some(s)) + Parse(Some(t))
  {
    SplitAtComma(s, t, "");
    CleanedConcat(Split(s), Split(t));
  }

  lemma ParseOfEntry(e: string)
    requires Entry(e)
    ensures Parse(Some(e)) == [e]
  {
    SplitWithoutComma(e, "");
    assert "" + e == e;
    assert Split(e) == [e] && [e][1..] == [];
    assert TrimStart(e) == e && TrimEnd(e) == e && Trim(e) == e;
    assert Cleaned([e]) == [e] + Cleaned([]);
  }

  /** Parsing undoes joining, for every list of entries. */
  lemma {:induction false} ParseUndoesJoin(entries: seq<string>)
    requires forall e :: e in entries ==> Entry(e)
    ensures Parse(Some(Join(entries))) == entries
  {
    if entries == [] {
      assert Split("") == [""] && [""][1..] == [];
    } else if |entries| == 1 {
      ParseOfEntry(entries[0]);
    } else {
      ParseOfEntry(entries[0]);
      ParseUndoesJoin(entries[1..]);
      ParseOfJoined(entries[0], Join(entries[1..]));
    }
  }

  /** White space as JavaScript's `trim` has it. */
  lemma SpacesWrittenOut(c: char)
    ensures Space(c) <==> c in "\t\U{000B}\U{000C} \U{00A0}\U{FEFF}\n\r\U{2028}\U{2029}\U{1680}\U{2000}\U{2001}\U{2002}"
                              + "\U{2003}\U{2004}\U{2005}\U{2006}\U{2007}\U{2008}\U{2009}\U{200A}"
                              + "\U{202F}\U{205F}\U{3000}"
  {
  }

  predicate Spaces(s: string) {
    forall c :: c in s ==> Space(c)
  }

  lemma {:induction false} TrimStartDropsSpaces(before: string, s: string)
    requires Spaces(before) && (s == "" || !Space(s[0]))
    ensures TrimStart(before + s) == s
  {
    if before == "" {
      assert before + s == s;
    } else {
      assert before[0] in before && (before + s)[1..] == before[1..] + s;
      TrimStartDropsSpaces(before[1..], s);
    }
  }

  lemma {:induction false} TrimEndDropsSpaces(s: string, after: string)
    requires Spaces(after) && (s == "" || !Space(s[|s| - 1]))
    ensures TrimEnd(s + after) == s
  {
    if after == "" {
      assert s + after == s;
    } else {
      var n := |after| - 1;
      assert after[n] in after && (s + after)[..|s| + n] == s + after[..n];
      TrimEndDropsSpaces(s, after[..n]);
    }
  }

  /** White space around an entry does not matter, and white space alone is no entry. */
  lemma ParseIgnoresSpaces(before: string, entry: string, after: string)
    requires Spaces(before) && Spaces(after) && ',' !in before && ',' !in after && Entry(entry)
    ensures Parse(Some(before + entry + after)) == [entry]
    ensures Parse(Some(before)) == []
  {
    var s := before + entry + after;
    SplitWithoutComma(s, "");
    SplitWithoutComma(before, "");
    assert "" + s == s && "" + before == before;
    assert s == before + (entry + after) && (entry + after)[0] == entry[0];
    TrimStartDropsSpaces(before, entry + after);
    TrimEndDropsSpaces(entry, after);
    assert before + "" == before;
    TrimStartDropsSpaces(before, "");
    assert [s][1..] == [] && [before][1..] == [];
    assert Cleaned([s]) == [entry] + Cleaned([]);
  }

  /** Every list the parser returns is a list of entries, so printing and parsing it again changes nothing. */
  lemma ParseIsStable(variable: Option<string>)
    ensures forall e :: e in Parse(variable) ==> Entry(e)
    ensures Parse(Some(Join(Parse(variable)))) == Parse(variable)
  {
    SplitGivesNoComma(variable.GetOr(""), "");
    CleanedGivesEntries(Split(variable.GetOr("")));
    ParseUndoesJoin(Parse(variable));
  }

  /** A list survives joining and parsing if and only if each of its elements is an entry. */
  lemma JoinParsesBackIff(list: seq<string>)
    ensures Parse(Some(Join(list))) == list <==> forall e :: e in list ==> Entry(e)
  {
    if forall e :: e in list ==> Entry(e) {
      ParseUndoesJoin(list);
    }
    ParseIsStable(Some(Join(list)));
  }
}
