/**
  What the declarations of the vocabulary say, name by name and word by word.
 */
module StyleVocabulary {
  import opened Wrappers
  import opened StyleTree
  import opened StyleMeaning

  // ---- sides

  /** Whether a declaration writes this text to this edge of its family, and to no other edge. */
  ghost predicate WritesOnly(name: Name, text: string, dir: Direction, f: Family, edge: Edge) {
    forall e :: Written(name, text, dir, At(f, e)) == if e == edge then Some(Whole(text)) else None
  }

  /** A physical side is that side in both directions. A logical one depends on the direction. */
  lemma SidesSayWhatTheyDo(f: Family, text: string)
    requires f != Border
    ensures WritesOnly(Physical(f, Left), text, Ltr, f, LeftEdge)
    ensures WritesOnly(Physical(f, Left), text, Rtl, f, LeftEdge)
    ensures WritesOnly(Physical(f, Right), text, Ltr, f, RightEdge)
    ensures WritesOnly(Physical(f, Right), text, Rtl, f, RightEdge)
    ensures WritesOnly(Logical(f, Start), text, Ltr, f, LeftEdge)
    ensures WritesOnly(Logical(f, Start), text, Rtl, f, RightEdge)
    ensures WritesOnly(Logical(f, End), text, Ltr, f, RightEdge)
    ensures WritesOnly(Logical(f, End), text, Rtl, f, LeftEdge)
  {
  }

  /** A border shorthand of a side writes width, style and color of that side. */
  lemma BorderSideSaysWhatItDoes(part: Family, text: string, e: Edge)
    requires part in {BorderWidth, BorderStyle, BorderColor}
    ensures Written(Physical(Border, Left), text, Rtl, At(part, e))
         == if e == LeftEdge then Some(Component(text)) else None
    ensures Written(Logical(Border, Start), text, Rtl, At(part, e))
         == if e == RightEdge then Some(Component(text)) else None
    ensures Written(Box(Border), text, Rtl, At(part, e)) == Some(Component(text))
  {
  }

  lemma TextAlignSaysWhatItDoes()
    ensures Written(Align(TextAlign), "start", Ltr, Keyword(TextAlign)) == Some(Whole("left"))
    ensures Written(Align(TextAlign), "start", Rtl, Keyword(TextAlign)) == Some(Whole("right"))
    ensures Written(Align(TextAlign), "end", Ltr, Keyword(TextAlign)) == Some(Whole("right"))
    ensures Written(Align(TextAlign), "end", Rtl, Keyword(TextAlign)) == Some(Whole("left"))
    ensures Written(Align(TextAlign), "left", Rtl, Keyword(TextAlign)) == Some(Whole("left"))
  {
  }

  // ---- words

  predicate Word(s: string) {
    s != "" && ' ' !in s
  }

  function Joined(words: seq<string>): string {
    if words == [] then "" else if |words| == 1 then words[0] else words[0] + " " + Joined(words[1..])
  }

  lemma {:induction false} WordThen(started: string, more: string, rest: string)
    requires ' ' !in more && started + more != ""
    ensures WordsFrom(more, started) == [started + more]
    ensures WordsFrom(more + " " + rest, started) == [started + more] + Words(rest)
    decreases |more|
  {
    if more == "" {
      assert started + more == started;
      assert (more + " " + rest)[0] == ' ' && (more + " " + rest)[1..] == rest;
    } else {
      WordThen(started + [more[0]], more[1..], rest);
      assert started + [more[0]] + more[1..] == started + more;
      assert (more + " " + rest)[0] == more[0] && (more + " " + rest)[1..] == more[1..] + " " + rest;
    }
  }

  /** The words of a text are what was written between single blanks. */
  lemma {:induction false} WordsOfJoined(words: seq<string>)
    requires forall w :: w in words ==> Word(w)
    ensures Words(Joined(words)) == words
  {
    if words != [] {
      assert words[0] in words;
      WordThen("", words[0], Joined(words[1..]));
      assert "" + words[0] == words[0];
      assert words == [words[0]] + words[1..];
      if |words| > 1 {
        WordsOfJoined(words[1..]);
      }
    }
  }

  // ---- shorthands

  lemma BoxByWords(f: Family, text: string, w: seq<string>, dir: Direction)
    requires f in {Margin, Padding, Inset, BorderWidth, BorderStyle, BorderColor}
    requires Words(text) == w && 1 <= |w| <= 4
    ensures forall e :: Written(Box(f), text, dir, At(f, e)) == Some(Whole(BoxWord(w, e)))
  {
  }

  /** One to four values: top, right, bottom and left, with the usual omissions, in either direction. */
  lemma BoxExpands(f: Family, a: string, b: string, c: string, d: string, dir: Direction)
    requires f in {Margin, Padding, Inset, BorderWidth, BorderStyle, BorderColor}
    requires Word(a) && Word(b) && Word(c) && Word(d)
    ensures forall e :: Written(Box(f), Joined([a]), dir, At(f, e)) == Some(Whole(a))
    ensures forall e :: Written(Box(f), Joined([a, b]), dir, At(f, e))
                     == Some(Whole(if e == TopEdge || e == BottomEdge then a else b))
    ensures forall e :: Written(Box(f), Joined([a, b, c]), dir, At(f, e))
                     == Some(Whole(if e == TopEdge then a else if e == BottomEdge then c else b))
    ensures forall e :: Written(Box(f), Joined([a, b, c, d]), dir, At(f, e))
                     == Some(Whole(if e == TopEdge then a else if e == RightEdge then b
                                   else if e == BottomEdge then c else d))
  {
    WordsOfJoined([a]);
    BoxByWords(f, Joined([a]), [a], dir);
    WordsOfJoined([a, b]);
    BoxByWords(f, Joined([a, b]), [a, b], dir);
    WordsOfJoined([a, b, c]);
    BoxByWords(f, Joined([a, b, c]), [a, b, c], dir);
    WordsOfJoined([a, b, c, d]);
    BoxByWords(f, Joined([a, b, c, d]), [a, b, c, d], dir);
  }

  /** One or two values: the first for the start, the last for the end. */
  lemma InlineExpands(f: Family, a: string, b: string)
    requires f in {Margin, Padding, Inset, BorderWidth, BorderStyle, BorderColor}
    requires Word(a) && Word(b)
    ensures Written(Inline(f), Joined([a]), Ltr, At(f, LeftEdge)) == Some(Whole(a))
         == Written(Inline(f), Joined([a]), Ltr, At(f, RightEdge))
    ensures Written(Inline(f), Joined([a, b]), Ltr, At(f, LeftEdge)) == Some(Whole(a))
         == Written(Inline(f), Joined([a, b]), Rtl, At(f, RightEdge))
    ensures Written(Inline(f), Joined([a, b]), Ltr, At(f, RightEdge)) == Some(Whole(b))
         == Written(Inline(f), Joined([a, b]), Rtl, At(f, LeftEdge))
    ensures Written(Inline(f), Joined([a, b]), Ltr, At(f, TopEdge)) == None
  {
    WordsOfJoined([a]);
    WordsOfJoined([a, b]);
  }

  /** One to four radii: top left, top right, bottom right and bottom left, with the usual omissions. */
  lemma CornersExpand(a: string, b: string, c: string, d: string, dir: Direction)
    requires Word(a) && Word(b) && Word(c) && Word(d)
    ensures forall f, e :: f in {TopRadius, BottomRadius} && Sideways(e) ==>
              && Written(Corners, Joined([a]), dir, At(f, e)) == Some(Whole(a))
              && Written(Corners, Joined([a, b]), dir, At(f, e))
                 == Some(Whole(if (f == TopRadius) == (e == LeftEdge) then a else b))
              && Written(Corners, Joined([a, b, c]), dir, At(f, e))
                 == Some(Whole(if f == TopRadius && e == LeftEdge then a
                               else if f == BottomRadius && e == RightEdge then c else b))
              && Written(Corners, Joined([a, b, c, d]), dir, At(f, e))
                 == Some(Whole(if f == TopRadius then (if e == LeftEdge then a else b)
                               else if e == RightEdge then c else d))
  {
    WordsOfJoined([a]);
    WordsOfJoined([a, b]);
    WordsOfJoined([a, b, c]);
    WordsOfJoined([a, b, c, d]);
  }

  // ---- spreads

  lemma {:induction false} StaticConcat(a: seq<Item>, b: seq<Item>)
    ensures StaticKeys(a + b) <==> StaticKeys(a) && StaticKeys(b)
  {
    if a == [] {
      assert a + b == b;
    } else {
      assert (a + b)[0] == a[0] && (a + b)[1..] == a[1..] + b;
      StaticConcat(a[1..], b);
    }
  }

  lemma {:induction false} PutsOfConcat(a: seq<Item>, b: seq<Item>)
    requires StaticKeys(a) && StaticKeys(b) && StaticKeys(a + b)
    ensures Puts(a + b) == Puts(a) + Puts(b)
  {
    if a == [] {
      assert a + b == b;
    } else {
      assert (a + b)[0] == a[0] && (a + b)[1..] == a[1..] + b;
      PutsOfConcat(a[1..], b);
    }
  }

  /** A literal that is spread says what its properties would say in its place. */
  lemma SpreadSaysItsItems(a: seq<Item>, b: seq<Item>, c: seq<Item>,
                           env: Env, dir: Direction, path: seq<Name>, slot: Slot)
    requires StaticKeys(a) && StaticKeys(b) && StaticKeys(c)
    ensures StaticKeys(a + [Spread(Block(b))] + c) && StaticKeys(a + b + c)
    ensures Style(a + [Spread(Block(b))] + c, env, dir, path, slot) == Style(a + b + c, env, dir, path, slot)
  {
    var spread := [Spread(Block(b))];
    assert spread[1..] == [] && StaticItem(spread[0]) && StaticKeys(spread);
    StaticConcat(a, spread);
    StaticConcat(a + spread, c);
    StaticConcat(a, b);
    StaticConcat(a + b, c);
    PutsOfConcat(a, spread);
    PutsOfConcat(a + spread, c);
    PutsOfConcat(a, b);
    PutsOfConcat(a + b, c);
    assert Puts(spread) == Puts(b);
  }

  /** A property is put, whether its key is quoted or not. */
  lemma PropertyIsPut(key: Key, value: Value)
    requires StaticKey(key) && (value.Block? ==> StaticKeys(value.items))
    ensures StaticKeys([Property(key, value)]) && Puts([Property(key, value)]) == [Put(key.name, value)]
  {
    assert [Property(key, value)][1..] == [] && StaticItem([Property(key, value)][0]);
  }
}
