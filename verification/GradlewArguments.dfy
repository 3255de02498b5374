/**
  How the Gradle wrapper script handles its arguments: the rotation that
  converts them in place, and the escaping that a later `eval` undoes.
 */
module GradlewArguments {
  import opened Wrappers

  // ---- the rotation loop

  function Converted<T>(args: seq<T>, convert: T -> T): (r: seq<T>)
    ensures |r| == |args|
  {
    seq(|args|, i requires 0 <= i < |args| => convert(args[i]))
  }

  /** Moving the first parameter to the end, converted, turns the list by one. */
  lemma OneTurn<T>(list: seq<T>, convert: T -> T, i: nat)
    requires i < |list|
    ensures (list[i..] + Converted(list, convert)[..i])[1..] + [convert(list[i])]
         == list[i + 1..] + Converted(list, convert)[..i + 1]
  {
    var done := Converted(list, convert);
    assert list[i..] == [list[i]] + list[i + 1..];
    assert done[..i + 1] == done[..i] + [convert(list[i])];
  }

  /** The positional parameters of the script. */
  class Parameters<T> {
    var args: seq<T>

    constructor (args: seq<T>)
      ensures this.args == args
    {
      this.args := args;
    }

    /** `shift`. */
    method Shift()
      requires args != []
      modifies this
      ensures args == old(args)[1..]
    {
      args := args[1..];
    }

    /** `set -- "$@" "$arg"`. */
    method Push(arg: T)
      modifies this
      ensures args == old(args) + [arg]
    {
      args := args + [arg];
    }

    /**
      `for arg do ... shift; set -- "$@" "$arg"; done`. The iteration list is
      taken before the loop starts; the parameters turn once around.
     */
    method ConvertAll(convert: T -> T)
      modifies this
      ensures args == Converted(old(args), convert)
      ensures |args| == |old(args)| && forall i :: 0 <= i < |args| ==> args[i] == convert(old(args)[i])
    {
      var list := args;
      for i := 0 to |list|
        invariant list == old(args)
        invariant args == list[i..] + Converted(list, convert)[..i]
      {
        OneTurn(list, convert, i);
        Shift();
        Push(convert(list[i]));
      }
    }
  }

  // ---- escaping

  /** A character `sed` leaves alone: `[-[:alnum:]+,./:=@_]`, in the C locale. */
  predicate Plain(c: char) {
    'a' <= c <= 'z' || 'A' <= c <= 'Z' || '0' <= c <= '9'
    || c == '-' || c == '+' || c == ',' || c == '.' || c == '/' || c == ':' || c == '=' || c == '@' || c == '_'
  }

  /** What `xargs -n1` prints: one token a line. */
  function Lines(tokens: seq<string>): string {
    if tokens == [] then "" else tokens[0] + "\n" + Lines(tokens[1..])
  }

  /** `sed ' s~[^...]~\\&~g; '` for a class of characters to leave alone; it works within lines. */
  function Sed(text: string, plain: char -> bool): string {
    if text == "" then ""
    else (if text[0] == '\n' || plain(text[0]) then [text[0]] else ['\\', text[0]]) + Sed(text[1..], plain)
  }

  /** `tr '\n' ' '`. */
  function Tr(text: string): string {
    if text == "" then "" else [if text[0] == '\n' then ' ' else text[0]] + Tr(text[1..])
  }

  /** The text handed to `eval`: `set --`, the output of the pipeline, and the old parameters. */
  function EvalText(tokens: seq<string>, plain: char -> bool): string {
    "set -- " + Tr(Sed(Lines(tokens), plain)) + " \"$@\""
  }

  // ---- the shell

  predicate Blank(c: char) {
    c == ' ' || c == '\t'
  }

  /** Unquoted characters that are operators, quotes, expansions or patterns in an argument (section 2.2). */
  predicate Special(c: char) {
    c == '|' || c == '&' || c == ';' || c == '<' || c == '>' || c == '(' || c == ')' || c == '$' || c == '`'
    || c == '\\' || c == '"' || c == '\'' || c == '*' || c == '?' || c == '[' || c == '#' || c == '~' || c == '\n'
  }

  function Flushed(word: Option<string>): seq<string> {
    match word
    case Some(w) => [w]
    case None => []
  }

  /**
    The fields of a simple command by the token rules (sections 2.2.1 and 2.3),
    `word` being the one under way. Of the quotes only the word `"$@"` occurs
    here; any other special character unescaped means the text is something
    else than a list of plain arguments, and there is no result.
   */
  function Fields(text: string, word: Option<string>, params: seq<string>): Option<seq<string>>
    decreases |text|
  {
    if text == "" then Some(Flushed(word))
    else if Blank(text[0]) then Before(Flushed(word), Fields(text[1..], None, params))
    else if text[0] == '\\' then
      if |text| == 1 then None
      else if text[1] == '\n' then Fields(text[2..], word, params)
      else Fields(text[2..], Some(word.GetOr("") + [text[1]]), params)
    else if text == "\"$@\"" && word == None then Some(params)
    else if Special(text[0]) then None
    else Fields(text[1..], Some(word.GetOr("") + [text[0]]), params)
  }

  function Before(front: seq<string>, back: Option<seq<string>>): Option<seq<string>> {
    match back
    case Some(fields) => Some(front + fields)
    case None => None
  }

  /** `eval`: the positional parameters it leaves, or nothing if the text is no `set` command. */
  function Eval(text: string, params: seq<string>): Option<seq<string>> {
    match Fields(text, None, params)
    case Some(fields) => if |fields| >= 2 && fields[0] == "set" && fields[1] == "--" then Some(fields[2..]) else None
    case None => None
  }

  // ---- the characters, written out

  /** The class that `sed` leaves alone. */
  lemma PlainWrittenOut(c: char)
    ensures Plain(c) <==> c in "abcdefghijklmnopqrstuvwxyz" || c in "ABCDEFGHIJKLMNOPQRSTUVWXYZ"
                          || c in "0123456789" || c in "-+,./:=@_"
  {
    SmallLetters(c);
    CapitalLetters(c);
    Numerals(c);
  }

  lemma SmallLetters(c: char)
    ensures 'a' <= c <= 'z' <==> c in "abcdefghijklmnopqrstuvwxyz"
  {
  }

  lemma Numerals(c: char)
    ensures '0' <= c <= '9' <==> c in "0123456789"
  {
  }

  lemma CapitalLetters(c: char)
    ensures 'A' <= c <= 'Z' <==> c in "ABCDEFGHIJKLMNOPQRSTUVWXYZ"
  {
  }

  /** What the shell does not take for itself in an unquoted word. */
  lemma SpecialWrittenOut(c: char)
    ensures Special(c) <==> c in "|&;<>()$`\\\"'*?[#~\n"
    ensures Blank(c) <==> c in " \t"
  {
  }

  // ---- escaping and splitting again

  predicate OneLine(token: string) {
    '\n' !in token
  }

  function NonEmpty(tokens: seq<string>): seq<string> {
    if tokens == [] then [] else (if tokens[0] == "" then [] else [tokens[0]]) + NonEmpty(tokens[1..])
  }

  ghost predicate Safe(plain: char -> bool) {
    forall c :: plain(c) && c != '\n' ==> !Special(c) && !Blank(c)
  }

  lemma {:induction false} SedConcat(a: string, b: string, plain: char -> bool)
    ensures Sed(a + b, plain) == Sed(a, plain) + Sed(b, plain)
  {
    if a == "" {
      assert a + b == b;
    } else {
      assert (a + b)[1..] == a[1..] + b;
      SedConcat(a[1..], b, plain);
    }
  }

  lemma {:induction false} TrConcat(a: string, b: string)
    ensures Tr(a + b) == Tr(a) + Tr(b)
  {
    if a == "" {
      assert a + b == b;
    } else {
      assert (a + b)[1..] == a[1..] + b;
      TrConcat(a[1..], b);
    }
  }

  lemma {:induction false} TrKeepsOneLine(text: string)
    requires OneLine(text)
    ensures Tr(text) == text
  {
    if text != "" {
      TrKeepsOneLine(text[1..]);
    }
  }

  lemma {:induction false} SedKeepsOneLine(text: string, plain: char -> bool)
    requires OneLine(text)
    ensures OneLine(Sed(text, plain))
  {
    if text != "" {
      SedKeepsOneLine(text[1..], plain);
    }
  }

  /** The pipeline's output is each token escaped, and a blank after it. */
  lemma PipelineOfFirst(tokens: seq<string>, plain: char -> bool)
    requires tokens != [] && OneLine(tokens[0])
    ensures Tr(Sed(Lines(tokens), plain)) == Sed(tokens[0], plain) + " " + Tr(Sed(Lines(tokens[1..]), plain))
  {
    var t, more := tokens[0], Lines(tokens[1..]);
    SedConcat(t + "\n", more, plain);
    SedConcat(t, "\n", plain);
    assert Sed("\n", plain) == "\n";
    TrConcat(Sed(t, plain) + "\n", Sed(more, plain));
    TrConcat(Sed(t, plain), "\n");
    assert Tr("\n") == " ";
    SedKeepsOneLine(t, plain);
    TrKeepsOneLine(Sed(t, plain));
  }

  lemma BeforeBefore(a: seq<string>, b: seq<string>, fields: Option<seq<string>>)
    ensures Before(a, Before(b, fields)) == Before(a + b, fields)
    ensures Before([], fields) == fields
  {
    if fields.Some? {
      assert a + (b + fields.value) == a + b + fields.value;
      assert [] + fields.value == fields.value;
    }
  }

  /** The shell reads an escaped character as that character. */
  lemma FieldsOfChar(c: char, plain: char -> bool, more: string, word: Option<string>, params: seq<string>)
    requires c != '\n' && Safe(plain)
    ensures Fields((if plain(c) then [c] else ['\\', c]) + more, word, params)
         == Fields(more, Some(word.GetOr("") + [c]), params)
  {
    if plain(c) {
      var text := [c] + more;
      assert text[0] == c && text[1..] == more;
      assert text != "\"$@\"";
    } else {
      var text := ['\\', c] + more;
      assert text[0] == '\\' && text[1] == c && text[2..] == more;
    }
  }

  /** The shell reads an escaped token as that token. */
  lemma {:induction false} FieldsOfToken(token: string, plain: char -> bool,
                                         rest: string, word: Option<string>, params: seq<string>)
    requires OneLine(token) && Safe(plain)
    ensures Fields(Sed(token, plain) + rest, word, params)
         == Fields(rest, if token == "" then word else Some(word.GetOr("") + token), params)
  {
    if token == "" {
      assert Sed(token, plain) + rest == rest;
    } else {
      var c, next := token[0], word.GetOr("") + [token[0]];
      SedOfFirst(token, plain, rest);
      FieldsOfChar(c, plain, Sed(token[1..], plain) + rest, word, params);
      FieldsOfToken(token[1..], plain, rest, Some(next), params);
      assert next + token[1..] == word.GetOr("") + token;
      assert token[1..] == "" ==> next == word.GetOr("") + token;
    }
  }

  lemma SedOfFirst(token: string, plain: char -> bool, rest: string)
    requires token != "" && token[0] != '\n'
    ensures Sed(token, plain) + rest
         == (if plain(token[0]) then [token[0]] else ['\\', token[0]]) + (Sed(token[1..], plain) + rest)
  {
  }

  lemma FieldsOfBlank(rest: string, word: Option<string>, params: seq<string>)
    ensures Fields(" " + rest, word, params) == Before(Flushed(word), Fields(rest, None, params))
  {
    assert (" " + rest)[1..] == rest;
  }

  /** An escaped token and the blank after it: one field, or none if the token is empty. */
  lemma FieldsOfTokenAndBlank(token: string, plain: char -> bool, rest: string, params: seq<string>)
    requires OneLine(token) && Safe(plain)
    ensures Fields(Sed(token, plain) + (" " + rest), None, params)
         == Before(if token == "" then [] else [token], Fields(rest, None, params))
  {
    FieldsOfToken(token, plain, " " + rest, None, params);
    assert "" + token == token;
    FieldsOfBlank(rest, if token == "" then None else Some(token), params);
  }

  /** A backslash before a newline continues the line (section 2.2.1): both vanish. */
  lemma FieldsOfContinuation(rest: string, word: Option<string>, params: seq<string>)
    ensures Fields("\\\n" + rest, word, params) == Fields(rest, word, params)
  {
    var text := "\\\n" + rest;
    assert text[0] == '\\' && text[1] == '\n' && text[2..] == rest;
  }

  lemma {:induction false} FieldsOfPipeline(tokens: seq<string>, plain: char -> bool, rest: string, params: seq<string>)
    requires Safe(plain) && forall t :: t in tokens ==> OneLine(t)
    ensures Fields(Tr(Sed(Lines(tokens), plain)) + rest, None, params)
         == Before(NonEmpty(tokens), Fields(rest, None, params))
  {
    BeforeBefore([], [], Fields(rest, None, params));
    if tokens == [] {
      assert Tr(Sed(Lines(tokens), plain)) + rest == rest;
    } else {
      var t, more := tokens[0], Tr(Sed(Lines(tokens[1..]), plain)) + rest;
      PipelineOfFirst(tokens, plain);
      assert Tr(Sed(Lines(tokens), plain)) + rest == Sed(t, plain) + (" " + more);
      FieldsOfTokenAndBlank(t, plain, more, params);
      FieldsOfPipeline(tokens[1..], plain, rest, params);
      BeforeBefore(if t == "" then [] else [t], NonEmpty(tokens[1..]), Fields(rest, None, params));
    }
  }

  lemma PlainIsSafe()
    ensures Safe(Plain)
  {
  }

  lemma PlainWordIsUnchanged(word: string)
    requires forall i :: 0 <= i < |word| ==> Plain(word[i])
    ensures Sed(word, Plain) == word
  {
    if word != "" {
      PlainWordIsUnchanged(word[1..]);
    }
  }

  lemma FieldsOfPlainWord(word: string, rest: string, params: seq<string>)
    requires word != "" && forall i :: 0 <= i < |word| ==> Plain(word[i])
    ensures Fields(word + (" " + rest), None, params) == Before([word], Fields(rest, None, params))
  {
    PlainIsSafe();
    PlainWordIsUnchanged(word);
    FieldsOfTokenAndBlank(word, Plain, rest, params);
  }

  lemma FieldsOfCommand(rest: string, params: seq<string>)
    ensures Fields("set -- " + rest, None, params) == Before(["set", "--"], Fields(rest, None, params))
  {
    var tail := "--" + (" " + rest);
    assert "set -- " + rest == "set" + (" " + tail);
    FieldsOfPlainWord("set", tail, params);
    FieldsOfPlainWord("--", rest, params);
    assert ["set"] + ["--"] == ["set", "--"];
    BeforeBefore(["set"], ["--"], Fields(rest, None, params));
  }

  lemma FieldsOfOldParameters(params: seq<string>)
    ensures Fields(" \"$@\"", None, params) == Some(params)
  {
    FieldsOfBlank("\"$@\"", None, params);
    assert Fields("\"$@\"", None, params) == Some(params);
    assert " " + "\"$@\"" == " \"$@\"";
    BeforeBefore([], [], Some(params));
  }

  /** What the `eval` line leaves: the tokens that are not empty, then the old parameters untouched. */
  lemma EvalOfPipeline(tokens: seq<string>, plain: char -> bool, params: seq<string>)
    requires Safe(plain) && forall t :: t in tokens ==> OneLine(t)
    ensures Eval(EvalText(tokens, plain), params) == Some(NonEmpty(tokens) + params)
  {
    var output, quoted := Tr(Sed(Lines(tokens), plain)), " \"$@\"";
    assert EvalText(tokens, plain) == "set -- " + (output + quoted);
    FieldsOfCommand(output + quoted, params);
    FieldsOfPipeline(tokens, plain, quoted, params);
    FieldsOfOldParameters(params);
    var fields := ["set", "--"] + (NonEmpty(tokens) + params);
    assert fields[2..] == NonEmpty(tokens) + params;
  }

  lemma {:induction false} NonEmptyShortens(tokens: seq<string>)
    ensures |NonEmpty(tokens)| <= |tokens|
    ensures |NonEmpty(tokens)| == |tokens| <==> "" !in tokens
    ensures "" !in tokens ==> NonEmpty(tokens) == tokens
  {
    if tokens != [] {
      NonEmptyShortens(tokens[1..]);
      assert tokens == [tokens[0]] + tokens[1..];
    }
  }

  // ---- tokens that hold a newline

  /** The lines of a token: at least one. */
  function LinesIn(token: string): (lines: seq<string>)
    ensures lines != [] && forall line :: line in lines ==> OneLine(line)
  {
    if token == "" then [""]
    else
      var more := LinesIn(token[1..]);
      assert OneLine(more[0]);
      if token[0] == '\n' then [""] + more else [[token[0]] + more[0]] + more[1..]
  }

  function AllLines(tokens: seq<string>): (lines: seq<string>)
    ensures forall line :: line in lines ==> OneLine(line)
  {
    if tokens == [] then [] else LinesIn(tokens[0]) + AllLines(tokens[1..])
  }

  lemma {:induction false} LinesConcat(a: seq<string>, b: seq<string>)
    ensures Lines(a + b) == Lines(a) + Lines(b)
  {
    if a == [] {
      assert a + b == b;
    } else {
      assert (a + b)[1..] == a[1..] + b;
      LinesConcat(a[1..], b);
    }
  }

  lemma LongerFirstLine(c: char, lines: seq<string>)
    requires lines != []
    ensures Lines([[c] + lines[0]] + lines[1..]) == [c] + Lines(lines)
  {
    var longer, rest := [[c] + lines[0]] + lines[1..], lines[1..];
    assert longer[0] == [c] + lines[0] && longer[1..] == rest;
    assert [c] + lines[0] + "\n" + Lines(rest) == [c] + (lines[0] + "\n" + Lines(rest));
  }

  lemma {:induction false} LinesOfLines(token: string)
    ensures Lines(LinesIn(token)) == token + "\n"
  {
    if token != "" {
      var more := LinesIn(token[1..]);
      LinesOfLines(token[1..]);
      if token[0] == '\n' {
        LinesConcat([""], more);
        assert Lines([""]) == "\n";
      } else {
        LongerFirstLine(token[0], more);
      }
      assert token == [token[0]] + token[1..];
    }
  }

  lemma {:induction false} OneLineIsItsLine(token: string)
    requires OneLine(token)
    ensures LinesIn(token) == [token]
  {
    if token != "" {
      OneLineIsItsLine(token[1..]);
      assert token == [token[0]] + token[1..];
    }
  }

  /** What the pipeline sees are lines: a token with newlines is as good as several tokens. */
  lemma {:induction false} PipelineSeesLines(tokens: seq<string>)
    ensures Lines(AllLines(tokens)) == Lines(tokens)
  {
    if tokens != [] {
      LinesOfLines(tokens[0]);
      PipelineSeesLines(tokens[1..]);
      LinesConcat(LinesIn(tokens[0]), AllLines(tokens[1..]));
    }
  }

  lemma {:induction false} OneLineTokensAreTheirLines(tokens: seq<string>)
    requires forall t :: t in tokens ==> OneLine(t)
    ensures AllLines(tokens) == tokens
  {
    if tokens != [] {
      OneLineIsItsLine(tokens[0]);
      OneLineTokensAreTheirLines(tokens[1..]);
      assert tokens == [tokens[0]] + tokens[1..];
    }
  }

  lemma {:induction false} NonEmptyIsPart(tokens: seq<string>)
    ensures forall t :: t in NonEmpty(tokens) ==> t in tokens && t != ""
  {
    if tokens != [] {
      NonEmptyIsPart(tokens[1..]);
    }
  }

  /** For any tokens at all: what is left are their lines that are not empty, then the old parameters. */
  lemma EvalOfAnyTokens(tokens: seq<string>, params: seq<string>)
    ensures Eval(EvalText(tokens, Plain), params) == Some(NonEmpty(AllLines(tokens)) + params)
  {
    PlainIsSafe();
    PipelineSeesLines(tokens);
    EvalOfPipeline(AllLines(tokens), Plain, params);
  }

  /**
    Splitting what was escaped gives the tokens back, in front of the untouched
    old arguments, if and only if no token is empty or holds a newline. An empty
    line becomes a second blank, which separates nothing; a newline is taken for
    the end of a token.
   */
  lemma EscapeThenEvalIsIdentityIff(tokens: seq<string>, params: seq<string>)
    ensures Eval(EvalText(tokens, Plain), params) == Some(tokens + params)
       <==> forall t :: t in tokens ==> t != "" && OneLine(t)
  {
    EvalOfAnyTokens(tokens, params);
    var kept := NonEmpty(AllLines(tokens));
    if kept + params == tokens + params {
      assert |kept| == |tokens|;
      assert kept == (kept + params)[..|kept|] == (tokens + params)[..|tokens|] == tokens;
      NonEmptyIsPart(AllLines(tokens));
    } else if forall t :: t in tokens ==> t != "" && OneLine(t) {
      OneLineTokensAreTheirLines(tokens);
      NonEmptyShortens(tokens);
    }
  }

  /** The class of characters left alone is right if and only if it holds no special character and no blank. */
  lemma EveryTokenSurvivesIffSafe(plain: char -> bool)
    ensures (forall tokens, params ::
               (forall t :: t in tokens ==> OneLine(t) && t != "")
               ==> Eval(EvalText(tokens, plain), params) == Some(tokens + params))
       <==> Safe(plain)
  {
    if Safe(plain) {
      forall tokens: seq<string>, params: seq<string> | forall t :: t in tokens ==> OneLine(t) && t != ""
        ensures Eval(EvalText(tokens, plain), params) == Some(tokens + params)
      {
        EvalOfPipeline(tokens, plain, params);
        NonEmptyShortens(tokens);
      }
    } else {
      var c :| plain(c) && c != '\n' && (Special(c) || Blank(c));
      UnsafeCharacterIsLost(c, plain);
      var tokens: seq<string> := [[c]];
      var params: seq<string> := [];
      assert forall t :: t in tokens ==> OneLine(t) && t != "";
      assert tokens + params == [[c]];
      assert Eval(EvalText(tokens, plain), params) != Some(tokens + params);
    }
  }

  lemma UnsafeCharacterIsLost(c: char, plain: char -> bool)
    requires plain(c) && c != '\n' && (Special(c) || Blank(c))
    ensures Eval(EvalText([[c]], plain), []) != Some([[c]])
  {
    var tokens := [[c]];
    PipelineOfFirst(tokens, plain);
    assert tokens[1..] == [];
    assert Sed([c], plain) == [c];
    assert Tr(Sed(Lines([]), plain)) == "";
    var rest := [c] + "  \"$@\"";
    assert EvalText(tokens, plain) == "set -- " + rest;
    FieldsOfCommand(rest, []);
    var quoted := " \"$@\"";
    assert rest[1..] == " " + quoted;
    FieldsOfOldParameters([]);
    FieldsOfBlank(quoted, None, []);
    BeforeBefore([], [], Some([]));
    if Blank(c) {
      assert Fields(rest, None, []) == Some([] + []);
    } else if c == '\\' {
      assert rest[2..] == quoted == " " + "\"$@\"";
      assert "" + [' '] == " ";
      FieldsOfBlank("\"$@\"", Some(" "), []);
      assert Fields("\"$@\"", None, []) == Some([]);
      assert Fields(rest, None, []) == Some([" "] + []);
    } else {
      assert Fields(rest, None, []) == None;
    }
  }
}
