/**
  Joining the API's base URL and a path: slashes are stripped at the junction
  and one is put there. The environment strips the base once more, in advance.
 */
module Urls {

  /** `replace(/\/+$/, '')`. */
  function StripEnd(s: string): string {
    if s != "" && s[|s| - 1] == '/' then StripEnd(s[..|s| - 1]) else s
  }

  /** `replace(/^\/+/, '')`. */
  function StripStart(s: string): string {
    if s != "" && s[0] == '/' then StripStart(s[1..]) else s
  }

  function BuildUrl(path: string, base: string): string {
    StripEnd(base) + "/" + StripStart(path)
  }

  function Slashes(n: nat): (s: string)
    ensures |s| == n && forall i :: 0 <= i < n ==> s[i] == '/'
  {
    if n == 0 then "" else Slashes(n - 1) + "/"
  }

  lemma {:induction false} StripEndIgnoresSlashes(s: string, n: nat)
    ensures StripEnd(s + Slashes(n)) == StripEnd(s)
  {
    if n == 0 {
      assert s + Slashes(0) == s;
    } else {
      assert (s + Slashes(n))[..|s| + n - 1] == s + Slashes(n - 1);
      StripEndIgnoresSlashes(s, n - 1);
    }
  }

  lemma {:induction false} StripStartIgnoresSlashes(s: string, n: nat)
    ensures StripStart(Slashes(n) + s) == StripStart(s)
  {
    if n == 0 {
      assert Slashes(0) + s == s;
    } else {
      assert (Slashes(n) + s)[1..] == Slashes(n - 1) + s;
      StripStartIgnoresSlashes(s, n - 1);
    }
  }

  lemma {:induction false} StripEndIsTight(s: string)
    ensures StripEnd(s) == "" || StripEnd(s)[|StripEnd(s)| - 1] != '/'
    ensures StripEnd(StripEnd(s)) == StripEnd(s)
  {
    if s != "" && s[|s| - 1] == '/' {
      StripEndIsTight(s[..|s| - 1]);
    }
  }

  lemma {:induction false} StripStartIsTight(s: string)
    ensures StripStart(s) == "" || StripStart(s)[0] != '/'
    ensures StripStart(StripStart(s)) == StripStart(s)
  {
    if s != "" && s[0] == '/' {
      StripStartIsTight(s[1..]);
    }
  }

  /** Without slashes at the junction the URL is the base, a slash and the path. */
  lemma PlainJunction(path: string, base: string)
    requires base == "" || base[|base| - 1] != '/'
    requires path == "" || path[0] != '/'
    ensures BuildUrl(path, base) == base + "/" + path
  {
  }

  /**
    Every text is its stripped part and slashes; with `PlainJunction` and
    `JunctionSlashesDoNotMatter` this decides every URL.
   */
  lemma StrippedAndSlashes(s: string)
    ensures exists n :: s == StripEnd(s) + Slashes(n)
    ensures exists n :: s == Slashes(n) + StripStart(s)
  {
    var m := EndSlashes(s);
    var n := StartSlashes(s);
  }

  lemma {:induction false} EndSlashes(s: string) returns (n: nat)
    ensures s == StripEnd(s) + Slashes(n)
  {
    n := 0;
    if s != "" && s[|s| - 1] == '/' {
      var m := EndSlashes(s[..|s| - 1]);
      n := m + 1;
      assert s == s[..|s| - 1] + "/";
    }
  }

  lemma {:induction false} StartSlashes(s: string) returns (n: nat)
    ensures s == Slashes(n) + StripStart(s)
  {
    n := 0;
    if s != "" && s[0] == '/' {
      var m := StartSlashes(s[1..]);
      n := m + 1;
      assert s == "/" + s[1..];
      assert "/" + Slashes(m) == Slashes(m + 1);
    }
  }

  /** No number of slashes at the junction, and no stripping in advance, changes the URL. */
  lemma JunctionSlashesDoNotMatter(path: string, base: string, m: nat, n: nat)
    ensures BuildUrl(Slashes(m) + path, base + Slashes(n)) == BuildUrl(path, base)
    ensures BuildUrl(path, StripEnd(base)) == BuildUrl(path, base)
  {
    StripEndIgnoresSlashes(base, n);
    StripStartIgnoresSlashes(path, m);
    StripEndIsTight(base);
  }

  /** The junction is one slash: the characters around it, if any, are none. */
  lemma OneSlashAtJunction(path: string, base: string)
    ensures var url, k := BuildUrl(path, base), |StripEnd(base)|;
            && k < |url| && url[k] == '/'
            && (k > 0 ==> url[k - 1] != '/')
            && (k + 1 < |url| ==> url[k + 1] != '/')
  {
    StripEndIsTight(base);
    StripStartIsTight(path);
  }

  lemma {:induction false} StripEndOfConcat(a: string, b: string)
    requires StripEnd(b) != ""
    ensures StripEnd(a + b) == a + StripEnd(b)
  {
    if b[|b| - 1] == '/' {
      assert (a + b)[..|a + b| - 1] == a + b[..|b| - 1];
      StripEndOfConcat(a, b[..|b| - 1]);
    }
  }

  lemma {:induction false} StripEndKeepsStart(s: string)
    ensures StripEnd(s) != "" ==> s != "" && StripEnd(s)[0] == s[0]
    ensures StripEnd(s) == "" && s != "" ==> s[0] == '/'
  {
    if s != "" && s[|s| - 1] == '/' {
      StripEndKeepsStart(s[..|s| - 1]);
    }
  }

  /**
    Joining twice is joining once with the joined paths, for every two paths. A
    first path of slashes only is no exception: its slash is lost at the second
    junction, and so is the slash that the joined path begins with.
   */
  lemma JoiningComposes(p: string, q: string, base: string)
    ensures BuildUrl(q, BuildUrl(p, base)) == BuildUrl(StripEnd(StripStart(p)) + "/" + StripStart(q), base)
  {
    var first, second := StripStart(p), StripStart(q);
    var joined := StripEnd(first) + "/" + second;
    StripStartIsTight(p);
    StripStartIsTight(q);
    StripEndKeepsStart(first);
    if first == "" {
      JoiningNothing(base);
      assert joined == "/" + second && joined[1..] == second;
    } else {
      StripEndOfConcat(StripEnd(base) + "/", first);
      assert joined[0] == first[0];
      assert StripEnd(base) + "/" + StripEnd(first) + "/" + second == StripEnd(base) + "/" + joined;
    }
  }

  lemma JoiningNothing(base: string)
    ensures StripEnd(StripEnd(base) + "/" + "") == StripEnd(base)
  {
    assert StripEnd(base) + "/" + "" == StripEnd(base) + Slashes(1);
    StripEndIgnoresSlashes(StripEnd(base), 1);
    StripEndIsTight(base);
  }
}
