/** Relative protocol paths: their components, where they lead below save_dir, and their parents. */
module Paths {
  /** The parts between slashes; one empty part for the empty path. */
  function Components(path: string): (cs: seq<string>)
    ensures cs != []
  {
    if path == "" then [""]
    else
      var rest := Components(path[1..]);
      if path[0] == '/' then [""] + rest else [[path[0]] + rest[0]] + rest[1..]
  }

  function Join(cs: seq<string>): string {
    if cs == [] then ""
    else if |cs| == 1 then cs[0]
    else cs[0] + "/" + Join(cs[1..])
  }

  /** Empty parts and dots lead nowhere. */
  function Steps(cs: seq<string>): seq<string> {
    if cs == [] then []
    else (if cs[0] == "" || cs[0] == "." then [] else [cs[0]]) + Steps(cs[1..])
  }

  function LastComponent(path: string): string {
    var cs := Components(path);
    cs[|cs| - 1]
  }

  /** Where a path without ".." leads; the empty path is save_dir itself. */
  function Place(path: string): string { Join(Steps(Components(path))) }

  /** safe_join: not absolute, and no component is "..". */
  predicate SafePath(path: string) { !("/" <= path) && ".." !in Components(path) }

  /** Every component is a name. */
  predicate Plain(path: string) { forall c <- Components(path) :: c != "" && c != "." && c != ".." }

  /** Refused as a directory on every disk: the path leads out of save_dir, or names nothing. */
  predicate AlwaysRefused(path: string) { path == "" || !SafePath(path) || LastComponent(path) == "" }

  /** The proper prefixes of a path that end just before a slash: its parent directories. */
  function Ancestors(path: string): set<string> {
    set k | 0 <= k < |path| && path[k] == '/' :: path[..k]
  }

  /** The places of the directories above a place, save_dir among them. */
  function Above(place: string): set<string> { if place == "" then {} else Ancestors(place) + {""} }

  /** A directory and everything create_directories makes for it. */
  function WithAbove(place: string): set<string> { Above(place) + {place} }

  lemma AncestorIsShorter(a: string, path: string)
    requires a in Ancestors(path)
    ensures a < path && |a| < |path| && path[|a|] == '/'
  {
  }

  lemma {:induction false} JoinComponents(path: string)
    ensures Join(Components(path)) == path
  {
    if path != "" {
      var rest := Components(path[1..]);
      var cs := Components(path);
      JoinComponents(path[1..]);
      if path[0] == '/' {
        assert cs[1..] == rest;
      } else {
        assert cs[1..] == rest[1..];
        if |rest| == 1 {
          assert path == [path[0]] + path[1..];
        } else {
          assert [path[0]] + rest[0] + "/" + Join(rest[1..]) == [path[0]] + (rest[0] + "/" + Join(rest[1..]));
        }
      }
    }
  }

  lemma {:induction false} NamesAreSteps(cs: seq<string>)
    requires forall c <- cs :: c != "" && c != "."
    ensures Steps(cs) == cs
  {
    if cs != [] {
      assert cs[0] in cs;
      assert forall c <- cs[1..] :: c in cs;
      NamesAreSteps(cs[1..]);
    }
  }

  /** A path of names is safe, leads to itself and ends in a name. */
  lemma PlainLeadsToItself(path: string)
    requires Plain(path)
    ensures Place(path) == path && path != "" && SafePath(path)
    ensures LastComponent(path) != "" && LastComponent(path) != "."
  {
    var cs := Components(path);
    NamesAreSteps(cs);
    JoinComponents(path);
    assert cs[|cs| - 1] in cs;
    if "/" <= path {
      SlashInFront(path);
    }
  }

  lemma SlashInFront(path: string)
    requires "/" <= path
    ensures "" in Components(path)
  {
    assert Components(path)[0] == "";
  }

  lemma {:induction false} ComponentsUnder(name: string, rest: string)
    requires '/' !in name
    ensures Components(name + "/" + rest) == [name] + Components(rest)
    ensures Components(name) == [name]
  {
    var path := name + "/" + rest;
    if name != "" {
      assert name[0] in name;
      assert path[1..] == name[1..] + "/" + rest;
      ComponentsUnder(name[1..], rest);
      assert [name[0]] + name[1..] == name;
    } else {
      assert path == "/" + rest && path[1..] == rest;
    }
  }

  /** Two dots that fill the space between two slashes, or between a slash and an end. */
  predicate DotsAt(path: string, i: int) {
    && 0 <= i && i + 2 <= |path| && path[i..i + 2] == ".."
    && (i == 0 || path[i - 1] == '/') && (i + 2 == |path| || path[i + 2] == '/')
  }

  /** Where the first slash is. */
  function FirstSlash(path: string): (n: nat)
    ensures n <= |path| && '/' !in path[..n] && (n < |path| ==> path[n] == '/')
  {
    if path == "" || path[0] == '/' then 0 else 1 + FirstSlash(path[1..])
  }

  lemma DotsUnder(name: string, rest: string, i: int)
    requires '/' !in name
    ensures DotsAt(name + "/" + rest, i) <==> (i == 0 && name == "..") || (i > |name| && DotsAt(rest, i - |name| - 1))
  {
    var path := name + "/" + rest;
    assert path[..|name|] == name && path[|name|] == '/' && path[|name| + 1..] == rest;
    if 0 <= i && i + 2 <= |path| {
      if i > |name| {
        assert path[i..i + 2] == rest[i - |name| - 1..i - |name| + 1];
      } else if i == |name| {
        assert path[i..i + 2][0] == '/';
      } else if i + 2 <= |name| {
        assert path[i..i + 2] == name[i..i + 2];
        if 0 < i {
          assert path[i - 1] == name[i - 1] && name[i - 1] in name;
        }
        if i + 2 < |name| {
          assert path[i + 2] == name[i + 2] && name[i + 2] in name;
        }
      } else {
        assert path[i..i + 2][1] == '/';
      }
    }
  }

  lemma DotsAlone(path: string)
    requires '/' !in path
    ensures path == ".." <==> exists i :: DotsAt(path, i)
  {
    if path == ".." {
      assert DotsAt(path, 0);
    }
    forall i | DotsAt(path, i)
      ensures path == ".."
    {
      assert forall c <- path :: c != '/';
    }
  }

  lemma DotsBehind(name: string, rest: string)
    requires '/' !in name
    ensures (exists i :: DotsAt(name + "/" + rest, i)) <==> name == ".." || exists i :: DotsAt(rest, i)
  {
    var path := name + "/" + rest;
    var n := |name|;
    forall i: int
      ensures DotsAt(path, i) <==> (i == 0 && name == "..") || (i > n && DotsAt(rest, i - n - 1))
    {
      DotsUnder(name, rest, i);
    }
    hide DotsAt;
    if name == ".." {
      assert DotsAt(path, 0);
    }
    if i :| DotsAt(rest, i) {
      DotsNotBefore(rest, i);
      assert DotsAt(rest, i + n + 1 - n - 1);
      assert DotsAt(path, i + n + 1);
    }
  }

  lemma DotsNotBefore(path: string, i: int)
    requires DotsAt(path, i)
    ensures i >= 0
  {
  }

  lemma {:induction false} DotsIff(path: string)
    ensures ".." in Components(path) <==> exists i :: DotsAt(path, i)
    decreases |path|
  {
    hide DotsAt;
    var n := FirstSlash(path);
    var name := path[..n];
    if n == |path| {
      ComponentsUnder(name, "");
      assert name == path;
      DotsAlone(path);
    } else {
      var rest := path[n + 1..];
      assert path == name + "/" + rest;
      ComponentsUnder(name, rest);
      DotsIff(rest);
      DotsBehind(name, rest);
      hide Components;
    }
  }

  /** safe_join, character by character: a path is refused if and only if it begins with a slash or two dots
      stand alone between slashes or ends. */
  lemma SafePathIff(path: string)
    ensures SafePath(path) <==> !(|path| > 0 && path[0] == '/') && !exists i :: DotsAt(path, i)
  {
    DotsIff(path);
    hide Components;
    hide DotsAt;
  }

  lemma {:induction false} StepsAreNames(cs: seq<string>)
    requires ".." !in cs && forall c <- cs :: '/' !in c
    ensures forall c <- Steps(cs) :: c != "" && c != "." && c != ".." && '/' !in c
  {
    if cs != [] {
      assert cs[0] in cs;
      assert forall c <- cs[1..] :: c in cs;
      StepsAreNames(cs[1..]);
    }
  }

  lemma {:induction false} ComponentsHoldNoSlash(path: string)
    ensures forall c <- Components(path) :: '/' !in c
  {
    if path != "" {
      ComponentsHoldNoSlash(path[1..]);
      var rest := Components(path[1..]);
      assert rest[0] in rest;
      assert forall c <- rest[1..] :: c in rest;
    }
  }

  lemma {:induction false} JoinedComponents(cs: seq<string>)
    requires cs != [] && forall c <- cs :: '/' !in c
    ensures Components(Join(cs)) == cs
  {
    assert cs[0] in cs;
    if |cs| == 1 {
      ComponentsUnder(cs[0], "");
      assert cs == [cs[0]];
    } else {
      assert forall c <- cs[1..] :: c in cs;
      JoinedComponents(cs[1..]);
      ComponentsUnder(cs[0], Join(cs[1..]));
      assert [cs[0]] + cs[1..] == cs;
    }
  }

  /** A path without ".." leads to save_dir itself or to a place made of names, never out of it. */
  lemma PlaceIsInside(path: string)
    requires SafePath(path)
    ensures Place(path) == "" || Plain(Place(path))
  {
    ComponentsHoldNoSlash(path);
    StepsAreNames(Components(path));
    var steps := Steps(Components(path));
    if steps != [] {
      JoinedComponents(steps);
    }
  }

  lemma {:induction false} ComponentsJoin(a: string, rest: string)
    ensures Components(a + "/" + rest) == Components(a) + Components(rest)
  {
    var path := a + "/" + rest;
    if a == "" {
      assert path[1..] == rest;
    } else {
      assert path[1..] == a[1..] + "/" + rest;
      ComponentsJoin(a[1..], rest);
    }
  }

  /** What is in front of a slash in a path of names is a path of names. */
  lemma AncestorIsPlain(a: string, path: string)
    requires Plain(path) && a in Ancestors(path)
    ensures Plain(a)
  {
    AncestorIsShorter(a, path);
    var rest := path[|a| + 1..];
    assert path == a + "/" + rest;
    ComponentsJoin(a, rest);
    assert forall c <- Components(a) :: c in Components(path);
  }
}
