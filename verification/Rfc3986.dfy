// Reference resolution as RFC 3986 has it: parsing (appendix B), recomposition (section 5.3) and the
// strict transformation of references (sections 5.2.2 to 5.2.4).
module Rfc3986 {
  import opened CStrings
  import opened UriPaths

  datatype Reference = Reference(scheme: Option<string>, authority: Option<string>, path: string,
                                 query: Option<string>, fragment: Option<string>)

  // ---------------------------------------------------------------- parsing and recomposition

  function Parse(s: string): Reference {
    var e := Break(s, ":/?#");
    if 0 < e < |s| && s[e] == ':' then ParseHier(Some(s[..e]), s[e + 1..]) else ParseHier(None, s)
  }

  function ParseHier(scheme: Option<string>, s: string): Reference {
    if "//" <= s then
      var t := s[2..];
      var e := Break(t, "/?#");
      ParsePath(scheme, Some(t[..e]), t[e..])
    else ParsePath(scheme, None, s)
  }

  function ParsePath(scheme: Option<string>, authority: Option<string>, s: string): Reference {
    var e := Break(s, "?#");
    Reference(scheme, authority, s[..e], Query(s[e..]), Fragment(s[e..]))
  }

  /** The query of what follows a path. */
  function Query(tail: string): Option<string> {
    if "?" <= tail then Some(tail[1..][..Break(tail[1..], "#")]) else None
  }

  function Fragment(tail: string): Option<string> {
    var e := Break(tail, "#");
    if e == |tail| then None else Some(tail[e + 1..])
  }

  /** A query and a fragment as they follow a path. */
  function Tail(query: Option<string>, fragment: Option<string>): string {
    (if query.Some? then "?" + query.value else "") + (if fragment.Some? then "#" + fragment.value else "")
  }

  function Root(scheme: Option<string>, authority: Option<string>): string {
    (if scheme.Some? then scheme.value + ":" else "") + (if authority.Some? then "//" + authority.value else "")
  }

  function Compose(r: Reference): string {
    Root(r.scheme, r.authority) + r.path + Tail(r.query, r.fragment)
  }

  // ---------------------------------------------------------------- transformation

  /** Section 5.2.3: the reference path instead of the last segment of the base path. */
  function Merge(base: Reference, path: string): string {
    if base.authority.Some? && base.path == "" then "/" + path
    else base.path[..LastIndexOf(base.path, '/') + 1] + path
  }

  /** The output buffer without its last segment and the slash before it. */
  function WithoutLast(output: string): string {
    var i := LastIndexOf(output, '/');
    if i < 0 then "" else output[..i]
  }

  /** Section 5.2.4, rule by rule. */
  function RemoveDotSegments(input: string, output: string): string
    decreases |input|
  {
    if input == "" then output
    else if "../" <= input then RemoveDotSegments(input[3..], output)
    else if "./" <= input then RemoveDotSegments(input[2..], output)
    else if "/./" <= input then RemoveDotSegments(input[2..], output)
    else if input == "/." then RemoveDotSegments("/", output)
    else if "/../" <= input then RemoveDotSegments(input[3..], WithoutLast(output))
    else if input == "/.." then RemoveDotSegments("/", WithoutLast(output))
    else if input == "." || input == ".." then output
    else
      var e := FirstSegment(input);
      RemoveDotSegments(input[e..], output + input[..e])
  }

  /** The length of the first path segment with the slash before it. */
  function FirstSegment(input: string): (e: nat)
    requires input != ""
    ensures 0 < e <= |input|
  {
    if input[0] == '/' then 1 + Break(input[1..], "/") else Break(input, "/")
  }

  /** Section 5.2.2. */
  function Transform(base: Reference, r: Reference): Reference {
    if r.scheme.Some? then r.(path := RemoveDotSegments(r.path, ""))
    else if r.authority.Some? then r.(scheme := base.scheme, path := RemoveDotSegments(r.path, ""))
    else if r.path == "" then
      Reference(base.scheme, base.authority, base.path, if r.query.Some? then r.query else base.query, r.fragment)
    else
      var path := if "/" <= r.path then r.path else Merge(base, r.path);
      Reference(base.scheme, base.authority, RemoveDotSegments(path, ""), r.query, r.fragment)
  }

  function ResolveReference(base: string, reference: string): string {
    Compose(Transform(Parse(base), Parse(reference)))
  }

  // ---------------------------------------------------------------- parsing takes nothing away

  /** What may follow a path. */
  predicate IsTail(tail: string) {
    tail == "" || tail[0] == '?' || tail[0] == '#'
  }

  lemma TailComposed(tail: string)
    requires IsTail(tail)
    ensures Tail(Query(tail), Fragment(tail)) == tail
  {
    var e := Break(tail, "#");
    if tail != "" && tail[0] == '?' {
      var t := tail[1..];
      assert "?" <= tail && Break(tail, "#") == 1 + Break(t, "#");
      if e < |tail| {
        assert tail == "?" + t[..e - 1] + ("#" + tail[e + 1..]);
      } else {
        assert tail == "?" + t[..e - 1];
      }
    } else if tail != "" {
      assert e == 0 && tail == "#" + tail[1..];
    }
  }

  /** The parts of every text put together are the text, and a part ends where the next one starts. */
  lemma ParseComposed(s: string)
    ensures var r := Parse(s);
            && Compose(r) == s
            && (r.scheme.Some? ==> r.scheme.value != "" && Break(r.scheme.value, ":/?#") == |r.scheme.value|)
            && (r.authority.Some? ==> Break(r.authority.value, "/?#") == |r.authority.value|)
            && Break(r.path, "?#") == |r.path|
            && (r.authority.Some? ==> r.path == "" || "/" <= r.path)
            && IsTail(Tail(r.query, r.fragment))
  {
    hide Query, Fragment, Tail, Compose, Break, IsTail, ParseHier;
    var e := Break(s, ":/?#");
    if 0 < e < |s| && s[e] == ':' {
      HierComposed(Some(s[..e]), s[e + 1..]);
      BreakTaken(s, ":/?#");
      assert s[e..] == ":" + s[e + 1..];
      assert s == s[..e] + ":" + s[e + 1..];
    } else {
      HierComposed(None, s);
      assert "" + s == s;
    }
  }

  lemma HierComposed(scheme: Option<string>, s: string)
    ensures var r := ParseHier(scheme, s);
            && Compose(r) == Root(scheme, None) + s
            && r.scheme == scheme
            && (r.authority.Some? ==> Break(r.authority.value, "/?#") == |r.authority.value|)
            && Break(r.path, "?#") == |r.path|
            && (r.authority.Some? ==> r.path == "" || "/" <= r.path)
            && IsTail(Tail(r.query, r.fragment))
  {
    hide Query, Fragment, Tail, Root, Compose, Break, IsTail;
    if "//" <= s {
      var t := s[2..];
      var e := Break(t, "/?#");
      PathComposed(scheme, Some(t[..e]), t[e..]);
      BreakTaken(t, "/?#");
      RootSplit(scheme, t[..e], t[e..]);
      assert s == "//" + (t[..e] + t[e..]);
      PathStartsAtSlash(t, e, ParsePath(scheme, Some(t[..e]), t[e..]).path);
    } else {
      PathComposed(scheme, None, s);
    }
  }

  lemma RootSplit(scheme: Option<string>, authority: string, rest: string)
    ensures Root(scheme, Some(authority)) + rest == Root(scheme, None) + ("//" + (authority + rest))
  {
  }

  lemma PathStartsAtSlash(t: string, e: nat, path: string)
    requires e == Break(t, "/?#") && path <= t[e..] && Break(path, "?#") == |path|
    ensures path == "" || "/" <= path
  {
    if path != "" {
      assert path[0] == t[e..][0] == t[e];
    }
  }

  lemma PathComposed(scheme: Option<string>, authority: Option<string>, s: string)
    ensures var r := ParsePath(scheme, authority, s);
            && Compose(r) == Root(scheme, authority) + s
            && r.path <= s && Break(r.path, "?#") == |r.path| && IsTail(Tail(r.query, r.fragment))
  {
    hide Query, Fragment, Tail, Root;
    var e := Break(s, "?#");
    TailComposed(s[e..]);
    BreakTaken(s, "?#");
    assert s == s[..e] + s[e..];
  }

  /** The part in front of the first delimiter has none. */
  lemma BreakTaken(s: string, delim: string)
    ensures var e := Break(s, delim); Break(s[..e], delim) == e
  {
    var e := Break(s, delim);
    assert forall i :: 0 <= i < e ==> s[..e][i] == s[i];
  }

  // ---------------------------------------------------------------- dot segments, as segments

  predicate IsDot(segment: string) {
    segment == "." || segment == ".."
  }

  predicate DotFree(segments: seq<string>) {
    forall s <- segments :: !IsDot(s)
  }

  function Pop(output: seq<string>, n: nat): seq<string> {
    if n <= |output| then output[..|output| - n] else []
  }

  /** The segments left after all of input: one is dropped for every "..", none is added for a ".". */
  function Stack(input: seq<string>, output: seq<string>): (r: seq<string>)
    ensures |r| <= |input| + |output|
  {
    if input == [] then output
    else if input[0] == "." then Stack(input[1..], output)
    else if input[0] == ".." then Stack(input[1..], Pop(output, 1))
    else Stack(input[1..], output + [input[0]])
  }

  /** A dot segment at the end leaves an empty last segment. */
  function Reduce(input: seq<string>, output: seq<string>): seq<string> {
    Stack(input, output) + (if input != [] && IsDot(input[|input| - 1]) then [""] else [])
  }

  lemma {:induction false} NoSlashPop(output: seq<string>, n: nat)
    requires NoSlash(output)
    ensures NoSlash(Pop(output, n))
  {
  }

  lemma WithoutLastSegment(output: seq<string>)
    requires NoSlash(output)
    ensures WithoutLast(Path(output)) == Path(Pop(output, 1))
  {
    if output != [] {
      var front, last := output[..|output| - 1], output[|output| - 1];
      assert output == front + [last] && last in output;
      PathSnoc(front, last);
      var p := Path(output);
      assert forall k :: |Path(front)| < k < |p| ==> p[k] == last[k - |Path(front)| - 1];
      LastIndexOfIs(p, '/', |Path(front)|);
      assert p[..|Path(front)|] == Path(front);
    }
  }

  /** Which rule of section 5.2.4 applies to a path whose first segment is s. */
  lemma RuleOf(s: string, rest: string)
    requires '/' !in s && (rest == "" || "/" <= rest)
    ensures var input := "/" + s + rest;
            && !("../" <= input) && !("./" <= input) && input != "." && input != ".."
            && ("/./" <= input <==> s == "." && rest != "")
            && (input == "/." <==> s == "." && rest == "")
            && ("/../" <= input <==> s == ".." && rest != "")
            && (input == "/.." <==> s == ".." && rest == "")
            && FirstSegment(input) == 1 + |s| && input[..1 + |s|] == "/" + s && input[1 + |s|..] == rest
  {
    var input := "/" + s + rest;
    BreakAtSlash(s, rest);
    assert input[0] == '/' && input[1..] == s + rest;
    assert rest != "" ==> rest[0] == '/';
    if |s| > 0 {
      assert input[1] == s[0] && s[0] in s;
    }
    if |s| > 1 {
      assert input[2] == s[1] && s[1] in s;
    }
    if |s| > 2 {
      assert input[3] == s[2] && s[2] in s;
    }
  }

  lemma JustASlash(output: string)
    ensures RemoveDotSegments("/", output) == output + "/"
  {
    RuleOf("", "");
    assert "/" + "" + "" == "/";
    assert RemoveDotSegments("/", output) == RemoveDotSegments("", output + "/");
  }

  /** On a path the rules compute Reduce. */
  lemma {:induction false} RemovedFromPath(input: seq<string>, output: seq<string>)
    requires input != [] && NoSlash(input) && NoSlash(output)
    ensures RemoveDotSegments(Path(input), Path(output)) == Path(Reduce(input, output))
    decreases |input|
  {
    hide FirstSegment, WithoutLast, IsDot, RemoveDotSegments, Reduce, Path;
    var s, rest, p := input[0], input[1..], Path(input[1..]);
    assert s in input;
    NoSlashConcat([s], rest);
    assert input == [s] + rest;
    RemoveOne(s, p, Path(output));
    PathOfFirst(s, rest);
    ReduceOne(s, rest, output);
    WithoutLastSegment(output);
    NoSlashPop(output, 1);
    PathSnoc(output, "");
    PathSnoc(Pop(output, 1), "");
    PathSnoc(output, s);
    assert "/" + "" == "/";
    if rest == [] {
      NothingLeft(Path(output + [s]));
    } else {
      NoSlashOne(s);
      NoSlashConcat(output, [s]);
      RemovedFromPath(rest, if s == "." then output else if s == ".." then Pop(output, 1) else output + [s]);
    }
  }

  /** An example of section 5.2.4. */
  lemma RemovedExample()
    ensures RemoveDotSegments("/a/b/c/./../../g", "") == "/a/g"
  {
    hide RemoveDotSegments, NoSlash, Reduce, Path;
    var input := ["a", "b", "c", ".", "..", "..", "g"];
    ExamplePaths();
    ExampleStack();
    ExampleNoSlash();
    RemovedFromPath(input, []);
  }

  lemma ExampleNoSlash()
    ensures NoSlash(["a", "b", "c", ".", "..", "..", "g"]) && NoSlash([])
  {
  }

  lemma ExamplePaths()
    ensures Path(["a", "b", "c", ".", "..", "..", "g"]) == "/a/b/c/./../../g"
    ensures Path(["a", "g"]) == "/a/g" && Path([]) == ""
  {
    assert Path([]) == "";
    hide *;
    ExampleFront();
    ExampleBack();
    TwoSegments("a", "g");
    PathConcat(["a", "b", "c", "."], ["..", "..", "g"]);
    assert ["a", "b", "c", "."] + ["..", "..", "g"] == ["a", "b", "c", ".", "..", "..", "g"];
    assert "/a/b/c/." + "/../../g" == "/a/b/c/./../../g";
  }

  lemma ExampleFront()
    ensures Path(["a", "b", "c", "."]) == "/a/b/c/."
  {
    hide Path;
    FourSegments("a", "b", "c", ".");
  }

  lemma ExampleBack()
    ensures Path(["..", "..", "g"]) == "/../../g"
  {
    hide Path;
    ThreeSegments("..", "..", "g");
  }

  lemma TwoSegments(a: string, b: string)
    ensures Path([a, b]) == "/" + a + ("/" + b)
  {
    PathOne(a);
    PathSnoc([a], b);
    assert [a] + [b] == [a, b];
  }

  lemma ThreeSegments(a: string, b: string, c: string)
    ensures Path([a, b, c]) == "/" + a + ("/" + b) + ("/" + c)
  {
    TwoSegments(a, b);
    PathSnoc([a, b], c);
    assert [a, b] + [c] == [a, b, c];
  }

  lemma FourSegments(a: string, b: string, c: string, d: string)
    ensures Path([a, b, c, d]) == "/" + a + ("/" + b) + ("/" + c) + ("/" + d)
  {
    ThreeSegments(a, b, c);
    PathSnoc([a, b, c], d);
    assert [a, b, c] + [d] == [a, b, c, d];
  }

  lemma ExampleStack()
    ensures Reduce(["a", "b", "c", ".", "..", "..", "g"], []) == ["a", "g"]
  {
    assert ["a"] + ["g"] == ["a", "g"] && ["a", "b"] + ["c"] == ["a", "b", "c"] && ["a"] + ["b"] == ["a", "b"];
    assert [] + ["a"] == ["a"];
    assert Pop(["a", "b", "c"], 1) == ["a", "b"] && Pop(["a", "b"], 1) == ["a"];
    assert Stack(["g"], ["a"]) == ["a", "g"];
    assert Stack(["..", "g"], ["a", "b"]) == ["a", "g"];
    assert Stack(["..", "..", "g"], ["a", "b", "c"]) == ["a", "g"];
    assert Stack([".", "..", "..", "g"], ["a", "b", "c"]) == ["a", "g"];
    assert Stack(["c", ".", "..", "..", "g"], ["a", "b"]) == ["a", "g"];
    assert Stack(["b", "c", ".", "..", "..", "g"], ["a"]) == ["a", "g"];
  }

  lemma PathOfFirst(s: string, rest: seq<string>)
    ensures Path([s] + rest) == "/" + s + Path(rest) && (Path(rest) == "" <==> rest == [])
  {
    assert ([s] + rest)[1..] == rest;
  }

  lemma NothingLeft(output: string)
    ensures RemoveDotSegments("", output) == output
  {
  }

  /** One application of a rule to a path. */
  lemma RemoveOne(s: string, rest: string, output: string)
    requires '/' !in s && (rest == "" || "/" <= rest)
    ensures RemoveDotSegments("/" + s + rest, output) ==
              if s == "." then (if rest == "" then output + "/" else RemoveDotSegments(rest, output))
              else if s == ".." then
                (if rest == "" then WithoutLast(output) + "/" else RemoveDotSegments(rest, WithoutLast(output)))
              else RemoveDotSegments(rest, output + ("/" + s))
  {
    hide FirstSegment, WithoutLast;
    RuleOf(s, rest);
    JustASlash(output);
    JustASlash(WithoutLast(output));
    var input := "/" + s + rest;
    assert s == "." ==> input[2..] == rest;
    assert s == ".." ==> input[3..] == rest;
  }

  lemma ReduceOne(s: string, rest: seq<string>, output: seq<string>)
    ensures Reduce([s] + rest, output) ==
              if rest == [] then (if s == "." then output + [""] else if s == ".." then Pop(output, 1) + [""] else output + [s])
              else Reduce(rest, if s == "." then output else if s == ".." then Pop(output, 1) else output + [s])
  {
    hide Pop;
    assert ([s] + rest)[1..] == rest;
    var next := if s == "." then output else if s == ".." then Pop(output, 1) else output + [s];
    assert Stack([s] + rest, output) == Stack(rest, next);
    if rest == [] {
      assert Stack(rest, next) == next && next + [] == next;
    }
  }

  // ---------------------------------------------------------------- when nothing is removed

  lemma {:induction false} StackConcat(a: seq<string>, b: seq<string>, output: seq<string>)
    ensures Stack(a + b, output) == Stack(b, Stack(a, output))
  {
    if a == [] {
      assert a + b == b;
    } else {
      assert (a + b)[1..] == a[1..] + b;
      StackConcat(a[1..], b, if a[0] == "." then output else if a[0] == ".." then Pop(output, 1) else output + [a[0]]);
    }
  }

  lemma {:induction false} StackDotFree(input: seq<string>, output: seq<string>)
    requires DotFree(input)
    ensures Stack(input, output) == output + input
  {
    if input != [] {
      assert input[0] in input;
      StackDotFree(input[1..], output + [input[0]]);
      assert input == [input[0]] + input[1..];
    }
  }

  lemma {:induction false} StackIsDotFree(input: seq<string>, output: seq<string>)
    requires DotFree(output)
    ensures DotFree(Stack(input, output))
  {
    if input != [] {
      var s := input[0];
      StackIsDotFree(input[1..], if s == "." then output else if s == ".." then Pop(output, 1) else output + [s]);
    }
  }

  /** Only dot-free input leaves as many segments as went in. */
  lemma {:induction false} StackFull(input: seq<string>, output: seq<string>)
    requires |Stack(input, output)| == |input| + |output|
    ensures DotFree(input)
  {
    if input != [] && !IsDot(input[0]) {
      StackFull(input[1..], output + [input[0]]);
      assert input == [input[0]] + input[1..];
    }
  }

  lemma {:induction false} StackNoSlash(input: seq<string>, output: seq<string>)
    requires NoSlash(input) && NoSlash(output)
    ensures NoSlash(Stack(input, output))
  {
    if input != [] {
      var s := input[0];
      NoSlashPop(output, 1);
      NoSlashConcat(output, [s]);
      StackNoSlash(input[1..], if s == "." then output else if s == ".." then Pop(output, 1) else output + [s]);
    }
  }

  /** n segments "..". */
  function Steps(n: nat): seq<string> {
    if n == 0 then [] else [".."] + Steps(n - 1)
  }

  lemma {:induction false} StepsNoSlash(n: nat)
    ensures NoSlash(Steps(n))
  {
    if n > 0 {
      StepsNoSlash(n - 1);
      NoSlashConcat([".."], Steps(n - 1));
    }
  }

  lemma {:induction false} StackSteps(n: nat, output: seq<string>)
    ensures Stack(Steps(n), output) == Pop(output, n)
    decreases n
  {
    if n > 0 {
      StackSteps(n - 1, Pop(output, 1));
      assert Steps(n)[1..] == Steps(n - 1);
    }
  }

  lemma {:induction false} RemovedShortens(input: string, output: string)
    ensures |RemoveDotSegments(input, output)| <= |input| + |output|
    decreases |input|
  {
    hide FirstSegment, WithoutLast;
    WithoutLastShortens(output);
    if input == "" {
    } else if "../" <= input {
      RemovedShortens(input[3..], output);
    } else if "./" <= input || "/./" <= input {
      RemovedShortens(input[2..], output);
    } else if input == "/." {
      RemovedShortens("/", output);
    } else if "/../" <= input {
      RemovedShortens(input[3..], WithoutLast(output));
    } else if input == "/.." {
      RemovedShortens("/", WithoutLast(output));
    } else if input != "." && input != ".." {
      var e := FirstSegment(input);
      RemovedShortens(input[e..], output + input[..e]);
    }
  }

  lemma WithoutLastShortens(output: string)
    ensures |WithoutLast(output)| <= |output|
  {
  }

  /** On a path that starts with a slash nothing is removed exactly when it has no dot segment. */
  lemma {:induction false} PathKeptIff(input: seq<string>, output: string)
    requires input != [] && NoSlash(input)
    ensures DotFree(input) ==> RemoveDotSegments(Path(input), output) == output + Path(input)
    ensures !DotFree(input) ==> |RemoveDotSegments(Path(input), output)| < |output| + |Path(input)|
    decreases |input|
  {
    hide WithoutLast, RemoveDotSegments, Path;
    var s, rest := input[0], input[1..];
    assert input == [s] + rest && s in input;
    NoSlashConcat([s], rest);
    PathOfFirst(s, rest);
    RemoveOne(s, Path(rest), output);
    WithoutLastShortens(output);
    if IsDot(s) {
      RemovedShortens(Path(rest), output);
      RemovedShortens(Path(rest), WithoutLast(output));
    } else if rest == [] {
      NothingLeft(output + ("/" + s));
    } else {
      PathKeptIff(rest, output + ("/" + s));
      assert output + ("/" + s) + Path(rest) == output + ("/" + s + Path(rest));
    }
  }

  /** Which rule applies to a path that need not start with a slash. */
  lemma RootlessRule(s: string, rest: string)
    requires s != "" && '/' !in s && (rest == "" || "/" <= rest)
    ensures var input := s + rest;
            && ("../" <= input <==> s == ".." && rest != "") && ("./" <= input <==> s == "." && rest != "")
            && (input == "." <==> s == "." && rest == "") && (input == ".." <==> s == ".." && rest == "")
            && !("/" <= input) && FirstSegment(input) == |s| && input[..|s|] == s && input[|s|..] == rest
  {
    var input := s + rest;
    BreakAtSlash(s, rest);
    assert rest != "" ==> rest[0] == '/';
    assert input[0] == s[0] && s[0] in s;
    if |s| > 1 {
      assert input[1] == s[1] && s[1] in s;
    }
    if |s| > 2 {
      assert input[2] == s[2] && s[2] in s;
    }
  }

  lemma FirstRule(s: string, rest: string)
    requires s != "" && '/' !in s && (rest == "" || "/" <= rest)
    ensures IsDot(s) && rest == "" ==> RemoveDotSegments(s + rest, "") == ""
    ensures IsDot(s) && rest != "" ==> RemoveDotSegments(s + rest, "") == RemoveDotSegments(rest[1..], "")
    ensures !IsDot(s) ==> RemoveDotSegments(s + rest, "") == RemoveDotSegments(rest, s)
  {
    hide FirstSegment;
    RootlessRule(s, rest);
    var input := s + rest;
    assert s == "." && rest != "" ==> input[2..] == rest[1..];
    assert s == ".." && rest != "" ==> input[3..] == rest[1..];
    assert "" + s == s;
  }

  /** The same for every path. */
  lemma KeptIff(path: string)
    ensures RemoveDotSegments(path, "") == path <==> DotFree(Split(path))
  {
    hide WithoutLast, RemoveDotSegments, Path, Split, NoSlash;
    SplitPath(path);
    var s, rest := Split(path)[0], Split(path)[1..];
    assert Split(path) == [s] + rest;
    NoSlashConcat([s], rest);
    PathOfFirst(s, rest);
    assert "/" + path == "/" + (s + Path(rest));
    assert ("/" + path)[1..] == path && ("/" + (s + Path(rest)))[1..] == s + Path(rest);
    NoSlashOne(s);
    if s != "" {
      FirstRule(s, Path(rest));
    }
    if s == "" && rest != [] {
      PathKeptIff(rest, "");
      assert "" + Path(rest) == path;
    } else if IsDot(s) {
      RemovedShortens(Path(rest)[if rest == [] then 0 else 1..], "");
    } else if rest != [] {
      PathKeptIff(rest, s);
    } else {
      NothingLeft(s);
    }
  }
}
