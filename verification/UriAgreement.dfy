// When relative_URI resolves a reference as RFC 3986 does.
module UriAgreement {
  import opened CStrings
  import opened UriPaths
  import opened RelativeUris
  import opened Rfc3986

  /** The URL of a playlist: a short scheme, a host that is no dot segment, and an absolute path. */
  predicate IsPlaylistUrl(url: string) {
    var b := Parse(url);
    && b.scheme.Some? && |b.scheme.value| <= 5
    && b.authority.Some? && !IsDot(b.authority.value)
    && "/" <= b.path
  }

  /** Any path and query on any host that is no dot segment. */
  lemma HttpUrls(host: string, path: string)
    requires Break(host, "/?#") == |host| && !IsDot(host)
    ensures IsPlaylistUrl("http" + (":" + ("//" + (host + ("/" + path)))))
  {
    hide IsDot, Break, Parse, ParseHier;
    NoDelimiter(host, "/?#");
    HttpEnds();
    ParsedHier("http", "//" + (host + ("/" + path)));
    HostParsed(host, path);
  }

  lemma HttpEnds()
    ensures Break("http", ":/?#") == 4
  {
    BreakOf("http", ":/?#", "");
    assert "http" + "" == "http";
  }

  lemma HostParsed(host: string, path: string)
    requires forall c <- host :: c !in "/?#"
    ensures var r := ParseHier(Some("http"), "//" + (host + ("/" + path)));
            r.scheme == Some("http") && r.authority == Some(host) && "/" <= r.path
  {
    hide Query, Fragment;
    var behind := host + ("/" + path);
    assert ("/" + path)[0] == '/';
    BreakOf(host, "/?#", "/" + path);
    assert ("//" + behind)[2..] == behind;
    assert behind[..|host|] == host && behind[|host|..] == "/" + path;
    assert '/' !in "?#";
  }

  /** The segments of the base path without its last one. */
  function Directories(url: string): seq<string>
    requires IsPlaylistUrl(url)
  {
    var segments := Split(Parse(url).path[1..]);
    segments[..|segments| - 1]
  }

  /** The slashes in the query and the fragment of the base. */
  function LateSlashes(url: string): nat {
    Count(Tail(Parse(url).query, Parse(url).fragment), '/')
  }

  /** What stays of the base when the reference has no path. */
  function Kept(url: string, reference: string): string {
    var b := Parse(url);
    Root(b.scheme, b.authority) + b.path + (if Parse(reference).query.None? then Tail(b.query, None) else "")
  }

  /**
   * When the code and the standard agree. With a scheme: on URLs that start with "http" and have no dot
   * segment. On absolute paths and on names that only look like a URL: never. Without a path: when all
   * that is kept of the base ends at its last slash. On other paths: when the path has no dot segment
   * behind its steps up, and either it climbs exactly to the root, counting slashes in the query of the
   * base, or it stays below the root, the base has no slash in its query and no dot segment in its path.
   */
  predicate Agrees(url: string, reference: string)
    requires IsPlaylistUrl(url)
  {
    var r := Parse(reference);
    if r.scheme.Some? then "http" <= reference && DotFree(Split(r.path))
    else if "/" <= reference then false
    else if r.path == "" then LastIndexOf(url, '/') == |Kept(url, reference)| - 1
    else if "http" <= reference then false
    else
      var n, m, k := Levels(r.path), |Directories(url)|, LateSlashes(url);
      && DotFree(Split(AfterDots(r.path)))
      && (n == m + k || (n < m && k == 0 && DotFree(Directories(url))))
  }

  // ---------------------------------------------------------------- relative paths, as segments

  /** The segments the standard arrives at. */
  function Target(directories: seq<string>, n: nat, rest: seq<string>): seq<string> {
    Reduce(directories + Steps(n) + rest, [])
  }

  lemma TargetIs(directories: seq<string>, n: nat, rest: seq<string>)
    requires rest != []
    ensures Target(directories, n, rest) ==
              Stack(rest, Pop(Stack(directories, []), n)) + (if IsDot(rest[|rest| - 1]) then [""] else [])
    ensures DotFree(Target(directories, n, rest))
  {
    hide Stack, IsDot;
    var input := directories + Steps(n) + rest;
    assert input[|input| - 1] == rest[|rest| - 1];
    StackConcat(directories + Steps(n), rest, []);
    StackConcat(directories, Steps(n), []);
    StackSteps(n, Stack(directories, []));
    StackIsDotFree(input, []);
    NoDotInNothing();
  }

  lemma NoDotInNothing()
    ensures !IsDot("")
  {
  }

  /** With a rest without dot segments, what the steps up leave is extended by it. */
  lemma TargetOfDotFree(directories: seq<string>, n: nat, rest: seq<string>)
    requires rest != [] && DotFree(rest)
    ensures Target(directories, n, rest) == Pop(Stack(directories, []), n) + rest
    ensures |directories| <= n ==> Target(directories, n, rest) == rest
  {
    hide Stack, Target, IsDot;
    var left := Pop(Stack(directories, []), n);
    TargetIs(directories, n, rest);
    StackDotFree(rest, left);
    assert rest[|rest| - 1] in rest;
    assert left + rest + [] == left + rest;
    assert |directories| <= n ==> left == [] && left + rest == rest;
  }

  /**
   * The code cuts n + 1 segments off the whole URL, behind the scheme, and appends the rest as it is;
   * the list all are the segments of the path and of what follows it.
   */
  lemma SegmentsAgreeIff(authority: string, all: seq<string>, m: nat, n: nat, rest: seq<string>)
    requires !IsDot(authority) && m < |all| && n <= |all| + 1 && rest != []
    ensures var k := |all| - 1 - m;
            var whole := ["", authority] + all;
            whole[..|whole| - 1 - n] + rest == ["", authority] + Target(all[..m], n, rest)
            <==> DotFree(rest) && (n == m + k || (n < m && k == 0 && DotFree(all[..m])))
  {
    var k, whole, target := |all| - 1 - m, ["", authority] + all, Target(all[..m], n, rest);
    TargetIs(all[..m], n, rest);
    if n < |all| {
      BelowRoot(all, m, n, rest);
      assert whole[..|whole| - 1 - n] == ["", authority] + all[..|all| - 1 - n];
      SamePrefix(["", authority], all[..|all| - 1 - n] + rest, target);
      assert whole[..|whole| - 1 - n] + rest == ["", authority] + (all[..|all| - 1 - n] + rest);
    } else {
      OverRoot(authority, whole[..|whole| - 1 - n], all[..m], n, rest);
      assert whole[..|whole| - 1 - n] == ["", authority][..|whole| - 1 - n];
    }
  }

  lemma SamePrefix(p: seq<string>, a: seq<string>, b: seq<string>)
    ensures p + a == p + b <==> a == b
  {
    if p + a == p + b {
      assert a == (p + a)[|p|..] == (p + b)[|p|..] == b;
    }
  }

  lemma BelowRoot(all: seq<string>, m: nat, n: nat, rest: seq<string>)
    requires m < |all| && n < |all| && rest != []
    ensures var k := |all| - 1 - m;
            all[..|all| - 1 - n] + rest == Target(all[..m], n, rest)
            <==> DotFree(rest) && (n == m + k || (n < m && k == 0 && DotFree(all[..m])))
  {
    hide Stack, Target;
    var k, j, left := |all| - 1 - m, |all| - 1 - n, Pop(Stack(all[..m], []), n);
    TargetIs(all[..m], n, rest);
    if !DotFree(rest) {
      DotStays(all[..j], rest);
    } else {
      TargetOfDotFree(all[..m], n, rest);
      SameSuffix(all[..j], left, rest);
      if all[..j] == left && n < m + k {
        assert k == 0 && |Stack(all[..m], [])| == m;
        StackFull(all[..m], []);
      }
      if n < m && k == 0 && DotFree(all[..m]) {
        StackDotFree(all[..m], []);
        assert [] + all[..m] == all[..m] && all[..m][..m - n] == all[..j];
      }
    }
  }

  lemma DotStays(a: seq<string>, b: seq<string>)
    ensures DotFree(a + b) ==> DotFree(b)
  {
    if DotFree(a + b) {
      assert forall s :: s in b ==> s in a + b;
    }
  }

  lemma SameSuffix(a: seq<string>, b: seq<string>, c: seq<string>)
    ensures a + c == b + c <==> a == b
  {
    if a + c == b + c {
      assert |a| == |b|;
      assert a == (a + c)[..|a|] == (b + c)[..|b|] == b;
    }
  }

  lemma OverRoot(authority: string, front: seq<string>, directories: seq<string>, n: nat, rest: seq<string>)
    requires !IsDot(authority) && rest != [] && |directories| <= n
    requires front == [] || front == [""]
    ensures front + rest != ["", authority] + Target(directories, n, rest)
  {
    hide Stack, Target;
    var target := Target(directories, n, rest);
    TargetIs(directories, n, rest);
    assert |front + rest| == |front| + |rest| && |["", authority] + target| == 2 + |target|;
    if front + rest == ["", authority] + target {
      NoDotInNothing();
      forall s | s in rest ensures !IsDot(s) {
        assert s in front + rest;
        assert s in ["", authority] || s in target;
      }
      TargetOfDotFree(directories, n, rest);
    }
  }

  // ---------------------------------------------------------------- URLs, as segments

  /** The segments of a URL behind its authority. */
  function Segments(url: string): seq<string>
    requires IsPlaylistUrl(url)
  {
    var b := Parse(url);
    Split(b.path[1..] + Tail(b.query, b.fragment))
  }

  function Start(url: string): string
    requires IsPlaylistUrl(url)
  {
    Parse(url).scheme.value + ":"
  }

  function Whole(url: string): seq<string>
    requires IsPlaylistUrl(url)
  {
    ["", Parse(url).authority.value] + Segments(url)
  }

  /** A URL is its scheme and a path whose first two segments are an empty one and the authority. */
  lemma WholeUrl(url: string)
    requires IsPlaylistUrl(url)
    ensures url == Start(url) + Path(Whole(url)) && '/' !in Start(url)
    ensures NoSlash(Whole(url)) && |Whole(url)| >= 3
    ensures var m := |Directories(url)|;
            |Segments(url)| == m + 1 + LateSlashes(url) && Segments(url)[..m] == Directories(url)
  {
    hide Path, Split, Count, NoSlash, Tail, Break, IsDot, Parse, Root;
    var b := Parse(url);
    var scheme, authority, tail := b.scheme.value, b.authority.value, Tail(b.query, b.fragment);
    ParseComposed(url);
    NoneTaken(scheme, ":/?#", '/');
    NoneTaken(authority, "/?#", '/');
    SplitPath(b.path[1..] + tail);
    SplitTail(b.path[1..], tail);
    AuthorityPath(authority);
    PathConcat(["", authority], Segments(url));
    NoSlashConcat(["", authority], Segments(url));
    RootOf(scheme, authority);
    Regroup(scheme + ":", "//" + authority, b.path, tail);
  }

  lemma RootOf(scheme: string, authority: string)
    ensures Root(Some(scheme), Some(authority)) == scheme + ":" + ("//" + authority)
  {
  }

  lemma Regroup(start: string, authority: string, path: string, tail: string)
    requires "/" <= path
    ensures start + authority + path + tail == start + (authority + ("/" + (path[1..] + tail)))
  {
    assert path == "/" + path[1..];
  }

  lemma NoneTaken(s: string, delim: string, c: char)
    requires Break(s, delim) == |s| && c in delim
    ensures c !in s
  {
  }

  lemma AuthorityPath(authority: string)
    requires '/' !in authority
    ensures Path(["", authority]) == "//" + authority && NoSlash(["", authority])
  {
    assert ["", authority] == [""] + [authority];
    PathConcat([""], [authority]);
    PathOne("");
    PathOne(authority);
    assert "/" + "" + ("/" + authority) == "//" + authority;
  }

  // ---------------------------------------------------------------- the code's side

  lemma {:induction false} DotsUndone(path: string)
    ensures path == Dots(Levels(path)) + AfterDots(path) && !("../" <= AfterDots(path))
  {
    if "../" <= path {
      DotsUndone(path[3..]);
      assert path == "../" + path[3..];
    }
  }

  /** What follows the path does not look like steps up. */
  lemma {:induction false} LevelsTail(path: string, tail: string)
    requires IsTail(tail)
    ensures Levels(path + tail) == Levels(path) && AfterDots(path + tail) == AfterDots(path) + tail
  {
    var all := path + tail;
    assert |path| >= 3 ==> path[..3] == all[..3];
    assert tail != "" ==> all[|path|] == tail[0];
    if "../" <= path {
      assert all[3..] == path[3..] + tail;
      LevelsTail(path[3..], tail);
    }
  }

  /** The segments left of the URL, then the rest of the reference. */
  lemma CodeResult(url: string, reference: string)
    requires IsPlaylistUrl(url)
    requires !("/" <= reference) && !("http" <= reference)
    ensures var r, whole := Parse(reference), Whole(url);
            var n, rest, tail := Levels(r.path), AfterDots(r.path), Tail(r.query, r.fragment);
            r.scheme.None? && r.authority.None? ==>
              Resolve(url, reference) ==
                if n < |whole| then Some(Start(url) + Path(whole[..|whole| - 1 - n] + Split(rest)) + tail) else None
  {
    hide Path, Cut, Levels, AfterDots, Split, Count, Tail, NoSlash, Break, Parse, IsPlaylistUrl, Whole, Start, IsTail;
    var r, whole := Parse(reference), Whole(url);
    var n, rest, tail := Levels(r.path), AfterDots(r.path), Tail(r.query, r.fragment);
    if r.scheme.None? && r.authority.None? {
      ParseComposed(reference);
      assert reference == "" + "" + r.path + tail == r.path + tail;
      LevelsTail(r.path, tail);
      WholeUrl(url);
      CutPath(Start(url), whole, n + 1);
      if n < |whole| {
        var front := whole[..|whole| - 1 - n];
        SplitPath(rest);
        PathConcat(front, Split(rest));
        assert Start(url) + Path(front) + "/" + (rest + tail) == Start(url) + (Path(front) + ("/" + rest)) + tail;
      }
    }
  }

  // ---------------------------------------------------------------- the standard's side

  lemma {:induction false} StepsPath(n: nat, rest: string)
    ensures "/" + (Dots(n) + rest) == Path(Steps(n) + Split(rest))
  {
    hide Split, Path;
    SplitPath(rest);
    if n == 0 {
      assert Dots(n) + rest == rest && Steps(n) + Split(rest) == Split(rest);
    } else {
      StepsPath(n - 1, rest);
      PathConcat([".."], Steps(n - 1) + Split(rest));
      PathOne("..");
      assert Steps(n) + Split(rest) == [".."] + (Steps(n - 1) + Split(rest));
      OneStep(Dots(n - 1), rest);
    }
  }

  lemma OneStep(dots: string, rest: string)
    ensures "/" + ("../" + dots + rest) == "/" + ".." + ("/" + (dots + rest))
  {
  }

  /** Merging drops the last segment of the base. */
  lemma Merged(url: string, path: string)
    requires IsPlaylistUrl(url)
    ensures Merge(Parse(url), path) == Path(Directories(url)) + ("/" + path)
    ensures NoSlash(Directories(url))
  {
    hide Path, Split, NoSlash, Parse, IsDot, LastIndexOf;
    var b := Parse(url);
    var segments := Split(b.path[1..]);
    var front, last := segments[..|segments| - 1], segments[|segments| - 1];
    assert segments == front + [last];
    SplitPath(b.path[1..]);
    PathSnoc(front, last);
    NoSlashConcat(front, [last]);
    NoSlashOne(last);
    assert b.path == "/" + b.path[1..];
    ReplaceLast(Path(front), last, path);
  }

  lemma ReplaceLast(front: string, last: string, path: string)
    requires '/' !in last
    ensures var s := front + ("/" + last); s[..LastIndexOf(s, '/') + 1] + path == front + ("/" + path)
  {
    hide LastIndexOf;
    LastSlash(front, last);
    assert (front + ("/" + last))[..|front| + 1] == front + "/";
  }

  lemma {:induction false} LastSlash(front: string, last: string)
    requires '/' !in last
    ensures LastIndexOf(front + ("/" + last), '/') == |front|
    decreases |last|
  {
    var s := front + ("/" + last);
    if last == "" {
      assert s[|s| - 1] == '/';
    } else {
      var shorter := last[..|last| - 1];
      assert last[|last| - 1] in last && s[|s| - 1] == last[|last| - 1];
      assert s[..|s| - 1] == front + ("/" + shorter);
      LastSlash(front, shorter);
    }
  }

  predicate IsRelativePath(reference: string) {
    Parse(reference).scheme.None? && !("/" <= reference) && Parse(reference).path != ""
  }

  lemma NoAuthority(reference: string)
    requires Parse(reference).scheme.None? && !("/" <= reference)
    ensures Parse(reference).authority.None? && !("/" <= Parse(reference).path)
    ensures reference == Parse(reference).path + Tail(Parse(reference).query, Parse(reference).fragment)
  {
    hide Tail, Parse, Root;
    var r := Parse(reference);
    ParseComposed(reference);
    var behind := r.path + Tail(r.query, r.fragment);
    assert reference == Root(None, r.authority) + behind;
    if r.authority.Some? {
      RootStarts(r.authority.value, behind);
    } else {
      NoRoot();
      assert "" + behind == behind;
    }
  }

  lemma NoRoot()
    ensures Root(None, None) == ""
  {
  }

  lemma RootStarts(authority: string, rest: string)
    ensures "/" <= Root(None, Some(authority)) + rest
  {
  }

  lemma StandardResult(url: string, reference: string)
    requires IsPlaylistUrl(url) && IsRelativePath(reference)
    ensures var r := Parse(reference);
            var target := Target(Directories(url), Levels(r.path), Split(AfterDots(r.path)));
            && ResolveReference(url, reference)
               == Start(url) + Path(["", Parse(url).authority.value] + target) + Tail(r.query, r.fragment)
            && NoSlash(["", Parse(url).authority.value] + target)
  {
    hide Path, Split, NoSlash, Parse, Tail, Levels, AfterDots, Merge, RemoveDotSegments, Directories, IsDot, Steps, Stack, Break;
    var b, r := Parse(url), Parse(reference);
    var n, rest, dirs := Levels(r.path), AfterDots(r.path), Directories(url);
    var authority, input := b.authority.value, dirs + Steps(n) + Split(rest);
    NoAuthority(reference);
    ParseComposed(url);
    NoneTaken(authority, "/?#", '/');
    Merged(url, r.path);
    DotsUndone(r.path);
    StepsPath(n, rest);
    PathConcat(dirs, Steps(n) + Split(rest));
    assert input == dirs + (Steps(n) + Split(rest));
    SplitPath(rest);
    StepsNoSlash(n);
    NoSlashConcat(dirs, Steps(n));
    NoSlashConcat(dirs + Steps(n), Split(rest));
    NoSlashNothing();
    RemovedFromPath(input, []);
    StackNoSlash(input, []);
    TargetNoSlash(input);
    AuthorityPath(authority);
    PathConcat(["", authority], Reduce(input, []));
    NoSlashConcat(["", authority], Reduce(input, []));
    RootOf(b.scheme.value, authority);
    assert Start(url) + ("//" + authority) + Path(Reduce(input, [])) == Start(url) + ("//" + authority + Path(Reduce(input, [])));
  }

  lemma NoSlashNothing()
    ensures NoSlash([]) && Path([]) == ""
  {
  }

  lemma TargetNoSlash(input: seq<string>)
    requires NoSlash(Stack(input, []))
    ensures NoSlash(Reduce(input, []))
  {
    NoSlashOne("");
    NoSlashConcat(Stack(input, []), [""]);
    assert Stack(input, []) + [] == Stack(input, []);
  }

  // ---------------------------------------------------------------- the two sides together

  /** A text that has no scheme is none that starts with one. */
  lemma NotTheSame(url: string, reference: string)
    requires IsPlaylistUrl(url) && Parse(reference).scheme.None?
    ensures ResolveReference(url, reference) != reference
  {
    hide Transform, Compose, Parse;
    ParseComposed(url);
    var t := Transform(Parse(url), Parse(reference));
    SchemeKept(Parse(url), Parse(reference));
    var behind := ComposedScheme(t);
    SchemeParsed(t.scheme.value, behind);
  }

  lemma SchemeKept(base: Reference, r: Reference)
    requires r.scheme.None?
    ensures Transform(base, r).scheme == base.scheme
  {
  }

  lemma ComposedScheme(t: Reference) returns (behind: string)
    requires t.scheme.Some?
    ensures Compose(t) == t.scheme.value + (":" + behind)
  {
    hide Tail;
    behind := (if t.authority.Some? then "//" + t.authority.value else "") + t.path + Tail(t.query, t.fragment);
  }

  lemma SchemeParsed(scheme: string, behind: string)
    requires scheme != "" && Break(scheme, ":/?#") == |scheme|
    ensures Parse(scheme + (":" + behind)).scheme == Some(scheme)
  {
    hide Break, Parse, ParseHier;
    ParsedHier(scheme, behind);
    HierComposed(Some(scheme), behind);
  }

  lemma ParsedHier(scheme: string, behind: string)
    requires scheme != "" && Break(scheme, ":/?#") == |scheme|
    ensures Parse(scheme + (":" + behind)) == ParseHier(Some(scheme), behind)
  {
    hide Break, ParseHier;
    SchemeEnds(scheme, behind);
  }

  lemma SchemeEnds(scheme: string, behind: string)
    requires Break(scheme, ":/?#") == |scheme|
    ensures var s := scheme + (":" + behind);
            && Break(s, ":/?#") == |scheme| < |s| && s[..|scheme|] == scheme && s[|scheme|] == ':'
            && s[|scheme| + 1..] == behind
  {
    hide Break;
    NoDelimiter(scheme, ":/?#");
    assert (":" + behind)[0] == ':';
    BreakOf(scheme, ":/?#", ":" + behind);
  }

  lemma NoDelimiter(s: string, delim: string)
    requires Break(s, delim) == |s|
    ensures forall c <- s :: c !in delim
  {
  }

  lemma RelativeAgreesIff(url: string, reference: string)
    requires IsPlaylistUrl(url) && IsRelativePath(reference) && !("http" <= reference)
    ensures ResolvedOr(url, reference) == ResolveReference(url, reference) <==> Agrees(url, reference)
  {
    hide Path, Split, NoSlash, Parse, Tail, Levels, AfterDots, Resolve, ResolveReference, IsDot, Stack, Break, Target, DotFree;
    hide Directories, LateSlashes, Start, Segments;
    var r, whole, dirs := Parse(reference), Whole(url), Directories(url);
    var n, rest, tail := Levels(r.path), AfterDots(r.path), Tail(r.query, r.fragment);
    var root := ["", Parse(url).authority.value];
    var target := Target(dirs, n, Split(rest));
    NoAuthority(reference);
    CodeResult(url, reference);
    StandardResult(url, reference);
    WholeUrl(url);
    if n < |whole| {
      var code := whole[..|whole| - 1 - n] + Split(rest);
      SegmentsAgreeIff(Parse(url).authority.value, Segments(url), |dirs|, n, Split(rest));
      SplitPath(rest);
      NoSlashFront(whole, |whole| - 1 - n, Split(rest));
      SamePathIff(Start(url), code, root + target, tail);
    } else {
      NotTheSame(url, reference);
    }
  }

  lemma NoSlashFront(a: seq<string>, j: nat, b: seq<string>)
    requires j <= |a| && NoSlash(a) && NoSlash(b)
    ensures NoSlash(a[..j] + b)
  {
  }

  lemma SamePathIff(start: string, a: seq<string>, b: seq<string>, tail: string)
    requires NoSlash(a) && NoSlash(b)
    ensures start + Path(a) + tail == start + Path(b) + tail <==> a == b
  {
    hide NoSlash, Path;
    var s, t := start + Path(a) + tail, start + Path(b) + tail;
    if s == t {
      assert |Path(a)| == |Path(b)|;
      assert s[|start|..|start| + |Path(a)|] == Path(a) && t[|start|..|start| + |Path(a)|] == Path(b);
      PathInjective(a, b);
    }
  }

  lemma SchemeAgreesIff(url: string, reference: string)
    requires IsPlaylistUrl(url) && Parse(reference).scheme.Some?
    ensures !("/" <= reference) && !("../" <= reference)
    ensures ResolvedOr(url, reference) == ResolveReference(url, reference) <==> Agrees(url, reference)
  {
    hide Parse, IsDot, DotFree, Split, IsPlaylistUrl, ResolveReference;
    SchemeStart(reference);
    if "http" <= reference {
      HttpAgreesIff(url, reference);
    } else {
      OtherSchemeDisagrees(url, reference);
    }
  }

  lemma HttpAgreesIff(url: string, reference: string)
    requires Parse(reference).scheme.Some?
    ensures ResolveReference(url, reference) == reference <==> DotFree(Split(Parse(reference).path))
  {
    hide Tail, Root, RemoveDotSegments, Split, DotFree, Parse;
    var r := Parse(reference);
    ParseComposed(reference);
    KeptIff(r.path);
    SameMiddle(Root(r.scheme, r.authority), RemoveDotSegments(r.path, ""), r.path, Tail(r.query, r.fragment));
  }

  /** The code appends the whole reference to the URL, which is longer than what the standard makes of it. */
  lemma OtherSchemeDisagrees(url: string, reference: string)
    requires IsPlaylistUrl(url) && Parse(reference).scheme.Some?
    requires !("http" <= reference) && !("/" <= reference) && !("../" <= reference)
    ensures ResolvedOr(url, reference) != ResolveReference(url, reference)
  {
    hide Tail, Root, RemoveDotSegments, Parse, IsPlaylistUrl, Cut, Whole, Start, Path, Resolve;
    var r := Parse(reference);
    ParseComposed(reference);
    RemovedShortens(r.path, "");
    WholeUrl(url);
    CutPath(Start(url), Whole(url), 1);
    ResolveFrom(url, reference, Cut(url, 1).value);
    assert AfterDots(reference) == reference;
  }

  /** Before a scheme there is neither a slash nor a step up. */
  lemma SchemeStart(reference: string)
    requires Parse(reference).scheme.Some?
    ensures !("/" <= reference) && !("../" <= reference)
  {
    var e := ParsedScheme(reference);
    assert '/' in ":/?#" && reference[0] !in ":/?#";
    assert "../"[2] == '/' && ':' !in "../";
  }

  lemma ParsedScheme(reference: string) returns (e: nat)
    requires Parse(reference).scheme.Some?
    ensures 0 < e < |reference| && reference[e] == ':'
    ensures forall i :: 0 <= i < e ==> reference[i] !in ":/?#"
  {
    hide ParsePath;
    e := Break(reference, ":/?#");
    HierComposed(None, reference);
  }

  lemma SameMiddle(a: string, x: string, y: string, b: string)
    ensures a + x + b == a + y + b <==> x == y
  {
    var s, t := a + x + b, a + y + b;
    if s == t {
      assert |x| == |y|;
      assert s[|a|..|a| + |x|] == x && t[|a|..|a| + |x|] == y;
    }
  }

  lemma AbsoluteDisagrees(url: string, reference: string)
    requires IsPlaylistUrl(url) && Parse(reference).scheme.None? && "/" <= reference && |url| >= 8
    ensures ResolvedOr(url, reference) != ResolveReference(url, reference)
  {
    hide Parse, IsDot, IndexOf, ResolveReference;
    StandardIsShort(url, reference);
    if Resolve(url, reference).None? {
      NotTheSame(url, reference);
    } else {
      FirstSlash(url, 8 + IndexOf(url[8..], '/'));
    }
  }

  lemma StandardIsShort(url: string, reference: string)
    requires IsPlaylistUrl(url) && Parse(reference).scheme.None? && "/" <= reference
    ensures var b := Parse(url); |ResolveReference(url, reference)| <= |Root(b.scheme, b.authority)| + |reference|
  {
    hide Parse, IsDot, RemoveDotSegments, Tail, Merge;
    var r := Parse(reference);
    ParseComposed(reference);
    RemovedShortens(r.path, "");
    if r.authority.None? {
      assert reference == "" + r.path + Tail(r.query, r.fragment);
      TailStart(r.query, r.fragment);
      assert r.path != "" ==> r.path[0] == reference[0];
    }
  }

  lemma TailStart(query: Option<string>, fragment: Option<string>)
    ensures !("/" <= Tail(query, fragment))
  {
    var t := Tail(query, fragment);
    assert query.Some? ==> t[0] == '?';
    assert query.None? && fragment.Some? ==> t[0] == '#';
  }

  /** From position 8 on the first slash is not before the end of the authority. */
  lemma FirstSlash(url: string, slash: nat)
    requires IsPlaylistUrl(url) && 8 <= slash < |url| && url[slash] == '/'
    ensures var b := Parse(url); slash >= |Root(b.scheme, b.authority)|
  {
    hide Parse, IsDot, Tail;
    var b := Parse(url);
    var root, authority := Root(b.scheme, b.authority), b.authority.value;
    ParseComposed(url);
    NoneTaken(authority, "/?#", '/');
    RootOf(b.scheme.value, authority);
    assert url[..|root|] == root;
    assert forall i :: |b.scheme.value| + 3 <= i < |root| ==> root[i] == authority[i - |b.scheme.value| - 3];
    assert forall i :: 0 <= i < |root| ==> root[i] == url[i];
  }

  lemma EmptyPathAgreesIff(url: string, reference: string)
    requires IsPlaylistUrl(url) && Parse(reference).scheme.None? && !("/" <= reference) && Parse(reference).path == ""
    ensures !("http" <= reference)
    ensures ResolvedOr(url, reference) == ResolveReference(url, reference) <==> Agrees(url, reference)
  {
    hide *;
    TailOnly(reference);
    NoSteps(reference);
    CodeOnTail(url, reference);
    ResolvedIs(url, reference);
    KeptAndReference(url, reference);
    AgreesOnTail(url, reference);
    SamePrefixIff(url, LastIndexOf(url, '/') + 1, Kept(url, reference), reference);
  }

  lemma TailOnly(reference: string)
    requires Parse(reference).scheme.None? && !("/" <= reference) && Parse(reference).path == ""
    ensures IsTail(reference)
  {
    hide Parse, Tail, IsTail;
    NoAuthority(reference);
    ParseComposed(reference);
    assert reference == Tail(Parse(reference).query, Parse(reference).fragment);
  }

  lemma ResolvedIs(url: string, reference: string)
    requires !("/" <= reference) && Resolve(url, reference).Some?
    ensures ResolvedOr(url, reference) == Resolve(url, reference).value
  {
    hide Resolve;
  }

  lemma AgreesOnTail(url: string, reference: string)
    requires IsPlaylistUrl(url) && Parse(reference).scheme.None? && !("/" <= reference) && Parse(reference).path == ""
    ensures Agrees(url, reference) <==> LastIndexOf(url, '/') + 1 == |Kept(url, reference)|
  {
    hide Parse, IsPlaylistUrl, Kept, DotFree, Split, Levels, AfterDots, Directories, LateSlashes, LastIndexOf;
  }

  /** Without a path the code keeps everything up to the last slash of the URL. */
  lemma CodeOnTail(url: string, reference: string)
    requires IsPlaylistUrl(url) && IsTail(reference)
    ensures !("/" <= reference) && !("http" <= reference)
    ensures Resolve(url, reference) == Some(url[..LastIndexOf(url, '/') + 1] + reference)
  {
    hide *;
    var last := LastIndexOf(url, '/');
    NoSteps(reference);
    WholeUrl(url);
    CutPath(Start(url), Whole(url), 1);
    CutAtLast(url);
    ResolveFrom(url, reference, url[..last]);
    assert url[..last + 1] == url[..last] + "/";
  }

  lemma NoSteps(tail: string)
    requires IsTail(tail)
    ensures !("/" <= tail) && !("http" <= tail) && Levels(tail) == 0 && AfterDots(tail) == tail
  {
  }

  lemma CutAtLast(url: string)
    requires Cut(url, 1).Some?
    ensures var last := LastIndexOf(url, '/'); last >= 0 && Cut(url, 1) == Some(url[..last])
  {
    hide LastIndexOf;
    CutStep(url, 1);
    CutStep(CutOnce(url).value, 0);
  }

  lemma SamePrefixIff(url: string, n: nat, kept: string, tail: string)
    requires n <= |url| && kept <= url
    ensures url[..n] + tail == kept + tail <==> n == |kept|
  {
    if n == |kept| {
      assert url[..n] == kept;
    }
  }

  /** Without a path the standard appends the reference to what it keeps of the base. */
  lemma KeptAndReference(url: string, reference: string)
    requires IsPlaylistUrl(url)
    requires Parse(reference).scheme.None? && !("/" <= reference) && Parse(reference).path == ""
    ensures ResolveReference(url, reference) == Kept(url, reference) + reference && Kept(url, reference) <= url
  {
    hide Parse, IsDot, Root, Tail, RemoveDotSegments, Merge;
    var b, r := Parse(url), Parse(reference);
    NoAuthority(reference);
    ParseComposed(url);
    var kept := Root(b.scheme, b.authority) + b.path;
    TailSplit(b.query, b.fragment);
    TailSplit(b.query, r.fragment);
    assert reference == Tail(r.query, r.fragment);
    assert kept + (Tail(b.query, None) + Tail(None, b.fragment)) == kept + Tail(b.query, None) + Tail(None, b.fragment);
    if r.query.None? {
      assert kept + (Tail(b.query, None) + reference) == kept + Tail(b.query, None) + reference;
    } else {
      assert kept + "" == kept;
      assert url == kept + Tail(b.query, b.fragment);
    }
  }

  lemma TailSplit(query: Option<string>, fragment: Option<string>)
    ensures Tail(query, fragment) == Tail(query, None) + Tail(None, fragment)
  {
  }

  /** For every URL of a playlist and every reference: when relative_URI does what RFC 3986 asks for. */
  lemma AgreesIff(url: string, reference: string)
    requires IsPlaylistUrl(url) && ("/" <= reference ==> |url| >= 8)
    ensures ResolvedOr(url, reference) == ResolveReference(url, reference) <==> Agrees(url, reference)
  {
    hide Parse, IsDot, IsPlaylistUrl, ResolveReference, DotFree, Split, Levels, AfterDots, Directories, LateSlashes;
    if Parse(reference).scheme.Some? {
      SchemeAgreesIff(url, reference);
    } else if "/" <= reference {
      AbsoluteDisagrees(url, reference);
    } else if Parse(reference).path == "" {
      EmptyPathAgreesIff(url, reference);
    } else if "http" <= reference {
      NotTheSame(url, reference);
    } else {
      RelativeAgreesIff(url, reference);
    }
  }
}
