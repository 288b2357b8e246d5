// relative_URI of libhlsanalysis/src/cm3u8parse.cpp: a path of a playlist resolved against its URL.
module RelativeUris {
  import opened CStrings
  import opened UriPaths

  // ---------------------------------------------------------------- the two steps of the resolution

  /** The number of leading "../" of a path. */
  function Levels(path: string): nat {
    if "../" <= path then 1 + Levels(path[3..]) else 0
  }

  function AfterDots(path: string): string {
    if "../" <= path then AfterDots(path[3..]) else path
  }

  /** url up to its last slash. */
  function CutOnce(url: string): (cut: Option<string>)
    ensures cut.Some? ==> |cut.value| < |url|
  {
    var slash := LastIndexOf(url, '/');
    if slash < 0 then None else Some(url[..slash])
  }

  /** url cut off n times at its last slash. */
  function Cut(url: string, n: nat): Option<string> {
    if n == 0 then Some(url) else
    match CutOnce(url)
    case None => None
    case Some(base) => Cut(base, n - 1)
  }

  /** What relative_URI returns. The absolute-path branch looks for a slash from position 8 on. */
  function Resolve(url: string, path: string): Option<string>
    requires "/" <= path ==> |url| >= 8
  {
    if "http" <= path then None
    else if "/" <= path then
      var slash := 8 + IndexOf(url[8..], '/');
      if slash == |url| then None else Some(url[..slash] + "/" + path)
    else
      match Cut(url, Levels(path) + 1)
      case None => None
      case Some(base) => Some(base + "/" + AfterDots(path))
  }

  /** The URL used for a path: the resolved one, or the path itself when there is none. */
  function ResolvedOr(url: string, path: string): string
    requires "/" <= path ==> |url| >= 8
  {
    match Resolve(url, path)
    case None => path
    case Some(full) => full
  }

  /** Passes over the leading "../" and counts them. */
  method SkipDots(psz_path: string) returns (path: string, levels: nat)
    ensures levels == Levels(psz_path) && path == AfterDots(psz_path)
  {
    path, levels := psz_path, 0;
    var len := |psz_path|;
    while len >= 3 && "../" <= path
      invariant len == |path|
      invariant levels + Levels(path) == Levels(psz_path)
      invariant AfterDots(path) == AfterDots(psz_path)
      decreases len
    {
      path, len := path[3..], len - 3;
      levels := levels + 1;
    }
  }

  /** Cuts new_url at its last slash, once and then levels times more. */
  method CutAtSlashes(url: string, depth: nat) returns (ret: Option<string>)
    ensures ret == Cut(url, depth + 1)
  {
    hide Cut, CutOnce;
    var new_url, levels := url, depth;
    while true
      invariant 0 <= levels <= depth
      invariant Cut(url, depth + 1) == Cut(new_url, levels + 1)
      decreases levels
    {
      CutStep(new_url, levels + 1);
      var cut := CutOnce(new_url);
      if cut.None? {
        return None;
      }
      new_url := cut.value;
      if levels == 0 {
        break;
      }
      levels := levels - 1;
    }
    CutStep(new_url, 0);
    return Some(new_url);
  }

  method relative_URI(psz_url: string, psz_path: string) returns (ret: Option<string>)
    requires "/" <= psz_path ==> |psz_url| >= 8
    ensures ret == Resolve(psz_url, psz_path)
  {
    hide Cut, Levels, AfterDots, IndexOf;
    if "http" <= psz_path {
      return None;
    }
    var new_url, path := psz_url, psz_path;
    if "/" <= path {
      var slash := 8 + IndexOf(new_url[8..], '/');
      if slash == |new_url| {
        return None;
      }
      new_url := new_url[..slash];
    } else {
      var levels;
      path, levels := SkipDots(path);
      var cut := CutAtSlashes(new_url, levels);
      if cut.None? {
        return None;
      }
      new_url := cut.value;
    }
    ret := Some(new_url + "/" + path);
  }

  lemma CutStep(url: string, n: nat)
    ensures Cut(url, 0) == Some(url)
    ensures n > 0 ==> Cut(url, n) == match CutOnce(url)
                                     case None => None
                                     case Some(base) => Cut(base, n - 1)
  {
  }

  // ---------------------------------------------------------------- what cutting means

  /** Cutting fails exactly when there are not enough slashes. */
  lemma {:induction false} CutFailsIff(url: string, n: nat)
    ensures Cut(url, n).None? <==> Count(url, '/') < n
  {
    if n > 0 {
      var slash := LastIndexOf(url, '/');
      if slash >= 0 {
        CountAtLast(url, slash);
        CutFailsIff(url[..slash], n - 1);
      }
    }
  }

  lemma CountAtLast(url: string, slash: nat)
    requires slash < |url| && url[slash] == '/' && forall k :: slash < k < |url| ==> url[k] != '/'
    ensures Count(url, '/') == Count(url[..slash], '/') + 1
  {
    assert url == url[..slash] + "/" + url[slash + 1..];
    CountConcat(url[..slash] + "/", url[slash + 1..], '/');
    assert (url[..slash] + "/")[..slash] == url[..slash];
  }

  /** The last slash of a tail that starts with one is the last slash of the whole. */
  lemma CutOnceInTail(base: string, tail: string) returns (slash: nat)
    requires "/" <= tail
    ensures slash < |tail| && CutOnce(base + tail) == Some(base + tail[..slash])
    ensures Count(tail, '/') == Count(tail[..slash], '/') + 1
    ensures slash > 0 ==> "/" <= tail[..slash]
  {
    hide Count;
    var last := LastIndexOf(tail, '/');
    assert tail[0] == '/';
    slash := last;
    LastIndexOfIs(base + tail, '/', |base| + slash);
    CountAtLast(tail, slash);
    assert (base + tail)[..|base| + slash] == base + tail[..slash];
  }

  /** The n slashes cut at are the last n: what is cut off starts with a slash and holds n of them. */
  lemma {:induction false} CutOff(base: string, tail: string, n: nat)
    requires "/" <= tail && Count(tail, '/') == n
    ensures Cut(base + tail, n) == Some(base)
    decreases n
  {
    hide Count, CutOnce;
    var slash := CutOnceInTail(base, tail);
    if slash > 0 {
      CutOff(base, tail[..slash], n - 1);
    } else {
      NoSlashInNothing();
      assert base + tail[..slash] == base;
    }
  }

  lemma NoSlashInNothing()
    ensures Count("", '/') == 0
  {
  }

  /** Cutting n segments off a path, or everything and more. */
  lemma CutPath(base: string, segments: seq<string>, n: nat)
    requires NoSlash(segments)
    ensures n <= |segments| ==> Cut(base + Path(segments), n) == Some(base + Path(segments[..|segments| - n]))
    ensures n > |segments| && '/' !in base ==> Cut(base + Path(segments), n) == None
  {
    hide Path, Cut, NoSlash, Count;
    if n == 0 {
      assert segments[..|segments| - n] == segments;
      CutStep(base + Path(segments), 0);
    } else if n <= |segments| {
      var front, back := segments[..|segments| - n], segments[|segments| - n..];
      assert segments == front + back;
      PathConcat(front, back);
      NoSlashConcat(front, back);
      CountPath(back);
      CutOff(base + Path(front), Path(back), n);
      assert base + Path(front) + Path(back) == base + Path(segments);
    } else if '/' !in base {
      CountPath(segments);
      CountConcat(base, Path(segments), '/');
      CutFailsIff(base + Path(segments), n);
    }
  }

  // ---------------------------------------------------------------- relative paths

  function Dots(n: nat): string {
    if n == 0 then "" else "../" + Dots(n - 1)
  }

  lemma {:induction false} DotsThen(n: nat, r: string)
    requires !("../" <= r)
    ensures Levels(Dots(n) + r) == n && AfterDots(Dots(n) + r) == r
  {
    if n == 0 {
      assert Dots(n) + r == r;
    } else {
      assert (Dots(n) + r)[3..] == Dots(n - 1) + r;
      DotsThen(n - 1, r);
    }
  }

  /** A path of n steps up and then r, which is neither absolute nor a URL. */
  ghost predicate IsRelative(n: nat, r: string) {
    !("../" <= r) && !("/" <= Dots(n) + r) && !("http" <= Dots(n) + r)
  }

  /**
   * The path "../" n times, then r, against the URL root/s1/.../sm/f: up to m levels the result is
   * root/s1/.../s(m-n)/r.
   */
  lemma ClimbsWithinPath(root: string, segments: seq<string>, f: string, n: nat, r: string)
    requires NoSlash(segments) && '/' !in f && n <= |segments|
    requires IsRelative(n, r)
    ensures Resolve(root + Path(segments) + "/" + f, Dots(n) + r)
         == Some(root + Path(segments[..|segments| - n]) + "/" + r)
  {
    hide *;
    var all := segments + [f];
    NoSlashConcat(segments, [f]);
    NoSlashOne(f);
    PathSnoc(segments, f);
    CutPath(root, all, n + 1);
    assert all[..|all| - (n + 1)] == segments[..|segments| - n];
    Associative(root, Path(segments), f);
    ResolveCut(root + Path(segments) + "/" + f, root + Path(segments[..|segments| - n]), n, r);
  }

  lemma Associative(root: string, path: string, f: string)
    ensures root + (path + ("/" + f)) == root + path + "/" + f
  {
  }

  lemma ResolveCut(url: string, base: string, n: nat, r: string)
    requires IsRelative(n, r) && Cut(url, n + 1) == Some(base)
    ensures Resolve(url, Dots(n) + r) == Some(base + "/" + r)
  {
    hide Cut, Levels, AfterDots, Dots;
    DotsThen(n, r);
  }

  lemma ResolveFrom(url: string, path: string, base: string)
    requires !("/" <= path) && !("http" <= path) && Cut(url, Levels(path) + 1) == Some(base)
    ensures Resolve(url, path) == Some(base + "/" + AfterDots(path))
  {
  }

  /** When no URL can be made of a path at all: every URL and every path. */
  lemma ResolveFailsIff(url: string, path: string)
    requires "/" <= path ==> |url| >= 8
    ensures Resolve(url, path).None? <==>
              || "http" <= path
              || ("/" <= path && '/' !in url[8..])
              || (!("/" <= path) && Count(url, '/') <= Levels(path))
  {
    hide Cut, Count, Levels, AfterDots;
    CutFailsIff(url, Levels(path) + 1);
    if "/" <= path {
      var i := IndexOf(url[8..], '/');
      assert i == |url[8..]| ==> url[8..][..i] == url[8..];
    }
  }

  /** A relative path cannot be resolved exactly when it climbs to or over the first slash. */
  lemma UnresolvedIff(url: string, n: nat, r: string)
    requires IsRelative(n, r)
    ensures Resolve(url, Dots(n) + r).None? <==> Count(url, '/') <= n
  {
    hide Cut, Levels, AfterDots, Count, Dots;
    DotsThen(n, r);
    CutFailsIff(url, n + 1);
  }

  /** Climbing over the root eats into it. */
  lemma ClimbsOverRoot()
    ensures Resolve("http://h/f", "../r") == Some("http://r")
  {
    hide Cut, Levels, AfterDots, Path, Count, Resolve;
    PathConcat(["h"], ["f"]);
    PathOne("h");
    PathOne("f");
    assert ["h"] + ["f"] == ["h", "f"] && "/" + "h" + ("/" + "f") == "/h/f";
    CountPath(["h", "f"]);
    CutOff("http:/", "/h/f", 2);
    assert "http:/" + "/h/f" == "http://h/f";
    assert Dots(1) + "r" == "../r" by {
      assert Dots(0) == "" && Dots(1) == "../" + Dots(0);
    }
    assert "../r"[0] == '.';
    assert IsRelative(1, "r");
    ResolveCut("http://h/f", "http:/", 1, "r");
    assert "http:/" + "/" + "r" == "http://r";
  }

  /** An absolute path is appended to the authority with one slash too many. */
  lemma AbsoluteDoublesSlash(authority: string, rest: string, p: string)
    requires |authority| >= 8 && '/' !in authority[8..]
    ensures Resolve(authority + "/" + rest, "/" + p) == Some(authority + "//" + p)
  {
    var url := authority + "/" + rest;
    var tail := authority[8..];
    assert url[8..] == tail + "/" + rest;
    assert url[8..][..|tail|] == tail;
    IndexOfIs(url[8..], '/', |tail|);
    assert url[..|authority|] == authority;
    assert ("/" + p)[0] == '/';
    assert authority + "/" + ("/" + p) == authority + "//" + p;
  }
}
