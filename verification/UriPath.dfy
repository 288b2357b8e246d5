// Paths of URLs as lists of segments.
module UriPaths {
  import opened CStrings

  /** How many c there are in s. */
  function Count(s: string, c: char): (n: nat)
    ensures n == 0 <==> c !in s
  {
    if s == "" then 0 else Count(s[..|s| - 1], c) + (if s[|s| - 1] == c then 1 else 0)
  }

  lemma {:induction false} CountConcat(s: string, t: string, c: char)
    ensures Count(s + t, c) == Count(s, c) + Count(t, c)
  {
    if t == "" {
      assert s + t == s;
    } else {
      assert (s + t)[..|s + t| - 1] == s + t[..|t| - 1];
      CountConcat(s, t[..|t| - 1], c);
    }
  }

  /** Each segment behind a slash. */
  function Path(segments: seq<string>): (p: string)
    ensures segments != [] ==> "/" <= p
    ensures segments == [] ==> p == ""
  {
    if segments == [] then "" else "/" + segments[0] + Path(segments[1..])
  }

  ghost predicate NoSlash(segments: seq<string>) {
    forall s <- segments :: '/' !in s
  }

  lemma {:induction false} CountPath(segments: seq<string>)
    requires NoSlash(segments)
    ensures Count(Path(segments), '/') == |segments|
  {
    if segments != [] {
      assert segments[0] in segments;
      CountPath(segments[1..]);
      CountConcat("/" + segments[0], Path(segments[1..]), '/');
      CountConcat("/", segments[0], '/');
      assert "/"[..0] == "";
    }
  }

  lemma {:induction false} PathConcat(a: seq<string>, b: seq<string>)
    ensures Path(a + b) == Path(a) + Path(b)
  {
    if a == [] {
      assert a + b == b;
    } else {
      assert (a + b)[1..] == a[1..] + b;
      PathConcat(a[1..], b);
    }
  }

  lemma PathOne(segment: string)
    ensures Path([segment]) == "/" + segment
  {
    assert Path([segment][1..]) == "";
  }

  lemma PathSnoc(segments: seq<string>, last: string)
    ensures Path(segments + [last]) == Path(segments) + ("/" + last)
  {
    PathConcat(segments, [last]);
    PathOne(last);
  }

  lemma NoSlashConcat(a: seq<string>, b: seq<string>)
    ensures NoSlash(a + b) <==> NoSlash(a) && NoSlash(b)
  {
    if NoSlash(a + b) {
      assert forall s :: s in a ==> s in a + b;
      assert forall s :: s in b ==> s in a + b;
    }
  }

  /** The text between the slashes of s. */
  function Split(s: string): (segments: seq<string>)
    ensures segments != []
  {
    var e := IndexOf(s, '/');
    if e == |s| then [s] else [s[..e]] + Split(s[e + 1..])
  }

  lemma {:induction false} SplitPath(s: string)
    ensures NoSlash(Split(s)) && Path(Split(s)) == "/" + s
    ensures |Split(s)| == Count(s, '/') + 1
  {
    hide *;
    SplitOnce(s);
    var e := IndexOf(s, '/');
    if e == |s| {
      assert s[..e] == s;
      PathOne(s);
      NoSlashOne(s);
    } else {
      var rest := s[e + 1..];
      SplitPath(rest);
      AroundSlash(s, e);
      FirstOfSplit(s[..e], rest, Split(rest));
      CountAround(s[..e], rest);
    }
  }

  lemma SplitOnce(s: string)
    ensures var e := IndexOf(s, '/');
            Split(s) == if e == |s| then [s] else [s[..e]] + Split(s[e + 1..])
  {
    hide IndexOf;
  }

  lemma AroundSlash(s: string, e: nat)
    requires e < |s| && s[e] == '/'
    ensures s == s[..e] + ("/" + s[e + 1..])
  {
    assert s == s[..e] + s[e..];
    assert s[e..] == "/" + s[e + 1..];
  }

  lemma NoSlashOne(s: string)
    ensures NoSlash([s]) <==> '/' !in s
  {
    assert s in [s];
  }

  lemma FirstOfSplit(first: string, rest: string, segments: seq<string>)
    requires '/' !in first && NoSlash(segments) && Path(segments) == "/" + rest
    ensures NoSlash([first] + segments) && Path([first] + segments) == "/" + (first + ("/" + rest))
  {
    hide Path;
    PathConcat([first], segments);
    PathOne(first);
    NoSlashConcat([first], segments);
  }

  /** The slashes of two texts with one between them. */
  lemma CountAround(s: string, t: string)
    ensures Count(s + ("/" + t), '/') == Count(s, '/') + 1 + Count(t, '/')
  {
    CountConcat(s, "/" + t, '/');
    CountConcat("/", t, '/');
    assert "/"[..0] == "";
  }

  /** A path has one list of segments only. */
  lemma {:induction false} PathInjective(a: seq<string>, b: seq<string>)
    requires NoSlash(a) && NoSlash(b) && Path(a) == Path(b)
    ensures a == b
  {
    if a != [] && b != [] {
      var x, y := Path(a[1..]), Path(b[1..]);
      assert a[0] in a && b[0] in b;
      HeadOfPath(a[0], x, b[0], y);
      PathInjective(a[1..], b[1..]);
      assert a == [a[0]] + a[1..] && b == [b[0]] + b[1..];
    }
  }

  lemma HeadOfPath(s: string, x: string, t: string, y: string)
    requires '/' !in s && '/' !in t && "/" + s + x == "/" + t + y
    requires (x == "" || "/" <= x) && (y == "" || "/" <= y)
    ensures s == t && x == y
  {
    BreakAtSlash(s, x);
    BreakAtSlash(t, y);
    assert ("/" + s + x)[1..] == s + x && ("/" + t + y)[1..] == t + y;
    assert (s + x)[..|s|] == s && (t + y)[..|t|] == t;
    assert (s + x)[|s|..] == x && (t + y)[|t|..] == y;
  }

  lemma BreakAtSlash(s: string, x: string)
    requires '/' !in s && (x == "" || "/" <= x)
    ensures Break(s + x, "/") == |s|
  {
    assert x != "" ==> x[0] == '/';
    BreakOf(s, "/", x);
  }

  /** What follows a text only changes its last segment. */
  lemma SplitTail(p: string, t: string)
    ensures var d := |Split(p)| - 1; |Split(p + t)| == d + 1 + Count(t, '/') && Split(p + t)[..d] == Split(p)[..d]
  {
    hide Path, Split, Count, NoSlash;
    var segments := Split(p);
    var front, last := segments[..|segments| - 1], segments[|segments| - 1];
    assert segments == front + [last];
    SplitPath(p);
    SplitPath(p + t);
    SplitPath(last + t);
    PathSnoc(front, last);
    PathConcat(front, Split(last + t));
    assert Path(front) + ("/" + last) + t == Path(front) + ("/" + (last + t));
    assert "/" + p + t == "/" + (p + t);
    NoSlashConcat(front, [last]);
    NoSlashConcat(front, Split(last + t));
    PathInjective(Split(p + t), front + Split(last + t));
    CountConcat(p, t, '/');
  }
}
