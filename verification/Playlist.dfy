// ParseStream of libhlsanalysis/src/cm3u8parse.cpp: a media playlist read line by line.
module Playlists {
  import opened Attributes
  import opened CStrings
  import opened KeyIvs
  import opened LineReader
  import opened RelativeUris
  import opened SegmentInfo
  import opened UriPaths

  datatype Segment = Segment(url: string, duration: int, psz_key_path: string)

  // ---------------------------------------------------------------- one line

  datatype Kind =
    | ExtInf | TargetDuration | MediaSequence | Key | ProgramDateTime
    | AllowCache | Discontinuity | Version | EndList | Uri | Comment

  /** The prefixes in the order in which they are tried. */
  function KindOf(line: string): Kind {
    if "#EXTINF" <= line then ExtInf
    else if "#EXT-X-TARGETDURATION" <= line then TargetDuration
    else if "#EXT-X-MEDIA-SEQUENCE" <= line then MediaSequence
    else if "#EXT-X-KEY" <= line then Key
    else if "#EXT-X-PROGRAM-DATE-TIME" <= line then ProgramDateTime
    else if "#EXT-X-ALLOW-CACHE" <= line then AllowCache
    else if "#EXT-X-DISCONTINUITY" <= line then Discontinuity
    else if "#EXT-X-VERSION" <= line then Version
    else if "#EXT-X-ENDLIST" <= line then EndList
    else if !("#" <= line) && line != "" then Uri
    else Comment
  }

  /** sscanf with a tag and "%d" behind it. */
  function IntegerBehind(scan: Scanners, line: string, tag: string): Option<int> {
    if tag <= line then scan.integer(line[|tag|..]) else None
  }

  /** sscanf with "%3s" behind the tag: up to three characters that are no white space. */
  function Answer(line: string): Option<string> {
    var tag := "#EXT-X-ALLOW-CACHE:";
    if !(tag <= line) then None else
    var word := Word(SkipSpace(line[|tag|..]), 3);
    if word == "" then None else Some(word)
  }

  function Word(s: string, width: nat): string {
    if width == 0 || s == "" || IsSpace(s[0]) then "" else [s[0]] + Word(s[1..], width - 1)
  }

  /** The value of the URI attribute without its quotes. */
  function Unquoted(value: string): string {
    if "\"" <= value then value[1..1 + IndexOf(value[1..], '"')] else value
  }

  /** relative_URI looks for the slash of an absolute path from position 8 of the URL on. */
  predicate Readable(url: string, path: string) {
    "/" <= path ==> |url| >= 8
  }

  /** The key path a key line sets, if it sets one. */
  function KeyPath(url: string, line: string): Option<string> {
    if !IsAes(line) then None else
    match Attribute(line, "URI")
    case None => None
    case Some(value) =>
      var uri := Unquoted(value);
      if Contains(uri, "://") then Some(uri)
      else if Readable(url, uri) then Resolve(url, uri)
      else None
  }

  predicate IsNone(line: string) {
    Attribute(line, "METHOD").Some? && StartsWithFold(Attribute(line, "METHOD").value, "NONE")
  }

  predicate IsAes(line: string) {
    && Attribute(line, "METHOD").Some? && !IsNone(line)
    && StartsWithFold(Attribute(line, "METHOD").value, "AES-128")
  }

  /**
   * How parse_Key ends. A relative URI that cannot be resolved makes the code assign a null pointer
   * to a string, and an absolute path with a URL of less than eight characters makes it read behind
   * the URL; what happens then is not defined.
   */
  function KeyStatus(version: int, url: string, line: string): Status {
    if Attribute(line, "METHOD").None? then Success
    else if IsNone(line) then
      if Attribute(line, "URI").Some? || (version >= 2 && Attribute(line, "IV").Some?) then Generic else Success
    else if !IsAes(line) || Attribute(line, "URI").None? then Generic
    else if KeyPath(url, line).None? then Undefined
    else match Attribute(line, "IV")
         case None => Success
         case Some(iv) => if ("0x" <= iv || "0X" <= iv) && |iv| > 18 then Success else Generic
  }

  /** How one line ends, under the protocol version in force. */
  function StatusOf(scan: Scanners, url: string, version: int, line: string): Status {
    match KindOf(line)
    case Uri => if Readable(url, line) then Success else Undefined
    case ExtInf => if InfDuration(scan, version, line).Some? then Success else Generic
    case TargetDuration => if IntegerBehind(scan, line, "#EXT-X-TARGETDURATION:").Some? then Success else Generic
    case Key => KeyStatus(version, url, line)
    case AllowCache => if Answer(line).Some? then Success else Generic
    case Version =>
      var v := IntegerBehind(scan, line, "#EXT-X-VERSION:");
      if v.Some? && 0 < v.value <= 3 then Success else Generic
    case _ => Success
  }

  /** The URL of a segment; a path that cannot be read ends the parse. */
  function SegmentUrl(url: string, path: string): string {
    if Readable(url, path) then ResolvedOr(url, path) else ""
  }

  // ---------------------------------------------------------------- what is in force at a line

  /** What a stream object holds and lines change: protocol version, key path, target duration and caching. */
  datatype Held = Held(version: int, keyPath: string, target: int, cache: bool)

  /** What a parse starts from: the URL of the playlist and what the stream object holds already. */
  datatype Setting = Setting(scan: Scanners, url: string, start: Held)

  /** The version named on the last version line before line i. */
  function VersionAt(s: Setting, lines: seq<string>, i: nat): int
    requires i <= |lines|
  {
    if i == 0 then s.start.version
    else if KindOf(lines[i - 1]).Version? && IntegerBehind(s.scan, lines[i - 1], "#EXT-X-VERSION:").Some? then
      IntegerBehind(s.scan, lines[i - 1], "#EXT-X-VERSION:").value
    else VersionAt(s, lines, i - 1)
  }

  /** The path set by the last key line before line i that sets one. */
  function KeyAt(s: Setting, lines: seq<string>, i: nat): string
    requires i <= |lines|
  {
    if i == 0 then s.start.keyPath
    else if KindOf(lines[i - 1]).Key? && KeyPath(s.url, lines[i - 1]).Some? then KeyPath(s.url, lines[i - 1]).value
    else KeyAt(s, lines, i - 1)
  }

  /** The number on the last target duration line before line i. */
  function TargetAt(s: Setting, lines: seq<string>, i: nat): int
    requires i <= |lines|
  {
    if i == 0 then s.start.target
    else if KindOf(lines[i - 1]).TargetDuration? && IntegerBehind(s.scan, lines[i - 1], "#EXT-X-TARGETDURATION:").Some? then
      IntegerBehind(s.scan, lines[i - 1], "#EXT-X-TARGETDURATION:").value
    else TargetAt(s, lines, i - 1)
  }

  /** Whether the last allow-cache line before line i allows it. */
  function CacheAt(s: Setting, lines: seq<string>, i: nat): bool
    requires i <= |lines|
  {
    if i == 0 then s.start.cache
    else if KindOf(lines[i - 1]).AllowCache? && Answer(lines[i - 1]).Some? then !("NO" <= Answer(lines[i - 1]).value)
    else CacheAt(s, lines, i - 1)
  }

  function HeldAt(s: Setting, lines: seq<string>, i: nat): Held
    requires i <= |lines|
  {
    Held(VersionAt(s, lines, i), KeyAt(s, lines, i), TargetAt(s, lines, i), CacheAt(s, lines, i))
  }

  /** The duration on the last #EXTINF line before line i and after the last URI line before it, else -1. */
  function DurationAt(s: Setting, lines: seq<string>, i: nat): int
    requires i <= |lines|
  {
    if i == 0 || KindOf(lines[i - 1]).Uri? then -1
    else if KindOf(lines[i - 1]).ExtInf? && InfDuration(s.scan, VersionAt(s, lines, i - 1), lines[i - 1]).Some? then
      InfDuration(s.scan, VersionAt(s, lines, i - 1), lines[i - 1]).value
    else DurationAt(s, lines, i - 1)
  }

  function SegmentAt(s: Setting, lines: seq<string>, i: nat): Segment
    requires i < |lines|
  {
    Segment(SegmentUrl(s.url, lines[i]), DurationAt(s, lines, i), KeyAt(s, lines, i))
  }

  /** One segment for every URI line among the first n. */
  function Segments(s: Setting, lines: seq<string>, n: nat): seq<Segment>
    requires n <= |lines|
  {
    if n == 0 then [] else
    Segments(s, lines, n - 1) + (if KindOf(lines[n - 1]).Uri? then [SegmentAt(s, lines, n - 1)] else [])
  }

  predicate Fails(s: Setting, lines: seq<string>, i: nat)
    requires i < |lines|
  {
    !StatusOf(s.scan, s.url, VersionAt(s, lines, i), lines[i]).Success?
  }

  /** n is the first line that fails, or the number of lines. */
  ghost predicate FirstFailure(s: Setting, lines: seq<string>, n: nat)
  {
    && n <= |lines|
    && (forall i :: 0 <= i < n ==> !Fails(s, lines, i))
    && (n < |lines| ==> Fails(s, lines, n))
  }

  /**
   * The outcome of a parse: the segments of all lines before the first failing one are added, and the
   * stream holds what these lines and the failing one say.
   */
  ghost predicate Parsed(s: Setting, lines: seq<string>, before: seq<Segment>, after: seq<Segment>, held: Held, err: Status)
  {
    exists n | 0 <= n <= |lines| ::
      && FirstFailure(s, lines, n)
      && (!err.Undefined? ==>
            && after == before + Segments(s, lines, n)
            && held == HeldAt(s, lines, if n < |lines| then n + 1 else n))
      && err == (if n == |lines| then Success else StatusOf(s.scan, s.url, VersionAt(s, lines, n), lines[n]))
  }

  /** The lines up to the first empty one. */
  function UpToEmpty(lines: seq<string>): (r: seq<string>)
    ensures r <= lines && "" !in r
  {
    if lines == [] || lines[0] == "" then [] else [lines[0]] + UpToEmpty(lines[1..])
  }

  // ---------------------------------------------------------------- what the segments are

  /** How many URI lines there are among the first n. */
  function UriCount(lines: seq<string>, n: nat): nat
    requires n <= |lines|
  {
    if n == 0 then 0 else UriCount(lines, n - 1) + (if KindOf(lines[n - 1]).Uri? then 1 else 0)
  }

  /** The segments are the URI lines in their order, one each. */
  lemma {:induction false} SegmentOfUriLine(s: Setting, lines: seq<string>, n: nat, i: nat)
    requires i < n <= |lines| && KindOf(lines[i]).Uri?
    ensures |Segments(s, lines, n)| == UriCount(lines, n)
    ensures UriCount(lines, i) < UriCount(lines, n)
    ensures Segments(s, lines, n)[UriCount(lines, i)] == SegmentAt(s, lines, i)
    decreases n
  {
    hide KindOf, SegmentAt;
    SegmentCount(s, lines, n - 1);
    if i < n - 1 {
      SegmentOfUriLine(s, lines, n - 1, i);
    }
  }

  lemma {:induction false} SegmentCount(s: Setting, lines: seq<string>, n: nat)
    requires n <= |lines|
    ensures |Segments(s, lines, n)| == UriCount(lines, n)
  {
    hide KindOf, SegmentAt;
    if n > 0 {
      SegmentCount(s, lines, n - 1);
    }
  }

  /** Line j gives the segment at line i its duration when no URI or #EXTINF line lies between them. */
  lemma {:induction false} DurationFromInf(s: Setting, lines: seq<string>, j: nat, i: nat)
    requires j < i <= |lines| && KindOf(lines[j]).ExtInf?
    requires InfDuration(s.scan, VersionAt(s, lines, j), lines[j]).Some?
    requires forall k :: j < k < i ==> !KindOf(lines[k]).ExtInf? && !KindOf(lines[k]).Uri?
    ensures DurationAt(s, lines, i) == InfDuration(s.scan, VersionAt(s, lines, j), lines[j]).value
    decreases i
  {
    hide KindOf, InfDuration, VersionAt;
    if j < i - 1 {
      DurationFromInf(s, lines, j, i - 1);
    }
  }

  /** Without an #EXTINF line since the previous URI line the duration is -1. */
  lemma {:induction false} NoDuration(s: Setting, lines: seq<string>, j: nat, i: nat)
    requires j <= i <= |lines| && (j == 0 || KindOf(lines[j - 1]).Uri?)
    requires forall k :: j <= k < i ==> !KindOf(lines[k]).ExtInf?
    ensures DurationAt(s, lines, i) == -1
    decreases i
  {
    hide KindOf, InfDuration, VersionAt;
    if j < i && !KindOf(lines[i - 1]).Uri? {
      NoDuration(s, lines, j, i - 1);
    }
  }

  /** The key path set at line j stays in force up to the next line that sets one. */
  lemma {:induction false} KeyFromLine(s: Setting, lines: seq<string>, j: nat, i: nat)
    requires j < i <= |lines| && KindOf(lines[j]).Key? && KeyPath(s.url, lines[j]).Some?
    requires forall k :: j < k < i ==> KindOf(lines[k]).Key? ==> KeyPath(s.url, lines[k]).None?
    ensures KeyAt(s, lines, i) == KeyPath(s.url, lines[j]).value
    decreases i
  {
    hide KindOf, KeyPath;
    if j < i - 1 {
      KeyFromLine(s, lines, j, i - 1);
    }
  }

  /** When a key line leaves the defined behaviour of the code. */
  lemma UndefinedIff(version: int, url: string, line: string)
    ensures KeyStatus(version, url, line).Undefined? <==>
              && IsAes(line) && Attribute(line, "URI").Some?
              && var uri := Unquoted(Attribute(line, "URI").value);
              && !Contains(uri, "://")
              && ("http" <= uri || ("/" <= uri && (|url| < 8 || '/' !in url[8..]))
                  || (!("/" <= uri) && Count(url, '/') <= Levels(uri)))
  {
    hide Attribute, Unquoted, Resolve, StartsWithFold, Contains, Count, Levels;
    if IsAes(line) && Attribute(line, "URI").Some? && Readable(url, Unquoted(Attribute(line, "URI").value)) {
      ResolveFailsIff(url, Unquoted(Attribute(line, "URI").value));
    }
  }

  // ---------------------------------------------------------------- the key that should be in force

  /** A key line that sets a path or clears it. */
  predicate SetsOrClears(url: string, line: string) {
    KindOf(line).Key? && (IsNone(line) || KeyPath(url, line).Some?)
  }

  /**
   * Section 4.3.2.4 of RFC 8216: the key of the last key line before line i, none behind a line with
   * the method NONE and none at the start of a playlist. No key is the empty path.
   */
  function KeyInForce(url: string, lines: seq<string>, i: nat): string
    requires i <= |lines|
  {
    if i == 0 then ""
    else if !SetsOrClears(url, lines[i - 1]) then KeyInForce(url, lines, i - 1)
    else if IsNone(lines[i - 1]) then ""
    else KeyPath(url, lines[i - 1]).value
  }

  /** The number of lines up to the last one before line i that sets or clears the key, or 0. */
  function LastKeyLine(url: string, lines: seq<string>, i: nat): (l: nat)
    requires i <= |lines|
    ensures l <= i
  {
    if i == 0 || SetsOrClears(url, lines[i - 1]) then i else LastKeyLine(url, lines, i - 1)
  }

  /** No path was ever set, neither by an earlier parse nor by the first i lines. */
  predicate NoPathBefore(s: Setting, lines: seq<string>, i: nat)
    requires i <= |lines|
  {
    s.start.keyPath == "" && forall k :: 0 <= k < i ==> !(KindOf(lines[k]).Key? && KeyPath(s.url, lines[k]).Some?)
  }

  lemma KeyPathNotEmpty(url: string, line: string)
    ensures KeyPath(url, line) != Some("")
  {
    hide Attribute, Levels, Cut, AfterDots, IsAes;
    if IsAes(line) && Attribute(line, "URI").Some? {
      var uri := Unquoted(Attribute(line, "URI").value);
      if uri == "" {
        assert forall i :: !OccursAt(uri, "://", i);
      }
    }
  }

  lemma {:induction false} NoPathIff(s: Setting, lines: seq<string>, i: nat)
    requires i <= |lines|
    ensures KeyAt(s, lines, i) == "" <==> NoPathBefore(s, lines, i)
  {
    hide KindOf, KeyPath;
    if i > 0 {
      KeyPathNotEmpty(s.url, lines[i - 1]);
      NoPathIff(s, lines, i - 1);
    }
  }

  /**
   * A segment has the key that is in force at its line exactly when the last key line that sets or
   * clears the key sets it, or there was no key to clear or to carry over from an earlier parse.
   */
  lemma {:induction false} KeyIsInForceIff(s: Setting, lines: seq<string>, i: nat)
    requires i < |lines|
    ensures var l := LastKeyLine(s.url, lines, i);
            SegmentAt(s, lines, i).psz_key_path == KeyInForce(s.url, lines, i)
            <==> (l > 0 && !IsNone(lines[l - 1])) || NoPathBefore(s, lines, l)
  {
    hide SetsOrClears, NoPathBefore, IsNone, KeyInForce, KeyAt, KindOf, KeyPath, SegmentUrl, DurationAt;
    FromLastKeyLine(s, lines, i);
    var l := LastKeyLine(s.url, lines, i);
    NoPathIff(s, lines, l);
    AtLastKeyLine(s, lines, l);
  }

  /** Since the last key line nothing has changed. */
  lemma {:induction false} FromLastKeyLine(s: Setting, lines: seq<string>, i: nat)
    requires i <= |lines|
    ensures var l := LastKeyLine(s.url, lines, i);
            && KeyAt(s, lines, i) == KeyAt(s, lines, l) && KeyInForce(s.url, lines, i) == KeyInForce(s.url, lines, l)
            && (l > 0 ==> SetsOrClears(s.url, lines[l - 1]))
  {
    hide KindOf, KeyPath, IsNone;
    if i > 0 && !SetsOrClears(s.url, lines[i - 1]) {
      FromLastKeyLine(s, lines, i - 1);
    }
  }

  lemma AtLastKeyLine(s: Setting, lines: seq<string>, l: nat)
    requires l <= |lines| && (l > 0 ==> SetsOrClears(s.url, lines[l - 1]))
    ensures l > 0 && !IsNone(lines[l - 1]) ==> KeyAt(s, lines, l) == KeyInForce(s.url, lines, l)
    ensures l == 0 || IsNone(lines[l - 1]) ==> KeyInForce(s.url, lines, l) == ""
  {
    hide KindOf, KeyPath, IsNone;
  }

  // ---------------------------------------------------------------- key lines

  function KeyLine(attrs: seq<Attr>): string {
    Line("#EXT-X-KEY", attrs)
  }

  lemma KeyLineKind(attrs: seq<Attr>)
    ensures KindOf(KeyLine(attrs)) == Key
  {
    hide Render;
    var line := KeyLine(attrs);
    assert "#EXT-X-KEY" <= line;
    assert line[4] == '-' && line[7] == 'K';
    assert "#EXTINF"[4] == 'I' && "#EXT-X-TARGETDURATION"[7] == 'T' && "#EXT-X-MEDIA-SEQUENCE"[7] == 'M';
  }

  function Aes(uri: string): seq<Attr> {
    [Attr("METHOD", "AES-128"), Attr("URI", uri)]
  }

  /** What is found on a key line with a method and a URI. */
  lemma AesAttributes(uri: string)
    requires uri != "" && ',' !in uri && '=' !in uri
    ensures var line := KeyLine(Aes(uri));
            && Attribute(line, "METHOD") == Some("AES-128") && Attribute(line, "URI") == Some(uri)
            && Attribute(line, "IV") == None
  {
    hide Attribute, Mentions, Bears, Text, Line, IsName, IndexOf;
    var attrs := Aes(uri);
    Names();
    AesMentions(uri);
    FoundIsValue("#EXT-X-KEY", attrs, "METHOD", 0);
    FoundIsValue("#EXT-X-KEY", attrs, "URI", 1);
    NotFound("#EXT-X-KEY", attrs, "IV");
  }

  lemma Names()
    ensures IsName("METHOD") && IsName("URI") && IsName("IV") && ':' !in "#EXT-X-KEY"
    ensures ',' !in "AES-128" && ',' !in "NONE"
  {
  }

  lemma AesMentions(uri: string)
    requires ',' !in uri && '=' !in uri
    ensures var attrs := Aes(uri);
            && Bears(attrs[0], "METHOD") && Bears(attrs[1], "URI")
            && !Mentions(Text(attrs[0]), "URI") && !Mentions(Text(attrs[0]), "IV") && !Mentions(Text(attrs[1]), "IV")
  {
    hide Mentions, Text;
    MethodMentions("AES-128");
    NoMention(Attr("URI", uri), "IV", 'r');
    FoldSame("METHOD");
    FoldSame("URI");
  }

  lemma MethodMentions(method_: string)
    requires '=' !in method_
    ensures !Mentions(Text(Attr("METHOD", method_)), "URI") && !Mentions(Text(Attr("METHOD", method_)), "IV")
  {
    hide Mentions, Text;
    NoMention(Attr("METHOD", method_), "URI", 'h');
    NoMention(Attr("METHOD", method_), "IV", 'o');
  }

  /** A name that does not end with attr, as the letter c shows. */
  lemma NoMention(a: Attr, attr: string, c: char)
    requires '=' !in a.name && '=' !in a.value && 0 < |attr| <= |a.name|
    requires ToLower(a.name[|a.name| - |attr|]) == c != ToLower(attr[0])
    ensures !Mentions(Text(a), attr)
  {
    hide Mentions, Text;
    MentionIff(a, attr);
  }

  /** What the attributes of a key line make of it. */
  lemma AesOutcome(version: int, url: string, line: string, uri: string)
    requires Attribute(line, "METHOD") == Some("AES-128") && Attribute(line, "URI") == Some(uri)
    requires Attribute(line, "IV") == None && uri != "" && uri[0] != '"'
    ensures !IsNone(line) && IsAes(line)
    ensures KeyPath(url, line) == if Contains(uri, "://") then Some(uri)
                                  else if Readable(url, uri) then Resolve(url, uri) else None
    ensures KeyStatus(version, url, line) == if KeyPath(url, line).None? then Undefined else Success
  {
    hide Attribute, Contains, Resolve;
    assert ToLower("AES-128"[0]) != ToLower("NONE"[0]);
    FoldSame("AES-128");
  }

  /** A key line that sets the path of a whole URL. */
  lemma AesLine(version: int, url: string)
    ensures var line := KeyLine(Aes("k://k"));
            && !IsNone(line) && KeyPath(url, line) == Some("k://k") && KeyStatus(version, url, line) == Success
  {
    hide Attribute, KeyPath, IsNone, IsAes, KeyStatus, KeyLine, Resolve;
    AesAttributes("k://k");
    AesOutcome(version, url, KeyLine(Aes("k://k")), "k://k");
    assert OccursAt("k://k", "://", 1);
  }

  /** A key line that leaves the defined behaviour, whatever the URL of the playlist is. */
  lemma UndefinedLine(version: int, url: string)
    ensures KeyStatus(version, url, KeyLine(Aes("https"))).Undefined?
  {
    hide Attribute, KeyPath, IsNone, IsAes, KeyStatus, KeyLine, Cut, Levels, AfterDots;
    AesAttributes("https");
    AesOutcome(version, url, KeyLine(Aes("https")), "https");
    forall i ensures !OccursAt("https", "://", i) {
      if 0 <= i <= 2 {
        assert "https"[i..i + 3][0] == "https"[i];
      }
    }
  }

  lemma NoneAttributes()
    ensures var line := KeyLine([Attr("METHOD", "NONE")]);
            && Attribute(line, "METHOD") == Some("NONE") && Attribute(line, "URI") == None && Attribute(line, "IV") == None
  {
    hide Attribute, Mentions, Text, Line, IsName, IndexOf;
    var attrs := [Attr("METHOD", "NONE")];
    Names();
    MethodMentions("NONE");
    FoldSame("METHOD");
    FoundIsValue("#EXT-X-KEY", attrs, "METHOD", 0);
    NotFound("#EXT-X-KEY", attrs, "URI");
    NotFound("#EXT-X-KEY", attrs, "IV");
  }

  lemma NoneLine(version: int, url: string)
    ensures var line := KeyLine([Attr("METHOD", "NONE")]);
            IsNone(line) && KeyPath(url, line) == None && KeyStatus(version, url, line) == Success
  {
    hide Attribute, KeyLine;
    NoneAttributes();
    FoldSame("NONE");
  }

  /** A playlist whose segment is not encrypted, and that is parsed with the key of an earlier one. */
  lemma KeyStaysAfterNone(s: Setting)
    ensures var lines := [KeyLine(Aes("k://k")), KeyLine([Attr("METHOD", "NONE")]), "x"];
            && FirstFailure(s, lines, 3)
            && Segments(s, lines, 3) == [Segment(SegmentUrl(s.url, "x"), -1, "k://k")]
            && KeyInForce(s.url, lines, 2) == ""
  {
    KeyLineKind(Aes("k://k"));
    KeyLineKind([Attr("METHOD", "NONE")]);
    AesLine(s.start.version, s.url);
    NoneLine(s.start.version, s.url);
    PlainUri();
    TwoKeys(s, KeyLine(Aes("k://k")), KeyLine([Attr("METHOD", "NONE")]), "x");
  }

  lemma TwoKeys(s: Setting, aes: string, none: string, uri: string)
    requires KindOf(aes).Key? && KindOf(none).Key? && KindOf(uri).Uri? && Readable(s.url, uri)
    requires !IsNone(aes) && KeyPath(s.url, aes).Some? && KeyStatus(s.start.version, s.url, aes) == Success
    requires IsNone(none) && KeyPath(s.url, none).None? && KeyStatus(s.start.version, s.url, none) == Success
    ensures var lines := [aes, none, uri];
            && FirstFailure(s, lines, 3)
            && Segments(s, lines, 3) == [Segment(SegmentUrl(s.url, uri), -1, KeyPath(s.url, aes).value)]
            && KeyInForce(s.url, lines, 2) == ""
  {
    hide KindOf, KeyPath, IsNone, KeyStatus, SegmentUrl, Readable;
    var lines := [aes, none, uri];
    assert VersionAt(s, lines, 0) == VersionAt(s, lines, 1) == VersionAt(s, lines, 2) == s.start.version;
    assert KeyAt(s, lines, 1) == KeyPath(s.url, aes).value;
    assert KeyAt(s, lines, 2) == KeyPath(s.url, aes).value;
    assert DurationAt(s, lines, 0) == -1;
    assert DurationAt(s, lines, 1) == -1;
    assert DurationAt(s, lines, 2) == -1;
    assert Segments(s, lines, 1) == [] && Segments(s, lines, 2) == [];
  }

  lemma PlainUri()
    ensures KindOf("x") == Uri && !("/" <= "x")
  {
    assert "x"[0] != '#' && "x"[0] != '/';
  }

  // ---------------------------------------------------------------- one line after another

  function VersionAfter(scan: Scanners, version: int, line: string): int {
    if KindOf(line).Version? && IntegerBehind(scan, line, "#EXT-X-VERSION:").Some? then
      IntegerBehind(scan, line, "#EXT-X-VERSION:").value
    else version
  }

  function KeyAfter(url: string, keyPath: string, line: string): string
  {
    if KindOf(line).Key? && KeyPath(url, line).Some? then KeyPath(url, line).value else keyPath
  }

  function TargetAfter(scan: Scanners, target: int, line: string): int {
    if KindOf(line).TargetDuration? && IntegerBehind(scan, line, "#EXT-X-TARGETDURATION:").Some? then
      IntegerBehind(scan, line, "#EXT-X-TARGETDURATION:").value
    else target
  }

  function CacheAfter(cache: bool, line: string): bool {
    if KindOf(line).AllowCache? && Answer(line).Some? then !("NO" <= Answer(line).value) else cache
  }

  /** What the stream holds behind a line. */
  function HeldAfter(scan: Scanners, url: string, held: Held, line: string): Held {
    Held(VersionAfter(scan, held.version, line), KeyAfter(url, held.keyPath, line),
         TargetAfter(scan, held.target, line), CacheAfter(held.cache, line))
  }

  function DurationAfter(scan: Scanners, version: int, duration: int, line: string): int {
    if KindOf(line).Uri? then -1
    else if KindOf(line).ExtInf? && InfDuration(scan, version, line).Some? then InfDuration(scan, version, line).value
    else duration
  }

  function SegmentsOf(url: string, duration: int, keyPath: string, line: string): seq<Segment>
  {
    if KindOf(line).Uri? then [Segment(SegmentUrl(url, line), duration, keyPath)] else []
  }

  /** The state of the parse before line i, and what was parsed so far. */
  ghost predicate ParsedUpTo(s: Setting, lines: seq<string>, i: nat,
                             held: Held, duration: int, segments: seq<Segment>)
  {
    && i <= |lines|
    && held == HeldAt(s, lines, i) && duration == DurationAt(s, lines, i)
    && segments == Segments(s, lines, i)
    && forall k :: 0 <= k < i ==> !Fails(s, lines, k)
  }

  lemma ParseOneMore(s: Setting, lines: seq<string>, i: nat, held: Held, duration: int, segments: seq<Segment>)
    requires i < |lines|
    requires ParsedUpTo(s, lines, i, held, duration, segments)
    ensures Fails(s, lines, i) <==> !StatusOf(s.scan, s.url, held.version, lines[i]).Success?
    ensures HeldAt(s, lines, i + 1) == HeldAfter(s.scan, s.url, held, lines[i])
    ensures !Fails(s, lines, i) ==>
              ParsedUpTo(s, lines, i + 1, HeldAfter(s.scan, s.url, held, lines[i]),
                         DurationAfter(s.scan, held.version, duration, lines[i]),
                         segments + SegmentsOf(s.url, duration, held.keyPath, lines[i]))
  {
    hide KindOf, KeyPath, InfDuration, SegmentUrl, StatusOf, IntegerBehind, Answer;
  }

  /** Lines that are joined by terminators are all parsed. */
  lemma LinesAreParsed(lines: seq<string>, separators: seq<string>)
    requires |lines| == |separators| && Separates(separators)
    requires forall line <- lines :: Plain(line) && line != ""
    ensures UpToEmpty(Lines(Join(lines, separators))) == lines
  {
    hide Join, Lines, Separates, Plain;
    forall i | 0 <= i < |lines| ensures lines[i] != "" && Plain(lines[i]) {
      assert lines[i] in lines;
    }
    LinesOfJoined(lines, separators);
    NoneEmpty(lines);
  }

  lemma {:induction false} NoneEmpty(lines: seq<string>)
    requires "" !in lines
    ensures UpToEmpty(lines) == lines
  {
    if lines != [] {
      assert "" !in lines[1..];
      NoneEmpty(lines[1..]);
    }
  }

  /** All lines of a text are parsed exactly when it does not start with a line break or a NUL. */
  lemma ParsedInFullIff(content: string)
    requires content != ""
    ensures UpToEmpty(Lines(content)) == Lines(content) <==> !IsBreak(content[0])
    ensures IsBreak(content[0]) ==> UpToEmpty(Lines(content)) == []
  {
    if IsBreak(content[0]) {
      assert LineEnd(content) == 0 && Lines(content)[0] == "";
    } else {
      hide Lines, Join, Separates, AreLines, UpToEmpty;
      var i := IndexOf(content, '\0');
      var text := content[..i];
      if i < |content| {
        assert content == text + ['\0'] + content[i + 1..];
        NulDropsTheRest(text, content[i + 1..]);
      } else {
        assert text == content;
      }
      assert text != "" && text[0] == content[0];
      NoEmptyLine(text);
      NoneEmpty(Lines(content));
    }
  }

  lemma NoEmptyLine(text: string)
    requires '\0' !in text && text != "" && !IsBreak(text[0])
    ensures "" !in Lines(text)
  {
    hide Lines, Join, Separates;
    var separators := JoinOfLines(text);
  }

  lemma NothingParsed(s: Setting, lines: seq<string>)
    ensures ParsedUpTo(s, lines, 0, s.start, -1, [])
  {
  }

  /** The line read next is the next one to parse, or the parse is over. */
  lemma NextLine(s: Setting, all: seq<string>, i: nat, held: Held, duration: int, segments: seq<Segment>)
    requires i <= |all|
    requires ParsedUpTo(s, UpToEmpty(all), i, held, duration, segments)
    ensures i <= |UpToEmpty(all)| && (i == |all| || all[i] == "" <==> i == |UpToEmpty(all)|)
    ensures i < |UpToEmpty(all)| ==> i < |all| && UpToEmpty(all)[i] == all[i]
  {
    hide UpToEmpty;
    UpToEmptyStep(all, i);
  }

  lemma AllParsed(s: Setting, lines: seq<string>, n: nat, held: Held, duration: int,
                  before: seq<Segment>, segments: seq<Segment>)
    requires n == |lines|
    requires ParsedUpTo(s, lines, n, held, duration, segments)
    ensures Parsed(s, lines, before, before + segments, held, Success)
  {
    hide Fails;
    assert FirstFailure(s, lines, n);
  }

  lemma StoppedAt(s: Setting, lines: seq<string>, n: nat, held: Held, duration: int,
                  before: seq<Segment>, segments: seq<Segment>, after: Held)
    requires n < |lines|
    requires ParsedUpTo(s, lines, n, held, duration, segments) && Fails(s, lines, n)
    requires var err := StatusOf(s.scan, s.url, held.version, lines[n]);
             !err.Undefined? ==> after == HeldAfter(s.scan, s.url, held, lines[n])
    ensures Parsed(s, lines, before, before + segments, after, StatusOf(s.scan, s.url, held.version, lines[n]))
  {
    hide Fails, HeldAfter, StatusOf, Segments, VersionAt, KeyAt, TargetAt, CacheAt, DurationAt, KindOf;
    ParseOneMore(s, lines, n, held, duration, segments);
    assert FirstFailure(s, lines, n);
  }

  lemma {:induction false} UpToEmptyStep(lines: seq<string>, i: nat)
    requires i <= |UpToEmpty(lines)|
    ensures i < |UpToEmpty(lines)| <==> i < |lines| && lines[i] != ""
    decreases i
  {
    if i > 0 {
      UpToEmptyStep(lines[1..], i - 1);
    }
  }

  // ---------------------------------------------------------------- the parser

  class stream_sys_t {
    var m3u8: string
    var b_live: bool
    var b_aesmsg: bool

    constructor () {
      b_live, b_aesmsg := false, false;
    }
  }

  class hls_stream_t {
    var version: int
    var duration: int
    var url: string
    var b_cache: bool
    var psz_current_key_path: string
    const psz_AES_IV: array<Byte>
    var b_iv_loaded: bool
    var segment_count: int

    ghost function InForce(): Held
      reads `version, `psz_current_key_path, `duration, `b_cache
    {
      Held(version, psz_current_key_path, duration, b_cache)
    }

    constructor ()
      ensures version == -1 && duration == -1 && segment_count == 0
      ensures psz_AES_IV.Length == AES_BLOCK_SIZE && fresh(psz_AES_IV)
    {
      version, duration, segment_count := -1, -1, 0;
      psz_AES_IV := new Byte[AES_BLOCK_SIZE];
    }

    method parse_TargetDuration(scan: Scanners, p_read: string) returns (err: Status)
      modifies `duration
      ensures err == (if IntegerBehind(scan, p_read, "#EXT-X-TARGETDURATION:").Some? then Success else Generic)
      ensures duration == (if err.Success? then IntegerBehind(scan, p_read, "#EXT-X-TARGETDURATION:").value else old(duration))
    {
      var ret := IntegerBehind(scan, p_read, "#EXT-X-TARGETDURATION:");
      if ret.None? {
        return Generic;
      }
      duration := ret.value;
      return Success;
    }

    method parse_Version(scan: Scanners, p_read: string) returns (err: Status)
      modifies `version
      ensures var ret := IntegerBehind(scan, p_read, "#EXT-X-VERSION:");
              && err == (if ret.Some? && 0 < ret.value <= 3 then Success else Generic)
              && version == (if ret.Some? then ret.value else old(version))
    {
      var ret := IntegerBehind(scan, p_read, "#EXT-X-VERSION:");
      if ret.None? {
        return Generic;
      }
      version := ret.value;
      if version <= 0 || version > 3 {
        return Generic;
      }
      return Success;
    }

    method parse_AllowCache(p_read: string) returns (err: Status)
      modifies `b_cache
      ensures err == (if Answer(p_read).Some? then Success else Generic)
      ensures b_cache == (if err.Success? then !("NO" <= Answer(p_read).value) else old(b_cache))
    {
      hide Answer;
      var answer := Answer(p_read);
      if answer.None? {
        return Generic;
      }
      b_cache := !("NO" <= answer.value);
      return Success;
    }

    method parse_Key(sys: stream_sys_t, p_read: string) returns (err: Status)
      requires psz_AES_IV.Length == AES_BLOCK_SIZE
      modifies sys`b_aesmsg, `psz_current_key_path, `b_iv_loaded, psz_AES_IV
      ensures err == KeyStatus(version, url, p_read)
      ensures psz_current_key_path == match KeyPath(url, p_read)
                                      case None => old(psz_current_key_path)
                                      case Some(path) => path
      ensures sys.b_aesmsg == (old(sys.b_aesmsg) || IsAes(p_read))
      ensures err.Success? && IsAes(p_read) ==>
                && b_iv_loaded == Attribute(p_read, "IV").Some?
                && (b_iv_loaded ==> var iv := Attribute(p_read, "IV").value;
                                    |iv| > 18 && HoldsIv(psz_AES_IV[..], iv[2..]))
    {
      hide Attribute, Unquoted, Contains, Resolve, StartsWithFold, HoldsIv;
      err := Success;
      var attr := parse_Attributes(p_read, "METHOD");
      if attr.None? {
        return;
      }
      if StartsWithFold(attr.value, "NONE") {
        var uri := parse_Attributes(p_read, "URI");
        if uri.Some? {
          err := Generic;
        }
        if version >= 2 {
          var iv := parse_Attributes(p_read, "IV");
          if iv.Some? {
            err := Generic;
          }
        }
      } else if StartsWithFold(attr.value, "AES-128") {
        if !sys.b_aesmsg {
          sys.b_aesmsg := true;
        }
        var value := parse_Attributes(p_read, "URI");
        if value.None? {
          return Generic;
        }
        var uri := Unquoted(value.value);
        if Contains(uri, "://") {
          psz_current_key_path := uri;
        } else {
          if "/" <= uri && |url| < 8 {
            return Undefined;
          }
          var p := relative_URI(url, uri);
          if p.None? {
            return Undefined;
          }
          psz_current_key_path := p.value;
        }
        value := parse_Attributes(p_read, "IV");
        if value.None? {
          b_iv_loaded := false;
        } else {
          var ok := string_to_IV(value.value, psz_AES_IV);
          if !ok {
            err := Generic;
          } else {
            b_iv_loaded := true;
          }
        }
      } else {
        err := Generic;
      }
    }
  }

  class CM3u8Parse {
    var m_lstSegments: seq<Segment>

    constructor ()
      ensures m_lstSegments == []
    {
      m_lstSegments := [];
    }

    method parse_AddSegment(hls: hls_stream_t, duration: int, uri: string) returns (err: Status)
      modifies `m_lstSegments
      ensures err == if Readable(hls.url, uri) then Success else Undefined
      ensures m_lstSegments == old(m_lstSegments)
                 + if err.Success? then [Segment(SegmentUrl(hls.url, uri), duration, hls.psz_current_key_path)] else []
    {
      hide Resolve;
      if "/" <= uri && |hls.url| < 8 {
        return Undefined;
      }
      var psz_uri := relative_URI(hls.url, uri);
      var segment := Segment(if psz_uri.Some? then psz_uri.value else uri, duration, hls.psz_current_key_path);
      m_lstSegments := m_lstSegments + [segment];
      return Success;
    }

    /** The branches for one line. */
    method ParseLine(scan: Scanners, sys: stream_sys_t, hls: hls_stream_t, line: string, segment_duration: int)
      returns (err: Status, duration: int)
      requires hls.psz_AES_IV.Length == AES_BLOCK_SIZE
      requires line != "" && Plain(line)
      modifies `m_lstSegments, sys`b_aesmsg, hls`version, hls`duration, hls`b_cache,
               hls`psz_current_key_path, hls`b_iv_loaded, hls.psz_AES_IV
      ensures err == StatusOf(scan, hls.url, old(hls.version), line)
      ensures hls.InForce() == HeldAfter(scan, hls.url, old(hls.InForce()), line)
      ensures err.Success? ==>
                && duration == DurationAfter(scan, old(hls.version), segment_duration, line)
                && m_lstSegments == old(m_lstSegments)
                     + SegmentsOf(hls.url, segment_duration, old(hls.psz_current_key_path), line)
      ensures !err.Success? ==> m_lstSegments == old(m_lstSegments)
    {
      hide Answer, KeyPath, InfDuration, SegmentUrl, KeyStatus, Readable, IntegerBehind;
      err, duration := Success, segment_duration;
      assert line[0] in line;
      if "#EXTINF" <= line {
        var s_line := CopyOf(line);
        err, duration := parse_SegmentInformation(scan, hls.version, s_line, segment_duration);
      } else if "#EXT-X-TARGETDURATION" <= line {
        err := hls.parse_TargetDuration(scan, line);
      } else if "#EXT-X-MEDIA-SEQUENCE" <= line {
      } else if "#EXT-X-KEY" <= line {
        err := hls.parse_Key(sys, line);
      } else if "#EXT-X-PROGRAM-DATE-TIME" <= line {
      } else if "#EXT-X-ALLOW-CACHE" <= line {
        err := hls.parse_AllowCache(line);
      } else if "#EXT-X-DISCONTINUITY" <= line {
      } else if "#EXT-X-VERSION" <= line {
        err := hls.parse_Version(scan, line);
      } else if "#EXT-X-ENDLIST" <= line {
      } else if !("#" <= line) && line[0] != '\0' {
        err := parse_AddSegment(hls, segment_duration, line);
        duration := -1;
      }
    }

    /**
     * Parses the lines up to the first empty one or the first that fails, and appends one segment for
     * each URI line before that place. Nothing is promised behind a line without defined behaviour.
     */
    method ParseStream(scan: Scanners, sys: stream_sys_t, init_hls: hls_stream_t, m3u8_content: string)
      returns (err: Status)
      requires m3u8_content != ""
      requires init_hls.psz_AES_IV.Length == AES_BLOCK_SIZE
      modifies this, sys, init_hls, init_hls.psz_AES_IV
      ensures init_hls.url == if old(init_hls.url) == "" then old(sys.m3u8) else old(init_hls.url)
      ensures sys.b_live <==> !Contains(m3u8_content[..IndexOf(m3u8_content, '\0')], "#EXT-X-ENDLIST")
      ensures Parsed(Setting(scan, init_hls.url, old(init_hls.InForce())), UpToEmpty(Lines(m3u8_content)),
                     old(m_lstSegments), m_lstSegments, init_hls.InForce(), err)
      ensures !err.Undefined? ==> init_hls.segment_count == |m_lstSegments|
    {
      hide *;
      sys.b_live := !Contains(m3u8_content[..IndexOf(m3u8_content, '\0')], "#EXT-X-ENDLIST");
      if init_hls.url == "" {
        init_hls.url := sys.m3u8;
      }
      err := ParseLines(scan, sys, init_hls, m3u8_content);
      init_hls.segment_count := |m_lstSegments|;
    }

    /** The loop over the lines. */
    method ParseLines(scan: Scanners, sys: stream_sys_t, hls: hls_stream_t, m3u8_content: string)
      returns (err: Status)
      requires m3u8_content != "" && hls.psz_AES_IV.Length == AES_BLOCK_SIZE
      modifies `m_lstSegments, sys`b_aesmsg, hls`version, hls`duration, hls`b_cache,
               hls`psz_current_key_path, hls`b_iv_loaded, hls.psz_AES_IV
      ensures Parsed(Setting(scan, hls.url, old(hls.InForce())), UpToEmpty(Lines(m3u8_content)),
                     old(m_lstSegments), m_lstSegments, hls.InForce(), err)
    {
      hide Lines, UpToEmpty, ParsedUpTo, Parsed, Fails, StatusOf, Plain;
      hide HeldAfter, DurationAfter, SegmentsOf, HeldAt;
      var readline := new CReadLine();
      var started := readline.SetString(m3u8_content);
      var segment_duration := -1;
      err := Success;
      ghost var s := Setting(scan, hls.url, hls.InForce());
      ghost var before, segments := m_lstSegments, [];
      ghost var all, i := Lines(m3u8_content), 0;
      ghost var lines := UpToEmpty(all);
      NothingParsed(s, lines);
      while true
        invariant hls.psz_AES_IV.Length == AES_BLOCK_SIZE && s.url == hls.url
        invariant fresh(readline) && readline.Valid() && i <= |all| && readline.Pending() == all[i..]
        invariant err.Success? && m_lstSegments == before + segments
        invariant ParsedUpTo(s, lines, i, hls.InForce(), segment_duration, segments)
        decreases readline.m_pEnd - readline.m_pBegin
      {
        ghost var pending := readline.Pending();
        var line := readline.ReadLine();
        assert pending == all[i..];
        assert i < |all| ==> all[i..] == [all[i]] + all[i + 1..];
        ghost var held, duration := hls.InForce(), segment_duration;
        NextLine(s, all, i, held, duration, segments);
        if line == "" {
          AllParsed(s, lines, i, held, duration, before, segments);
          break;
        }
        ParseOneMore(s, lines, i, held, duration, segments);
        err, segment_duration := ParseLine(scan, sys, hls, line, segment_duration);
        if !err.Success? {
          StoppedAt(s, lines, i, held, duration, before, segments, hls.InForce());
          break;
        }
        segments := segments + SegmentsOf(s.url, duration, held.keyPath, line);
        i := i + 1;
      }
    }
  }

  /** new char[], memset and memcpy: the line with a NUL behind it. */
  method CopyOf(line: string) returns (copy: array<char>)
    requires Plain(line)
    ensures fresh(copy) && Terminated(copy[..], 0) && StringAt(copy[..], 0) == line
  {
    copy := new char[|line| + 1](i requires 0 <= i => if i < |line| then line[i] else '\0');
    assert copy[..][0..0 + |line|] == line;
    assert '\0' !in line;
    StringAtIs(copy[..], 0, line);
  }
}
