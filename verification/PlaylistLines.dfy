// What playlist lines mean, by their text.
module PlaylistLines {
  import opened Attributes
  import opened CStrings
  import opened KeyIvs
  import opened LineReader
  import opened RelativeUris
  import opened SegmentInfo
  import opened UriPaths
  import opened Playlists

  // ---------------------------------------------------------------- tags

  /** The tags are told apart by their fifth and eighth characters. */
  lemma Letters(line: string)
    ensures "#EXTINF" <= line ==> line[4] == 'I'
    ensures "#EXT-X-TARGETDURATION" <= line ==> line[4] == '-' && line[7] == 'T'
    ensures "#EXT-X-MEDIA-SEQUENCE" <= line ==> line[4] == '-' && line[7] == 'M'
    ensures "#EXT-X-KEY" <= line ==> line[4] == '-' && line[7] == 'K'
    ensures "#EXT-X-PROGRAM-DATE-TIME" <= line ==> line[4] == '-' && line[7] == 'P'
    ensures "#EXT-X-ALLOW-CACHE" <= line ==> line[4] == '-' && line[7] == 'A'
    ensures "#EXT-X-DISCONTINUITY" <= line ==> line[4] == '-' && line[7] == 'D'
    ensures "#EXT-X-VERSION" <= line ==> line[4] == '-' && line[7] == 'V'
    ensures "#EXT-X-ENDLIST" <= line ==> line[4] == '-' && line[7] == 'E'
  {
  }

  /** Each of the five tags that have an effect starts lines of its kind, and no other lines are of that kind. */
  lemma KindIff(line: string)
    ensures KindOf(line).ExtInf? <==> "#EXTINF" <= line
    ensures KindOf(line).TargetDuration? <==> "#EXT-X-TARGETDURATION" <= line
    ensures KindOf(line).Key? <==> "#EXT-X-KEY" <= line
    ensures KindOf(line).AllowCache? <==> "#EXT-X-ALLOW-CACHE" <= line
    ensures KindOf(line).Version? <==> "#EXT-X-VERSION" <= line
    ensures KindOf(line).Uri? <==> line != "" && line[0] != '#'
  {
    Letters(line);
    StartsWithHash(line);
  }

  lemma StartsWithHash(line: string)
    ensures "#" <= line <==> line != "" && line[0] == '#'
  {
  }

  lemma Behind(tag: string, text: string)
    ensures tag <= tag + text && (tag + text)[|tag|..] == text
  {
  }

  lemma BehindShorter(short: string, tag: string, text: string)
    requires short <= tag
    ensures short <= tag + text
  {
  }

  /** What one line does: how it ends, what the stream holds behind it, the pending duration and the segments it adds. */
  datatype Effect = Effect(err: Status, held: Held, duration: int, segments: seq<Segment>)

  function EffectOf(scan: Scanners, url: string, held: Held, duration: int, line: string): Effect {
    Effect(StatusOf(scan, url, held.version, line), HeldAfter(scan, url, held, line),
           DurationAfter(scan, held.version, duration, line), SegmentsOf(url, duration, held.keyPath, line))
  }

  // ---------------------------------------------------------------- the lines with an effect

  /** A duration line: whole seconds before protocol version 3, the rounded value from it on. */
  lemma DurationLine(scan: Scanners, url: string, held: Held, duration: int, text: string, rest: string)
    requires text != "" && ',' !in text && (rest == "" || rest[0] == ',')
    ensures var d := if held.version < 3 then scan.strtol(text)
                     else if scan.strtof(text).Some? then Some(Rounded(scan.strtof(text).value)) else None;
            EffectOf(scan, url, held, duration, "#EXTINF:" + text + rest)
            == Effect(if d.Some? then Success else Generic, held, if d.Some? then d.value else duration, [])
  {
    hide KindOf, KeyPath, Answer, Rounded, DurationText, KeyStatus, IntegerBehind;
    var line := "#EXTINF:" + text + rest;
    assert line == "#EXTINF" + (":" + text + rest);
    Behind("#EXTINF", ":" + text + rest);
    KindIff(line);
    assert line == "#EXTINF" + ":" + text + rest;
    DurationTextOf("#EXTINF", text, rest);
  }

  /** Without a colon there is no duration. */
  lemma NoColon(scan: Scanners, url: string, held: Held, duration: int, line: string)
    requires "#EXTINF" <= line && ':' !in line
    ensures EffectOf(scan, url, held, duration, line) == Effect(Generic, held, duration, [])
  {
    hide KindOf, KeyPath, Answer, Rounded, KeyStatus, IntegerBehind, Token;
    KindIff(line);
    assert line + "" == line;
    TokenOf(line, ":", "");
    NoToken(",");
  }

  lemma NoToken(delim: string)
    ensures Token("", delim) == None
  {
  }

  /** A version line: a number from 1 to 3. */
  lemma VersionLine(scan: Scanners, url: string, held: Held, duration: int, text: string)
    ensures var v := scan.integer(text);
            EffectOf(scan, url, held, duration, "#EXT-X-VERSION:" + text)
            == Effect(if v.Some? && 1 <= v.value <= 3 then Success else Generic,
                      if v.Some? then held.(version := v.value) else held, duration, [])
  {
    hide KindOf, KeyPath, Answer, InfDuration, KeyStatus;
    Behind("#EXT-X-VERSION:", text);
    BehindShorter("#EXT-X-VERSION", "#EXT-X-VERSION:", text);
    KindIff("#EXT-X-VERSION:" + text);
  }

  /** A target duration line. */
  lemma TargetDurationLine(scan: Scanners, url: string, held: Held, duration: int, text: string)
    ensures var t := scan.integer(text);
            EffectOf(scan, url, held, duration, "#EXT-X-TARGETDURATION:" + text)
            == Effect(if t.Some? then Success else Generic,
                      if t.Some? then held.(target := t.value) else held, duration, [])
  {
    hide KindOf, KeyPath, Answer, InfDuration, KeyStatus;
    Behind("#EXT-X-TARGETDURATION:", text);
    BehindShorter("#EXT-X-TARGETDURATION", "#EXT-X-TARGETDURATION:", text);
    KindIff("#EXT-X-TARGETDURATION:" + text);
  }

  /** An allow-cache line: anything but NO behind the blanks allows it. */
  lemma AllowCacheLine(scan: Scanners, url: string, held: Held, duration: int, blanks: string, text: string)
    requires text != "" && text[0] > ' ' && forall c <- blanks :: c == ' ' || c == '\t'
    ensures EffectOf(scan, url, held, duration, "#EXT-X-ALLOW-CACHE:" + blanks + text)
         == Effect(Success, held.(cache := !("NO" <= text)), duration, [])
  {
    hide KindOf, KeyPath, InfDuration, KeyStatus, IntegerBehind, Word, SkipSpace;
    var tag := "#EXT-X-ALLOW-CACHE:";
    assert tag + blanks + text == tag + (blanks + text);
    Behind(tag, blanks + text);
    BehindShorter("#EXT-X-ALLOW-CACHE", tag, blanks + text);
    KindIff(tag + blanks + text);
    BlanksSkipped(blanks, text);
    AnswerIsNo(text);
  }

  lemma {:induction false} BlanksSkipped(blanks: string, text: string)
    requires text != "" && text[0] > ' ' && forall c <- blanks :: c == ' ' || c == '\t'
    ensures SkipSpace(blanks + text) == text
  {
    if blanks == "" {
      assert blanks + text == text;
    } else {
      assert blanks[0] in blanks && (blanks + text)[1..] == blanks[1..] + text;
      forall c | c in blanks[1..] ensures c in blanks {}
      BlanksSkipped(blanks[1..], text);
    }
  }

  lemma AnswerIsNo(text: string)
    requires text != "" && text[0] > ' '
    ensures Word(text, 3) != "" && ("NO" <= Word(text, 3) <==> "NO" <= text)
  {
    var word := Word(text, 3);
    assert word == [text[0]] + Word(text[1..], 2);
    if |text| > 1 {
      assert Word(text[1..], 2) == if IsSpace(text[1]) then "" else [text[1]] + Word(text[2..], 1);
    }
  }

  /** A key line sets the path of a whole URL in quotes. */
  lemma QuotedKey(url: string, u: string)
    requires '"' !in u && ',' !in u && Contains(u, "://")
    ensures KeyPath(url, "#EXT-X-KEY:METHOD=AES-128,URI=\"" + u + "\"") == Some(u)
  {
    hide Attribute, Contains, Resolve, KeyLine, Unquoted;
    QuotedText(u);
    QuotedAttributes(u);
    AesMethod(KeyLine(Aes("\"" + u + "\"")));
    UnquotedIs(u);
  }

  lemma QuotedAttributes(u: string)
    requires ',' !in u
    ensures var value := "\"" + u + "\"";
            && Attribute(KeyLine(Aes(value)), "METHOD") == Some("AES-128")
            && Attribute(KeyLine(Aes(value)), "URI") == Some(value)
  {
    hide Attribute, IndexOf, Mentions, Text, Bears, IsName, Line;
    var value := "\"" + u + "\"";
    assert ',' !in value;
    Names();
    Bearers(value);
    MethodMentions("AES-128");
    FoundIsValue("#EXT-X-KEY", Aes(value), "METHOD", 0);
    FoundIsValue("#EXT-X-KEY", Aes(value), "URI", 1);
  }

  lemma Bearers(value: string)
    ensures Bears(Aes(value)[0], "METHOD") && Bears(Aes(value)[1], "URI")
  {
    FoldSame("METHOD");
    FoldSame("URI");
  }

  lemma AesMethod(line: string)
    requires Attribute(line, "METHOD") == Some("AES-128")
    ensures IsAes(line)
  {
    hide Attribute;
    assert ToLower("AES-128"[0]) != ToLower("NONE"[0]);
    FoldSame("AES-128");
  }

  lemma QuotedText(u: string)
    ensures KeyLine(Aes("\"" + u + "\"")) == "#EXT-X-KEY:METHOD=AES-128,URI=\"" + u + "\""
  {
    var value := "\"" + u + "\"";
    var attrs := Aes(value);
    assert Render(attrs[1..]) == "URI=" + value;
    assert Text(attrs[0]) == "METHOD=AES-128";
    assert Render(attrs) == "METHOD=AES-128" + "," + ("URI=" + value);
  }

  lemma UnquotedIs(u: string)
    requires '"' !in u
    ensures Unquoted("\"" + u + "\"") == u
  {
    var value := "\"" + u + "\"";
    assert value[1..] == u + "\"" && value[1..][..|u|] == u;
    IndexOfIs(value[1..], '"', |u|);
    assert value[1..1 + |u|] == u;
  }

  lemma KeyPrefix(u: string)
    ensures "#EXT-X-KEY" <= "#EXT-X-KEY:METHOD=AES-128,URI=\"" + u + "\""
  {
    var tag := "#EXT-X-KEY:METHOD=AES-128,URI=\"";
    BehindShorter("#EXT-X-KEY", tag, u);
    BehindShorter("#EXT-X-KEY", tag + u, "\"");
  }

  lemma DefinedWithPath(version: int, url: string, line: string)
    requires KeyPath(url, line).Some?
    ensures !KeyStatus(version, url, line).Undefined?
  {
    hide Attribute, KeyPath;
  }

  /** Behind such a line the stream holds this path; nothing else changes. */
  lemma QuotedKeyLine(scan: Scanners, url: string, held: Held, duration: int, u: string)
    requires '"' !in u && ',' !in u && Contains(u, "://")
    ensures var e := EffectOf(scan, url, held, duration, "#EXT-X-KEY:METHOD=AES-128,URI=\"" + u + "\"");
            e.held == held.(keyPath := u) && e.duration == duration && e.segments == [] && !e.err.Undefined?
  {
    hide KindOf, KeyPath, KeyStatus, InfDuration, Answer, Contains, IntegerBehind;
    var line := "#EXT-X-KEY:METHOD=AES-128,URI=\"" + u + "\"";
    QuotedKey(url, u);
    DefinedWithPath(held.version, url, line);
    KeyPrefix(u);
    KindIff(line);
  }

  /** The same line in small letters. */
  lemma SmallKey(url: string, u: string)
    requires '"' !in u && ',' !in u && Contains(u, "://")
    ensures KeyPath(url, "#EXT-X-KEY:method=aes-128,uri=\"" + u + "\"") == Some(u)
  {
    hide Attribute, Contains, Resolve, KeyLine, Unquoted, Bears, Mentions, Text, Line, IsName, IndexOf;
    var value := "\"" + u + "\"";
    var attrs := [Attr("method", "aes-128"), Attr("uri", value)];
    TwoAttributes("method", "aes-128", "uri", value);
    assert "#EXT-X-KEY:method=aes-128,uri=\"" + u + "\"" == "#EXT-X-KEY:method=aes-128,uri=" + value;
    assert "#EXT-X-KEY:method=aes-128,uri=" == "#EXT-X-KEY:" + "method" + "=" + "aes-128" + "," + "uri" + "=";
    assert ',' !in value && ',' !in "aes-128";
    Names();
    SmallNames(value);
    NoMention(attrs[0], "URI", 'h');
    FoundIsValue("#EXT-X-KEY", attrs, "METHOD", 0);
    FoundIsValue("#EXT-X-KEY", attrs, "URI", 1);
    SmallMethod(Line("#EXT-X-KEY", attrs));
    UnquotedIs(u);
  }

  lemma SmallNames(value: string)
    ensures Bears(Attr("method", "aes-128"), "METHOD") && Bears(Attr("uri", value), "URI")
  {
  }

  lemma SmallMethod(line: string)
    requires Attribute(line, "METHOD") == Some("aes-128")
    ensures IsAes(line)
  {
    hide Attribute;
    assert ToLower("aes-128"[0]) != ToLower("NONE"[0]);
  }

  lemma TwoAttributes(a: string, x: string, b: string, y: string)
    ensures Line("#EXT-X-KEY", [Attr(a, x), Attr(b, y)]) == "#EXT-X-KEY:" + a + "=" + x + "," + b + "=" + y
  {
    var attrs := [Attr(a, x), Attr(b, y)];
    assert attrs[1..] == [Attr(b, y)];
    assert Render([Attr(b, y)]) == b + "=" + y;
    assert Render(attrs) == a + "=" + x + ("," + (b + "=" + y));
  }

  lemma OneAttribute(a: string, x: string)
    ensures Line("#EXT-X-KEY", [Attr(a, x)]) == "#EXT-X-KEY:" + a + "=" + x
  {
  }

  /** A method other than NONE and AES-128. */
  lemma OtherMethod(version: int, url: string)
    ensures var line := "#EXT-X-KEY:METHOD=SAMPLE-AES,URI=k";
            KeyStatus(version, url, line).Generic? && KeyPath(url, line) == None
  {
    hide Attribute, Mentions, Bears, Text, IsName, IndexOf, Line;
    var attrs := [Attr("METHOD", "SAMPLE-AES"), Attr("URI", "k")];
    TwoAttributes("METHOD", "SAMPLE-AES", "URI", "k");
    assert "#EXT-X-KEY:" + "METHOD" + "=" + "SAMPLE-AES" + "," + "URI" + "=" + "k" == "#EXT-X-KEY:METHOD=SAMPLE-AES,URI=k";
    assert ',' !in "SAMPLE-AES";
    Names();
    BearsItself(attrs[0]);
    FoundIsValue("#EXT-X-KEY", attrs, "METHOD", 0);
    assert ToLower("SAMPLE-AES"[0]) != ToLower("NONE"[0]) && ToLower("SAMPLE-AES"[0]) != ToLower("AES-128"[0]);
  }

  lemma BearsItself(a: Attr)
    ensures Bears(a, a.name)
  {
    FoldSame(a.name);
  }

  /** AES-128 without a URI. */
  lemma MissingUri(version: int, url: string)
    ensures var line := "#EXT-X-KEY:METHOD=AES-128";
            KeyStatus(version, url, line).Generic? && KeyPath(url, line) == None
  {
    hide Attribute, Mentions, Bears, Text, IsName, IndexOf, Line;
    var attrs := [Attr("METHOD", "AES-128")];
    OneAttribute("METHOD", "AES-128");
    assert "#EXT-X-KEY:" + "METHOD" + "=" + "AES-128" == "#EXT-X-KEY:METHOD=AES-128";
    Names();
    BearsItself(attrs[0]);
    MethodMentions("AES-128");
    FoundIsValue("#EXT-X-KEY", attrs, "METHOD", 0);
    NotFound("#EXT-X-KEY", attrs, "URI");
    AesMethod(Line("#EXT-X-KEY", attrs));
  }

  /** No method at all. */
  lemma MissingMethod(version: int, url: string)
    ensures var line := "#EXT-X-KEY:URI=k";
            KeyStatus(version, url, line).Success? && KeyPath(url, line) == None
  {
    hide Attribute, Mentions, Bears, Text, IsName, IndexOf, Line;
    var attrs := [Attr("URI", "k")];
    OneAttribute("URI", "k");
    assert "#EXT-X-KEY:" + "URI" + "=" + "k" == "#EXT-X-KEY:URI=k";
    Names();
    MentionIff(attrs[0], "METHOD");
    NotFound("#EXT-X-KEY", attrs, "METHOD");
  }

  /** The method NONE with a URI is refused, with an IV from version 2 on. */
  lemma NoneWithUri(version: int, url: string)
    ensures KeyStatus(version, url, "#EXT-X-KEY:METHOD=NONE,URI=k").Generic?
  {
    hide Attribute, Mentions, Bears, Text, IsName, IndexOf, Line;
    var attrs := [Attr("METHOD", "NONE"), Attr("URI", "k")];
    TwoAttributes("METHOD", "NONE", "URI", "k");
    assert "#EXT-X-KEY:" + "METHOD" + "=" + "NONE" + "," + "URI" + "=" + "k" == "#EXT-X-KEY:METHOD=NONE,URI=k";
    Names();
    BearsItself(attrs[0]);
    BearsItself(attrs[1]);
    MethodMentions("NONE");
    FoundIsValue("#EXT-X-KEY", attrs, "METHOD", 0);
    FoundIsValue("#EXT-X-KEY", attrs, "URI", 1);
    FoldSame("NONE");
  }

  lemma NoneWithIv(version: int, url: string)
    ensures KeyStatus(version, url, "#EXT-X-KEY:METHOD=NONE,IV=0x0") == if version < 2 then Success else Generic
  {
    hide Attribute, Mentions, Bears, Text, IsName, IndexOf, Line;
    var attrs := [Attr("METHOD", "NONE"), Attr("IV", "0x0")];
    TwoAttributes("METHOD", "NONE", "IV", "0x0");
    assert "#EXT-X-KEY:" + "METHOD" + "=" + "NONE" + "," + "IV" + "=" + "0x0" == "#EXT-X-KEY:METHOD=NONE,IV=0x0";
    Names();
    BearsItself(attrs[0]);
    BearsItself(attrs[1]);
    MethodMentions("NONE");
    MentionIff(attrs[1], "URI");
    FoundIsValue("#EXT-X-KEY", attrs, "METHOD", 0);
    FoundIsValue("#EXT-X-KEY", attrs, "IV", 1);
    NotFound("#EXT-X-KEY", attrs, "URI");
    FoldSame("NONE");
  }

  /** An IV needs a prefix and more than sixteen digits. */
  lemma KeyWithIv(version: int, url: string, u: string, iv: string)
    requires '"' !in u && ',' !in u && '=' !in u && Contains(u, "://") && ',' !in iv && iv != ""
    ensures var line := "#EXT-X-KEY:METHOD=AES-128,URI=\"" + u + "\",IV=" + iv;
            && KeyPath(url, line) == Some(u) && Attribute(line, "IV") == Some(iv)
            && KeyStatus(version, url, line) == if ("0x" <= iv || "0X" <= iv) && |iv| > 18 then Success else Generic
  {
    hide Attribute, Mentions, Bears, Text, IsName, IndexOf, Line, Contains, Resolve, Unquoted;
    var value := "\"" + u + "\"";
    var attrs := [Attr("METHOD", "AES-128"), Attr("URI", value), Attr("IV", iv)];
    ThreeAttributes(u, iv);
    assert ',' !in value && '=' !in value;
    Names();
    BearsItself(attrs[0]);
    BearsItself(attrs[1]);
    BearsItself(attrs[2]);
    MethodMentions("AES-128");
    NoMention(attrs[1], "IV", 'r');
    FoundIsValue("#EXT-X-KEY", attrs, "METHOD", 0);
    FoundIsValue("#EXT-X-KEY", attrs, "URI", 1);
    FoundIsValue("#EXT-X-KEY", attrs, "IV", 2);
    AesMethod(Line("#EXT-X-KEY", attrs));
    UnquotedIs(u);
  }

  lemma ThreeAttributes(u: string, iv: string)
    ensures Line("#EXT-X-KEY", [Attr("METHOD", "AES-128"), Attr("URI", "\"" + u + "\""), Attr("IV", iv)])
         == "#EXT-X-KEY:METHOD=AES-128,URI=\"" + u + "\",IV=" + iv
  {
    var value := "\"" + u + "\"";
    var attrs := [Attr("METHOD", "AES-128"), Attr("URI", value), Attr("IV", iv)];
    assert attrs[1..] == [Attr("URI", value), Attr("IV", iv)] && attrs[1..][1..] == [Attr("IV", iv)];
    assert Render([Attr("IV", iv)]) == "IV=" + iv;
    assert Render(attrs[1..]) == "URI=" + value + ("," + ("IV=" + iv));
    assert Text(attrs[0]) == "METHOD=AES-128";
    assert Render(attrs) == "METHOD=AES-128" + ("," + ("URI=" + value + ("," + ("IV=" + iv))));
  }

  // ---------------------------------------------------------------- all other lines

  /** Every other line that starts with '#' changes nothing. */
  lemma OtherTags(scan: Scanners, url: string, held: Held, duration: int, line: string)
    requires line != "" && line[0] == '#'
    requires !("#EXTINF" <= line) && !("#EXT-X-TARGETDURATION" <= line) && !("#EXT-X-KEY" <= line)
    requires !("#EXT-X-ALLOW-CACHE" <= line) && !("#EXT-X-VERSION" <= line)
    ensures EffectOf(scan, url, held, duration, line) == Effect(Success, held, duration, [])
  {
    hide KindOf, KeyPath, InfDuration, Answer, IntegerBehind, KeyStatus;
    KindIff(line);
  }

  /** Every line that does not start with '#' adds a segment with the pending duration, which is used up. */
  lemma UriLine(scan: Scanners, url: string, held: Held, duration: int, line: string)
    requires line != "" && line[0] != '#' && (line[0] == '/' ==> |url| >= 8)
    ensures EffectOf(scan, url, held, duration, line)
         == Effect(Success, held, -1, [Segment(ResolvedOr(url, line), duration, held.keyPath)])
  {
    hide KindOf, KeyPath, InfDuration, Answer, IntegerBehind, KeyStatus, ResolvedOr;
    KindIff(line);
    assert "/" <= line <==> line[0] == '/';
  }

  // ---------------------------------------------------------------- whole playlists

  /** One more line of a parse. */
  lemma Next(s: Setting, lines: seq<string>, i: nat, held: Held, duration: int, segments: seq<Segment>)
    requires i < |lines| && ParsedUpTo(s, lines, i, held, duration, segments)
    requires EffectOf(s.scan, s.url, held, duration, lines[i]).err.Success?
    ensures var e := EffectOf(s.scan, s.url, held, duration, lines[i]);
            ParsedUpTo(s, lines, i + 1, e.held, e.duration, segments + e.segments)
  {
    hide ParsedUpTo, StatusOf, HeldAfter, DurationAfter, SegmentsOf, Fails, HeldAt;
    ParseOneMore(s, lines, i, held, duration, segments);
  }

  /** A parse in which no line fails. */
  lemma ParsedToEnd(s: Setting, lines: seq<string>, held: Held, duration: int, segments: seq<Segment>,
                    before: seq<Segment>, after: seq<Segment>, end: Held, err: Status)
    requires ParsedUpTo(s, lines, |lines|, held, duration, segments) && Parsed(s, lines, before, after, end, err)
    ensures err.Success? && after == before + segments && end == held
  {
    hide Fails, HeldAt, Segments, StatusOf, DurationAt;
    assert FirstFailure(s, lines, |lines|);
  }

  lemma ThreeLines(a: string, b: string, c: string)
    requires Plain(a) && Plain(b) && Plain(c) && a != "" && b != "" && c != ""
    ensures UpToEmpty(Lines(a + "\n" + b + "\n" + c + "\n")) == [a, b, c]
  {
    hide Lines, UpToEmpty, Plain;
    var lines, separators := [a, b, c], ["\n", "\n", "\n"];
    Breaks(separators);
    LinesAreParsed(lines, separators);
    JoinThree(a, b, c);
  }

  lemma Breaks(separators: seq<string>)
    requires forall s <- separators :: s == "\n"
    ensures Separates(separators)
  {
    forall i | 0 <= i < |separators| ensures separators[i] == "\n" {
      assert separators[i] in separators;
    }
  }

  lemma JoinThree(a: string, b: string, c: string)
    ensures Join([a, b, c], ["\n", "\n", "\n"]) == a + "\n" + b + "\n" + c + "\n"
  {
    assert [a, b, c][1..] == [b, c] && [b, c][1..] == [c] && [c][1..] == [];
    assert ["\n", "\n", "\n"][1..] == ["\n", "\n"] && ["\n", "\n"][1..] == ["\n"] && ["\n"][1..] == [];
    assert Join([c], ["\n"]) == c + "\n" + "";
    assert Join([b, c], ["\n", "\n"]) == b + "\n" + Join([c], ["\n"]);
  }

  lemma FourLines(a: string, b: string, c: string, d: string)
    requires Plain(a) && Plain(b) && Plain(c) && Plain(d) && a != "" && b != "" && c != "" && d != ""
    ensures UpToEmpty(Lines(a + "\n" + b + "\n" + c + "\n" + d + "\n")) == [a, b, c, d]
  {
    hide Lines, UpToEmpty, Plain, Join;
    var lines, separators := [a, b, c, d], ["\n", "\n", "\n", "\n"];
    Breaks(separators);
    LinesAreParsed(lines, separators);
    JoinFour(a, b, c, d);
  }

  lemma JoinFour(a: string, b: string, c: string, d: string)
    ensures Join([a, b, c, d], ["\n", "\n", "\n", "\n"]) == a + "\n" + b + "\n" + c + "\n" + d + "\n"
  {
    assert [a, b, c, d][1..] == [b, c, d] && ["\n", "\n", "\n", "\n"][1..] == ["\n", "\n", "\n"];
    JoinThree(b, c, d);
  }

  /** Three lines of which none fails, with the effects of each. */
  lemma AfterThree(s: Setting, a: string, b: string, c: string, x: Effect, y: Effect, z: Effect)
    requires x == EffectOf(s.scan, s.url, s.start, -1, a) && x.err.Success?
    requires y == EffectOf(s.scan, s.url, x.held, x.duration, b) && y.err.Success?
    requires z == EffectOf(s.scan, s.url, y.held, y.duration, c) && z.err.Success?
    ensures ParsedUpTo(s, [a, b, c], 3, z.held, z.duration, x.segments + y.segments + z.segments)
  {
    hide EffectOf, ParsedUpTo;
    var lines := [a, b, c];
    NothingParsed(s, lines);
    Next(s, lines, 0, s.start, -1, []);
    assert [] + x.segments == x.segments;
    Next(s, lines, 1, x.held, x.duration, x.segments);
    Next(s, lines, 2, y.held, y.duration, x.segments + y.segments);
  }

  lemma AfterFour(s: Setting, a: string, b: string, c: string, d: string, x: Effect, y: Effect, z: Effect, w: Effect)
    requires x == EffectOf(s.scan, s.url, s.start, -1, a) && x.err.Success?
    requires y == EffectOf(s.scan, s.url, x.held, x.duration, b) && y.err.Success?
    requires z == EffectOf(s.scan, s.url, y.held, y.duration, c) && z.err.Success?
    requires w == EffectOf(s.scan, s.url, z.held, z.duration, d) && w.err.Success?
    ensures ParsedUpTo(s, [a, b, c, d], 4, w.held, w.duration, x.segments + y.segments + z.segments + w.segments)
  {
    hide EffectOf, ParsedUpTo;
    var lines := [a, b, c, d];
    NothingParsed(s, lines);
    Next(s, lines, 0, s.start, -1, []);
    assert [] + x.segments == x.segments;
    Next(s, lines, 1, x.held, x.duration, x.segments);
    Next(s, lines, 2, y.held, y.duration, x.segments + y.segments);
    Next(s, lines, 3, z.held, z.duration, x.segments + y.segments + z.segments);
  }

  /** The smallest playlist under a protocol version below 3. */
  lemma PlainPlaylist(s: Setting, text: string, d: int, uri: string,
                      before: seq<Segment>, after: seq<Segment>, end: Held, err: Status)
    requires s.start.version < 3 && s.scan.strtol(text) == Some(d)
    requires text != "" && ',' !in text && Plain(text)
    requires uri != "" && uri[0] != '#' && Plain(uri) && (uri[0] == '/' ==> |s.url| >= 8)
    requires Parsed(s, UpToEmpty(Lines("#EXTM3U\n#EXTINF:" + text + ",\n" + uri + "\n")), before, after, end, err)
    ensures err.Success? && end == s.start
    ensures after == before + [Segment(ResolvedOr(s.url, uri), d, s.start.keyPath)]
  {
    hide EffectOf, Lines, UpToEmpty, Parsed, ParsedUpTo, ResolvedOr, Plain;
    var inf := "#EXTINF:" + text + ",";
    var added := [Segment(ResolvedOr(s.url, uri), d, s.start.keyPath)];
    PlainLines(text);
    PlainText(text, uri);
    HeaderLine(s.scan, s.url, s.start, -1);
    UntitledLine(s.scan, s.url, s.start, -1, text);
    UriLine(s.scan, s.url, s.start, d, uri);
    AfterThree(s, "#EXTM3U", inf, uri, Effect(Success, s.start, -1, []), Effect(Success, s.start, d, []),
               Effect(Success, s.start, -1, added));
    assert [] + [] + added == added;
    ParsedToEnd(s, ["#EXTM3U", inf, uri], s.start, -1, added, before, after, end, err);
  }

  lemma PlainText(text: string, uri: string)
    requires text != "" && Plain(text) && uri != "" && Plain(uri)
    ensures UpToEmpty(Lines("#EXTM3U\n#EXTINF:" + text + ",\n" + uri + "\n")) == ["#EXTM3U", "#EXTINF:" + text + ",", uri]
  {
    hide UpToEmpty, Lines, Plain;
    var inf := "#EXTINF:" + text + ",";
    PlainLines(text);
    ThreeLines("#EXTM3U", inf, uri);
    assert "#EXTM3U" + "\n" + inf + "\n" + uri + "\n" == "#EXTM3U\n#EXTINF:" + text + ",\n" + uri + "\n";
  }

  lemma Version3Text(text: string, uri: string)
    requires text != "" && Plain(text) && uri != "" && Plain(uri)
    ensures UpToEmpty(Lines("#EXTM3U\n#EXT-X-VERSION:3\n#EXTINF:" + text + ",\n" + uri + "\n"))
         == ["#EXTM3U", "#EXT-X-VERSION:3", "#EXTINF:" + text + ",", uri]
  {
    hide UpToEmpty, Lines, Plain;
    var inf := "#EXTINF:" + text + ",";
    PlainLines(text);
    FourLines("#EXTM3U", "#EXT-X-VERSION:3", inf, uri);
    Version3Front();
    Regroup("#EXTM3U" + "\n" + "#EXT-X-VERSION:3" + "\n", "#EXTINF:", text, uri);
  }

  lemma Version3Front()
    ensures "#EXTM3U" + "\n" + "#EXT-X-VERSION:3" + "\n" + "#EXTINF:" == "#EXTM3U\n#EXT-X-VERSION:3\n#EXTINF:"
  {
  }

  lemma Regroup(front: string, tag: string, text: string, uri: string)
    ensures front + (tag + text + ",") + "\n" + uri + "\n" == (front + tag) + text + ",\n" + uri + "\n"
  {
  }

  lemma PlainLines(text: string)
    requires Plain(text)
    ensures Plain("#EXTM3U") && Plain("#EXT-X-VERSION:3") && Plain("#EXTINF:" + text + ",")
  {
    forall c | c in "#EXTINF:" + text + "," ensures !IsBreak(c) {
      assert c in "#EXTINF:" || c in text || c in ",";
    }
  }

  lemma HeaderLine(scan: Scanners, url: string, held: Held, duration: int)
    ensures EffectOf(scan, url, held, duration, "#EXTM3U") == Effect(Success, held, duration, [])
  {
    hide EffectOf;
    Letters("#EXTM3U");
    OtherTags(scan, url, held, duration, "#EXTM3U");
  }

  lemma UntitledLine(scan: Scanners, url: string, held: Held, duration: int, text: string)
    requires text != "" && ',' !in text
    ensures var d := if held.version < 3 then scan.strtol(text)
                     else if scan.strtof(text).Some? then Some(Rounded(scan.strtof(text).value)) else None;
            EffectOf(scan, url, held, duration, "#EXTINF:" + text + ",")
            == Effect(if d.Some? then Success else Generic, held, if d.Some? then d.value else duration, [])
  {
    hide EffectOf, Rounded;
    DurationLine(scan, url, held, duration, text, ",");
  }

  /** Behind a line with protocol version 3 the duration is the rounded one. */
  lemma Version3Playlist(s: Setting, text: string, d: real, uri: string,
                         before: seq<Segment>, after: seq<Segment>, end: Held, err: Status)
    requires s.scan.integer("3") == Some(3) && s.scan.strtof(text) == Some(d)
    requires text != "" && ',' !in text && Plain(text)
    requires uri != "" && uri[0] != '#' && Plain(uri) && (uri[0] == '/' ==> |s.url| >= 8)
    requires Parsed(s, UpToEmpty(Lines("#EXTM3U\n#EXT-X-VERSION:3\n#EXTINF:" + text + ",\n" + uri + "\n")),
                    before, after, end, err)
    ensures err.Success? && end == s.start.(version := 3)
    ensures after == before + [Segment(ResolvedOr(s.url, uri), Rounded(d), s.start.keyPath)]
  {
    hide EffectOf, Lines, UpToEmpty, Parsed, ParsedUpTo, ResolvedOr, Rounded, Plain;
    var inf, held := "#EXTINF:" + text + ",", s.start.(version := 3);
    var added := [Segment(ResolvedOr(s.url, uri), Rounded(d), s.start.keyPath)];
    PlainLines(text);
    Version3Text(text, uri);
    HeaderLine(s.scan, s.url, s.start, -1);
    VersionLine(s.scan, s.url, s.start, -1, "3");
    assert "#EXT-X-VERSION:" + "3" == "#EXT-X-VERSION:3";
    UntitledLine(s.scan, s.url, held, -1, text);
    UriLine(s.scan, s.url, held, Rounded(d), uri);
    AfterFour(s, "#EXTM3U", "#EXT-X-VERSION:3", inf, uri, Effect(Success, s.start, -1, []), Effect(Success, held, -1, []),
              Effect(Success, held, Rounded(d), []), Effect(Success, held, -1, added));
    assert [] + [] + [] + added == added;
    ParsedToEnd(s, ["#EXTM3U", "#EXT-X-VERSION:3", inf, uri], held, -1, added, before, after, end, err);
  }
}
