// The line splitter of libhlsanalysis/src/creadline.cpp.
module LineReader {

  predicate IsTerminator(c: char) {
    c == '\r' || c == '\n'
  }

  predicate IsBreak(c: char) {
    IsTerminator(c) || c == '\0'
  }

  /** No break in s. */
  predicate Plain(s: string) {
    forall c <- s :: !IsBreak(c)
  }

  predicate Terminators(s: string) {
    forall c <- s :: IsTerminator(c)
  }

  // ---------------------------------------------------------------- the lines of a text

  /** Where the first line of s ends: at its first break, or at its end. */
  function LineEnd(s: string): (e: nat)
    ensures e <= |s| && Plain(s[..e]) && (e < |s| ==> IsBreak(s[e]))
  {
    if s == "" || IsBreak(s[0]) then 0 else
      assert s[..1 + LineEnd(s[1..])] == [s[0]] + s[1..][..LineEnd(s[1..])];
      1 + LineEnd(s[1..])
  }

  /** How much of s a run of terminators at its start takes; a NUL takes all the rest. */
  function Skip(s: string): (k: nat)
    ensures k <= |s|
    ensures s != "" && IsBreak(s[0]) ==> k > 0
  {
    if s == "" then 0
    else if s[0] == '\0' then |s|
    else if IsTerminator(s[0]) then 1 + Skip(s[1..])
    else 0
  }

  /** What is left of s after its first line. */
  function Rest(s: string): (r: string)
    ensures s != "" ==> |r| < |s|
  {
    var tail := s[LineEnd(s)..];
    tail[Skip(tail)..]
  }

  /** The results of ReadLine until the text is used up. */
  function Lines(s: string): seq<string>
    decreases |s|
  {
    if s == "" then [] else [s[..LineEnd(s)]] + Lines(Rest(s))
  }

  lemma LineEndStep(s: string, p: nat)
    requires p <= |s|
    ensures LineEnd(s[p..]) == if p == |s| || IsBreak(s[p]) then 0 else 1 + LineEnd(s[p + 1..])
  {
    assert p < |s| ==> s[p..][1..] == s[p + 1..];
  }

  lemma SkipStep(s: string, p: nat)
    requires p <= |s|
    ensures Skip(s[p..]) ==
              if p == |s| then 0 else if s[p] == '\0' then |s| - p
              else if IsTerminator(s[p]) then 1 + Skip(s[p + 1..]) else 0
  {
    assert p < |s| ==> s[p..][1..] == s[p + 1..];
  }

  // ---------------------------------------------------------------- lines joined by terminators

  /** Each line followed by its separator. */
  function Join(lines: seq<string>, separators: seq<string>): string
    requires |lines| == |separators|
  {
    if lines == [] then "" else lines[0] + separators[0] + Join(lines[1..], separators[1..])
  }

  /** Separators are mixes of CR and LF; only the last one may be empty. */
  predicate Separates(separators: seq<string>) {
    && (forall s <- separators :: Terminators(s))
    && (forall i :: 0 <= i < |separators| - 1 ==> separators[i] != "")
  }

  lemma {:induction false} LineEndOf(line: string, tail: string)
    requires Plain(line) && (tail == "" || IsBreak(tail[0]))
    ensures LineEnd(line + tail) == |line|
  {
    if line == "" {
      assert line + tail == tail;
    } else {
      assert (line + tail)[1..] == line[1..] + tail;
      LineEndOf(line[1..], tail);
    }
  }

  lemma {:induction false} SkipOf(separator: string, rest: string)
    requires Terminators(separator) && (rest == "" || !IsBreak(rest[0]))
    ensures Skip(separator + rest) == |separator|
  {
    if separator == "" {
      assert separator + rest == rest;
    } else {
      assert separator[0] in separator;
      assert (separator + rest)[1..] == separator[1..] + rest;
      SkipOf(separator[1..], rest);
    }
  }

  /** One line, its separator and a rest that starts with another line. */
  lemma FirstLine(line: string, separator: string, rest: string)
    requires Plain(line) && Terminators(separator) && line + separator != ""
    requires rest == "" || (separator != "" && !IsBreak(rest[0]))
    ensures Lines(line + separator + rest) == [line] + Lines(rest)
  {
    var s := line + separator + rest;
    assert s == line + (separator + rest);
    LineEndOf(line, separator + rest);
    SkipOf(separator, rest);
    assert s[..|line|] == line && s[|line|..] == separator + rest;
    assert Rest(s) == (separator + rest)[|separator|..] == rest;
  }

  /**
   * Splitting inverts joining. The first line may be empty: a text that starts with terminators
   * gives an empty first line.
   */
  lemma {:induction false} LinesOfJoined(lines: seq<string>, separators: seq<string>)
    requires |lines| == |separators| && Separates(separators)
    requires forall line <- lines :: Plain(line)
    requires forall i :: 0 < i < |lines| ==> lines[i] != ""
    requires lines != [] ==> lines[0] + separators[0] != ""
    ensures Lines(Join(lines, separators)) == lines
  {
    if lines != [] {
      var rest := Join(lines[1..], separators[1..]);
      if |lines| > 1 {
        assert lines[1] in lines && lines[1][0] in lines[1];
        assert rest[0] == lines[1][0];
      }
      LinesOfJoined(lines[1..], separators[1..]);
      FirstLine(lines[0], separators[0], rest);
    }
  }

  /** s is its lines joined by terminators, and only the first line may be empty. */
  ghost predicate AreLines(s: string, lines: seq<string>, separators: seq<string>) {
    && |lines| == |separators| && Separates(separators)
    && s == Join(lines, separators)
    && (s == "" ==> lines == [])
    && (forall line <- lines :: Plain(line))
    && (forall i :: 0 < i < |lines| ==> lines[i] != "")
    && (s != "" && !IsTerminator(s[0]) ==> lines != [] && lines[0] != "")
  }

  /** Joining inverts splitting: every text without NUL is its lines, joined by some terminators. */
  lemma {:induction false} JoinOfLines(s: string) returns (separators: seq<string>)
    requires '\0' !in s
    ensures AreLines(s, Lines(s), separators)
    decreases |s|
  {
    hide AreLines, Skip, LineEnd, Join, Terminators;
    separators := [];
    if s == "" {
      NoLines();
    } else {
      var separator := FirstSeparator(s);
      var later := JoinOfLines(Rest(s));
      separators := [separator] + later;
      LineBefore(s, s[..LineEnd(s)], separator, Rest(s), Lines(Rest(s)), later);
    }
  }

  /** Lines by their text: CR and LF end a line, alone or together, and what follows a NUL is dropped. */
  lemma LinesByText(a: string, b: string, c: string)
    requires a != "" && b != "" && c != ""
    requires forall x | x in a + b + c :: x != '\r' && x != '\n' && x != '\0'
    ensures Lines(a + "\r\n" + b + "\n" + c + "\r") == [a, b, c]
    ensures Lines(a + "\n" + b + "\0" + c) == [a, b]
  {
    hide Lines, Join, Separates;
    forall x | x in a ensures x in a + b + c {}
    forall x | x in b ensures x in a + b + c {}
    forall x | x in c ensures x in a + b + c {}
    Mixed();
    JoinOfThree(a, "\r\n", b, "\n", c, "\r");
    LinesOfJoined([a, b, c], ["\r\n", "\n", "\r"]);
    JoinOfTwo(a, "\n", b, "");
    LinesOfJoined([a, b], ["\n", ""]);
    assert a + "\n" + b + "" == a + "\n" + b && a + "\n" + b + "\0" + c == (a + "\n" + b) + "\0" + c;
    NulBehind(a + "\n" + b, c);
  }

  lemma Mixed()
    ensures Separates(["\r\n", "\n", "\r"]) && Separates(["\n", ""])
  {
    assert Terminators("\r\n") && Terminators("\n") && Terminators("\r") && Terminators("");
  }

  lemma JoinOfTwo(a: string, s: string, b: string, t: string)
    ensures Join([a, b], [s, t]) == a + s + b + t
  {
    assert [a, b][1..] == [b] && [b][1..] == [] && [s, t][1..] == [t] && [t][1..] == [];
    assert Join([b], [t]) == b + t + "";
  }

  lemma JoinOfThree(a: string, s: string, b: string, t: string, c: string, u: string)
    ensures Join([a, b, c], [s, t, u]) == a + s + b + t + c + u
  {
    assert [a, b, c][1..] == [b, c] && [s, t, u][1..] == [t, u];
    JoinOfTwo(b, t, c, u);
  }

  lemma NulBehind(text: string, dropped: string)
    requires text != "" && '\0' !in text
    ensures Lines(text + "\0" + dropped) == Lines(text)
  {
    hide Lines;
    NulDropsTheRest(text, dropped);
    assert text + "\0" + dropped == text + ['\0'] + dropped;
  }

  lemma NoLines()
    ensures AreLines("", [], [])
  {
  }

  lemma LineBefore(s: string, line: string, separator: string, rest: string,
                   lines: seq<string>, separators: seq<string>)
    requires s == line + separator + rest && AreLines(rest, lines, separators)
    requires Plain(line) && Terminators(separator)
    requires rest != "" ==> separator != "" && !IsTerminator(rest[0])
    requires s != "" && (!IsTerminator(s[0]) ==> line != "")
    ensures AreLines(s, [line] + lines, [separator] + separators)
  {
    hide Plain, Terminators, IsTerminator;
    assert ([line] + lines)[1..] == lines && ([separator] + separators)[1..] == separators;
    assert rest == "" ==> lines == [];
    forall t | t in [separator] + separators ensures Terminators(t) {
      assert t == separator || t in separators;
    }
  }

  /** What stands between the first line and the rest. */
  lemma FirstSeparator(s: string) returns (separator: string)
    requires '\0' !in s && s != ""
    ensures s == s[..LineEnd(s)] + separator + Rest(s) && '\0' !in Rest(s)
    ensures Terminators(separator)
    ensures Rest(s) != "" ==> separator != "" && !IsTerminator(Rest(s)[0])
    ensures !IsTerminator(s[0]) ==> s[..LineEnd(s)] != ""
  {
    var tail := s[LineEnd(s)..];
    separator := tail[..Skip(tail)];
    SkipIsTerminators(tail);
  }

  lemma {:induction false} SkipIsTerminators(s: string)
    requires '\0' !in s
    ensures Terminators(s[..Skip(s)])
    ensures Skip(s) < |s| ==> !IsTerminator(s[Skip(s)])
  {
    if s != "" && IsTerminator(s[0]) {
      SkipIsTerminators(s[1..]);
      assert s[..Skip(s)] == [s[0]] + s[1..][..Skip(s[1..])];
    }
  }

  /** A NUL in the text ends it: nothing behind it is ever returned. */
  lemma {:induction false} NulDropsTheRest(s: string, dropped: string)
    requires '\0' !in s
    ensures Lines(s + ['\0'] + dropped) == if s == "" then [""] else Lines(s)
    decreases |s|
  {
    hide LineEnd, Rest;
    var t := s + ['\0'] + dropped;
    LineBeforeNul(s, dropped);
    assert Lines(t) == [t[..LineEnd(t)]] + Lines(Rest(t));
    if s != "" && Rest(s) != "" {
      NulDropsTheRest(Rest(s), dropped);
    } else {
      assert Lines("") == [];
    }
  }

  lemma LineBeforeNul(s: string, dropped: string)
    requires '\0' !in s
    ensures var t := s + ['\0'] + dropped;
            && t[..LineEnd(t)] == s[..LineEnd(s)] && (s == "" ==> LineEnd(s) == 0)
            && Rest(t) == (if Rest(s) == "" then "" else Rest(s) + ['\0'] + dropped)
            && '\0' !in Rest(s)
  {
    hide LineEnd, Skip;
    var t, e := s + ['\0'] + dropped, LineEnd(s);
    var tail := s[e..];
    assert t == s[..e] + (tail + ['\0'] + dropped);
    LineEndOf(s[..e], tail + ['\0'] + dropped);
    assert t[e..] == tail + ['\0'] + dropped;
    SkipBeforeNul(tail, dropped);
  }

  lemma {:induction false} SkipBeforeNul(s: string, dropped: string)
    requires '\0' !in s
    ensures var k := Skip(s);
            Skip(s + ['\0'] + dropped) == if k < |s| then k else |s| + 1 + |dropped|
  {
    var t := s + ['\0'] + dropped;
    if s != "" {
      assert t[1..] == s[1..] + ['\0'] + dropped;
      if IsTerminator(s[0]) {
        SkipBeforeNul(s[1..], dropped);
      }
    }
  }

  // ---------------------------------------------------------------- the reader

  /** The pointers are positions in m_str. */
  class CReadLine {
    var m_str: string
    var m_pRead: nat
    var m_pBegin: nat
    var m_pEnd: nat

    ghost predicate Valid()
      reads this
    {
      m_pBegin <= m_pEnd == |m_str|
    }

    /** The lines still to be returned. */
    ghost function Pending(): seq<string>
      requires Valid()
      reads this
    {
      Lines(m_str[m_pBegin..])
    }

    constructor () {
    }

    method SetString(str: string) returns (ok: bool)
      modifies this
      ensures ok <==> str != ""
      ensures ok ==> Valid() && m_str == str && m_pBegin == 0 && Pending() == Lines(str)
      ensures !ok ==> unchanged(this)
    {
      if str == "" {
        return false;
      }
      m_str := str;
      m_pRead := 0;
      m_pBegin := 0;
      m_pEnd := m_pBegin + |m_str|;
      assert m_str[m_pBegin..] == str;
      return true;
    }

    /**
     * Returns the first pending line, or the empty string when there is none. As long as the text
     * is not used up each call comes closer to its end.
     */
    method ReadLine() returns (line: string)
      requires Valid()
      modifies `m_pRead, `m_pBegin
      ensures Valid() && Plain(line)
      ensures old(m_pBegin < m_pEnd) ==>
                && m_pEnd - m_pBegin < old(m_pEnd - m_pBegin)
                && old(Pending()) == [line] + Pending()
      ensures old(m_pBegin == m_pEnd) ==> line == "" && Pending() == [] == old(Pending())
    {
      if m_pBegin >= m_pEnd {
        return "";
      }
      line, m_pRead := ReadLineAt(m_pBegin, m_pEnd - m_pBegin);
      assert m_str[m_pRead..] == Rest(m_str[m_pBegin..]);
      m_pBegin := m_pRead;
    }

    /** A C string has a NUL behind its last character. */
    function CharAt(p: nat): char
      requires p <= |m_str|
      reads `m_str
    {
      if p == |m_str| then '\0' else m_str[p]
    }

    /** The line at buffer and the position the next one starts at. */
    method ReadLineAt(buffer: nat, len: nat) returns (line: string, pos: nat)
      requires buffer + len == |m_str|
      ensures buffer <= pos <= |m_str|
      ensures var s := m_str[buffer..]; line == s[..LineEnd(s)] && m_str[pos..] == Rest(s)
    {
      hide LineEnd, Skip;
      var begin, end := buffer, buffer + len;
      ghost var s := m_str[buffer..];
      var p := FindBreak(begin, end);
      line := m_str[begin..p];
      pos := SkipBreaks(p, end);
      assert s[LineEnd(s)..] == m_str[p..];
    }

    /** The first loop: up to the first break. */
    method FindBreak(begin: nat, end: nat) returns (p: nat)
      requires begin <= end == |m_str|
      ensures begin <= p <= end && p == begin + LineEnd(m_str[begin..])
    {
      hide LineEnd, Plain;
      p := begin;
      while p < end
        invariant begin <= p <= end
        invariant LineEnd(m_str[begin..]) == p - begin + LineEnd(m_str[p..])
      {
        LineEndStep(m_str, p);
        if CharAt(p) == '\r' || CharAt(p) == '\n' || CharAt(p) == '\0' {
          break;
        }
        p := p + 1;
      }
      LineEndStep(m_str, p);
    }

    /** The second loop: the next line starts behind the run of terminators. */
    method SkipBreaks(start: nat, end: nat) returns (pos: nat)
      requires start <= end == |m_str| && IsBreak(CharAt(start))
      ensures start <= pos <= end && m_str[pos..] == m_str[start..][Skip(m_str[start..])..]
    {
      hide Skip;
      var p := start;
      pos := start;
      while CharAt(p) == '\r' || CharAt(p) == '\n' || CharAt(p) == '\0'
        invariant start <= p <= end && pos == p
        invariant Skip(m_str[start..]) == p - start + Skip(m_str[p..])
        decreases end - p
      {
        SkipStep(m_str, p);
        if CharAt(p) == '\0' {
          pos := end;
          break;
        } else {
          p := p + 1;
          pos := p;
        }
      }
      SkipStep(m_str, p);
    }
  }
}
