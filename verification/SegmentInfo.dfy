// strtok_r and parse_SegmentInformation of libhlsanalysis/src/cm3u8parse.cpp: the duration of a segment.
module SegmentInfo {
  import opened CStrings

  // ---------------------------------------------------------------- tokens

  /** The first token of s and what is left behind the delimiter that ends it; None when s has none. */
  function Token(s: string, delim: string): Option<(string, string)> {
    var t := s[Span(s, delim)..];
    var n := Break(t, delim);
    if t == "" then None else Some((t[..n], if n == |t| then "" else t[n + 1..]))
  }

  /** The C string at position p of a buffer. */
  function StringAt(buf: seq<char>, p: nat): (s: string)
    requires p <= |buf|
    ensures p + |s| <= |buf| && '\0' !in s
  {
    buf[p..p + IndexOf(buf[p..], '\0')]
  }

  /** There is a NUL at or behind p. */
  predicate Terminated(buf: seq<char>, p: nat): (t: bool)
    ensures t ==> p < |buf|
  {
    p < |buf| && p + IndexOf(buf[p..], '\0') < |buf|
  }

  lemma StringAtIs(buf: seq<char>, p: nat, s: string)
    requires p + |s| < |buf| && buf[p..p + |s|] == s && '\0' !in s && buf[p + |s|] == '\0'
    ensures Terminated(buf, p) && StringAt(buf, p) == s
  {
    var t := buf[p..];
    assert t[..|s|] == s && t[|s|] == '\0';
    IndexOfIs(t, '\0', |s|);
  }

  lemma StringAtBehind(buf: seq<char>, p: nat, k: nat)
    requires Terminated(buf, p) && k <= |StringAt(buf, p)|
    ensures Terminated(buf, p + k) && StringAt(buf, p + k) == StringAt(buf, p)[k..]
  {
    var s := StringAt(buf, p);
    assert buf[p + |s|] == '\0' by { assert buf[p..][|s|] == '\0'; }
    assert s[k..] == buf[p + k..p + |s|];
    assert forall c :: c in s[k..] ==> c in s;
    StringAtIs(buf, p + k, s[k..]);
  }

  /** A NUL written inside a C string ends it there. */
  lemma StringCut(buf: seq<char>, p: nat, n: nat)
    requires Terminated(buf, p) && n < |StringAt(buf, p)|
    ensures p + n < |buf|
    ensures var cut := buf[p + n := '\0'];
            && Terminated(cut, p) && StringAt(cut, p) == StringAt(buf, p)[..n]
            && Terminated(cut, p + n + 1) && StringAt(cut, p + n + 1) == StringAt(buf, p)[n + 1..]
  {
    CutFront(buf, p, n);
    StringAtBehind(buf, p, n + 1);
    assert buf[p + n := '\0'][p + n + 1..] == buf[p + n + 1..];
  }

  lemma CutFront(buf: seq<char>, p: nat, n: nat)
    requires Terminated(buf, p) && n < |StringAt(buf, p)|
    ensures p + n < |buf|
    ensures Terminated(buf[p + n := '\0'], p) && StringAt(buf[p + n := '\0'], p) == StringAt(buf, p)[..n]
  {
    var s, cut := StringAt(buf, p), buf[p + n := '\0'];
    assert s[..n] == cut[p..p + n];
    assert forall c :: c in s[..n] ==> c in s;
    StringAtIs(cut, p, s[..n]);
  }

  /**
   * Cuts the next token out of the buffer by writing a NUL over the delimiter behind it. The token and
   * what is left are those of Token; without one neither the buffer nor the saved position changes.
   */
  method strtok_r(buf: array<char>, start: nat, delim: string, save: nat) returns (token: Option<nat>, save_ptr: nat)
    requires Terminated(buf[..], start)
    modifies buf
    ensures var was := Token(old(StringAt(buf[..], start)), delim);
            && (was.None? ==> token == None && save_ptr == save && buf[..] == old(buf[..]))
            && (was.Some? ==>
                  && token.Some? && start <= token.value < save_ptr
                  && Terminated(buf[..], token.value) && StringAt(buf[..], token.value) == was.value.0
                  && Terminated(buf[..], save_ptr) && StringAt(buf[..], save_ptr) == was.value.1)
  {
    hide StringAt, Terminated, Span, Break;
    token, save_ptr := None, save;
    var text := StringAt(buf[..], start);
    var skipped := Span(text, delim);
    StringAtBehind(buf[..], start, skipped);
    var s := start + skipped;
    var t := StringAt(buf[..], s);
    if t == "" {
      return;
    }
    token := Some(s);
    var n := Break(t, delim);
    if n == |t| {
      StringAtBehind(buf[..], s, n);
      save_ptr := s + n;
      assert t[..n] == t && t[n..] == "";
    } else {
      StringCut(buf[..], s, n);
      ghost var was := buf[..];
      buf[s + n] := '\0';
      assert buf[..] == was[s + n := '\0'];
      save_ptr := s + n + 1;
    }
  }

  // ---------------------------------------------------------------- the duration of a segment

  datatype Status = Success | Generic | Undefined

  /** How the C library reads numbers: strtol in base 10, strtof and "%d" of sscanf, None when they fail. */
  datatype Scanners = Scanners(strtol: string -> Option<int>, strtof: string -> Option<real>,
                               integer: string -> Option<int>)

  /** (int)d rounds towards zero. */
  function Truncated(d: real): int {
    if d >= 0.0 then d.Floor else -(-d).Floor
  }

  function Rounded(d: real): int {
    if d - Truncated(d) as real >= 0.5 then Truncated(d) + 1 else Truncated(d)
  }

  /** The nearest integer, the larger of two; a negative value loses its fraction. */
  lemma RoundedIs(d: real, r: int)
    ensures d >= 0.0 ==> (r == Rounded(d) <==> d - 0.5 < r as real <= d + 0.5)
    ensures d < 0.0 ==> (r == Rounded(d) <==> d <= r as real < d + 1.0)
  {
    if d < 0.0 {
      var n := (-d).Floor;
      assert n as real <= -d < n as real + 1.0;
    }
  }

  /** The text the duration is read from: behind the first colon, up to the next comma. */
  function DurationText(line: string): Option<string> {
    match Token(line, ":")
    case None => None
    case Some((tag, rest)) =>
      match Token(rest, ",")
      case None => None
      case Some((text, more)) => Some(text)
  }

  /** The duration on an #EXTINF line: whole seconds before protocol version 3, rounded ones from it on. */
  function InfDuration(scan: Scanners, version: int, line: string): Option<int> {
    match DurationText(line)
    case None => None
    case Some(text) =>
      if version < 3 then scan.strtol(text)
      else match scan.strtof(text)
           case None => None
           case Some(d) => Some(Rounded(d))
  }

  method parse_SegmentInformation(scan: Scanners, version: int, p_read: array<char>, before: int)
    returns (err: Status, duration: int)
    requires Terminated(p_read[..], 0)
    modifies p_read
    ensures var d := InfDuration(scan, version, old(StringAt(p_read[..], 0)));
            && err == (if d.Some? then Success else Generic)
            && (d.Some? ==> duration == d.value)
  {
    hide StringAt, Terminated, Token;
    duration := before;
    var p_next := 0;
    var token;
    token, p_next := strtok_r(p_read, 0, ":", p_next);
    if token.None? {
      return Generic, duration;
    }
    token, p_next := strtok_r(p_read, p_next, ",", p_next);
    if token.None? {
      return Generic, duration;
    }
    var text := StringAt(p_read[..], token.value);
    if version < 3 {
      var value := scan.strtol(text);
      if value.None? {
        return Generic, -1;
      }
      duration := value.value;
    } else {
      var value := scan.strtof(text);
      if value.None? {
        return Generic, -1;
      }
      var d := value.value;
      if d - Truncated(d) as real >= 0.5 {
        duration := Truncated(d) + 1;
      } else {
        duration := Truncated(d);
      }
    }
    err := Success;
  }

  /** What the line means: a tag, a colon, the duration and whatever follows a comma. */
  lemma DurationTextOf(tag: string, text: string, rest: string)
    requires tag != "" && ':' !in tag && text != "" && ',' !in text
    requires rest == "" || rest[0] == ','
    ensures DurationText(tag + ":" + text + rest) == Some(text)
  {
    hide Token;
    assert tag + ":" + text + rest == tag + ":" + (text + rest);
    TokenOf(tag, ":", ":" + (text + rest));
    assert (":" + (text + rest))[1..] == text + rest;
    assert tag + (":" + (text + rest)) == tag + ":" + (text + rest);
    TokenOf(text, ",", rest);
  }

  lemma TokenOf(token: string, delim: string, rest: string)
    requires token != "" && (forall c <- token :: c !in delim) && (rest == "" || rest[0] in delim)
    ensures Token(token + rest, delim) == Some((token, if rest == "" then "" else rest[1..]))
  {
    assert (token + rest)[0] == token[0] && token[0] in token;
    assert (token + rest)[0..] == token + rest;
    BreakOf(token, delim, rest);
    assert (token + rest)[..|token|] == token;
    assert rest != "" ==> (token + rest)[|token| + 1..] == rest[1..];
  }
}
