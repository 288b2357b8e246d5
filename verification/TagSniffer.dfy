// isHTTPLiveStreaming of libhlsanalysis/src/cm3u8parse.cpp.
module TagSniffer {
  import opened CStrings

  const EXT: seq<string> := [
    "TARGETDURATION", "MEDIA-SEQUENCE", "KEY", "ALLOW-CACHE",
    "ENDLIST", "STREAM-INF", "DISCONTINUITY", "VERSION"
  ]

  /** One of the eight tags stands in s at position i. */
  predicate TagAt(s: string, i: int) {
    exists k | 0 <= k < |EXT| :: OccursAt(s, "#EXT-X-" + EXT[k], i)
  }

  /** The tags by their text. */
  lemma TagsByText(s: string, i: int)
    ensures TagAt(s, i) <==>
              || OccursAt(s, "#EXT-X-TARGETDURATION", i) || OccursAt(s, "#EXT-X-MEDIA-SEQUENCE", i)
              || OccursAt(s, "#EXT-X-KEY", i) || OccursAt(s, "#EXT-X-ALLOW-CACHE", i)
              || OccursAt(s, "#EXT-X-ENDLIST", i) || OccursAt(s, "#EXT-X-STREAM-INF", i)
              || OccursAt(s, "#EXT-X-DISCONTINUITY", i) || OccursAt(s, "#EXT-X-VERSION", i)
  {
    hide EXT, OccursAt;
    FirstTags();
    LastTags();
    if TagAt(s, i) {
      var k :| 0 <= k < |EXT| && OccursAt(s, "#EXT-X-" + EXT[k], i);
      assert k == 0 || k == 1 || k == 2 || k == 3 || k == 4 || k == 5 || k == 6 || k == 7;
    }
  }

  lemma FirstTags()
    ensures |EXT| == 8
    ensures "#EXT-X-" + EXT[0] == "#EXT-X-TARGETDURATION" && "#EXT-X-" + EXT[1] == "#EXT-X-MEDIA-SEQUENCE"
    ensures "#EXT-X-" + EXT[2] == "#EXT-X-KEY" && "#EXT-X-" + EXT[3] == "#EXT-X-ALLOW-CACHE"
  {
  }

  lemma LastTags()
    ensures |EXT| == 8
    ensures "#EXT-X-" + EXT[4] == "#EXT-X-ENDLIST" && "#EXT-X-" + EXT[5] == "#EXT-X-STREAM-INF"
    ensures "#EXT-X-" + EXT[6] == "#EXT-X-DISCONTINUITY" && "#EXT-X-" + EXT[7] == "#EXT-X-VERSION"
  {
  }

  /** One of the eight tag names starts at position i. */
  predicate NameAt(s: string, i: int) {
    exists k | 0 <= k < |EXT| :: OccursAt(s, EXT[k], i)
  }

  lemma TagParts(s: string, i: nat)
    requires i < |s|
    ensures TagAt(s, i) <==> s[i] == '#' && OccursAt(s, "EXT-X-", i + 1) && NameAt(s, i + 7)
  {
    hide EXT;
    forall k | 0 <= k < |EXT|
      ensures OccursAt(s, "#EXT-X-" + EXT[k], i) <==>
              s[i] == '#' && OccursAt(s, "EXT-X-", i + 1) && OccursAt(s, EXT[k], i + 7)
    {
      OccursInParts(s, "#", "EXT-X-" + EXT[k], i);
      OccursInParts(s, "EXT-X-", EXT[k], i + 1);
      assert "#" + ("EXT-X-" + EXT[k]) == "#EXT-X-" + EXT[k];
      assert s[i..i + 1] == [s[i]];
    }
  }

  lemma OccursInParts(s: string, a: string, b: string, i: nat)
    ensures OccursAt(s, a + b, i) <==> OccursAt(s, a, i) && OccursAt(s, b, i + |a|)
  {
    if i + |a| + |b| <= |s| {
      var both := s[i..i + |a| + |b|];
      assert both[..|a|] == s[i..i + |a|] && both[|a|..] == s[i + |a|..i + |a| + |b|];
      assert (a + b)[..|a|] == a && (a + b)[|a|..] == b;
      assert both == both[..|a|] + both[|a|..];
    }
  }

  /** No tag starts inside the six characters that are skipped: none of them is a '#'. */
  lemma NoTagInside(s: string, p: nat)
    requires OccursAt(s, "EXT-X-", p)
    ensures forall i :: p <= i < p + 6 ==> !TagAt(s, i)
  {
    hide TagAt;
    forall i | p <= i < p + 6 ensures !TagAt(s, i) {
      assert s[i] == s[p..p + 6][i - p] == "EXT-X-"[i - p];
      TagParts(s, i);
    }
  }

  /**
   * True exactly when the text starts with "#EXTM3U" and one of the tags stands wholly somewhere
   * behind it: skipping the six characters of a partial match never misses one.
   */
  method isHTTPLiveStreaming(m3u8_content: string) returns (ok: bool)
    requires |m3u8_content| < 0x8000_0000
    ensures ok <==> "#EXTM3U" <= m3u8_content && exists i | 7 <= i < |m3u8_content| :: TagAt(m3u8_content, i)
  {
    hide EXT, TagAt, OccursAt;
    var s, size := m3u8_content, |m3u8_content|;
    if size < 7 {
      return false;
    }
    if s[..7] != "#EXTM3U" {
      return false;
    }
    var peek := 7;
    size := size - 7;
    while size != 0
      invariant 7 <= peek && 0 <= size && peek + size == |s|
      invariant forall i :: 7 <= i < peek ==> !TagAt(s, i)
      decreases size
    {
      size := size - 1;
      peek := peek + 1;
      TagParts(s, peek - 1);
      if s[peek - 1] != '#' {
        continue;
      }
      OccursAtIs(s, "EXT-X-", peek);
      if size < 6 {
        continue;
      }
      if s[peek..peek + 6] != "EXT-X-" {
        continue;
      }
      NoTagInside(s, peek);
      peek := peek + 6;
      size := size - 6;
      var found := AnyName(s, peek, size);
      if found {
        return true;
      }
    }
    return false;
  }

  lemma OccursAtIs(s: string, word: string, i: nat)
    ensures OccursAt(s, word, i) <==> i + |word| <= |s| && s[i..i + |word|] == word
  {
  }

  /** The inner loop: one of the names is compared in full at peek. */
  method AnyName(s: string, peek: nat, size: int) returns (found: bool)
    requires peek + size == |s| && size >= 0
    ensures found <==> NameAt(s, peek)
  {
    hide EXT;
    var i := 0;
    while i < |EXT|
      invariant 0 <= i <= |EXT|
      invariant forall k :: 0 <= k < i ==> !OccursAt(s, EXT[k], peek)
    {
      var len := |EXT[i]|;
      if size >= 0 && size >= len {
        if s[peek..peek + len] == EXT[i] {
          return true;
        }
      }
      i := i + 1;
    }
    return false;
  }
}
