// The string functions of the C library that the playlist code is built on. A C string is the
// sequence of its characters, without the NUL behind them; a null pointer is None.
module CStrings {

  datatype Option<T> = None | Some(value: T)

  /** strchr: the position of the first c, or the length when there is none. */
  function IndexOf(s: string, c: char): (i: nat)
    ensures i <= |s| && c !in s[..i] && (i < |s| ==> s[i] == c)
  {
    if s == "" || s[0] == c then 0 else
      assert s[..1 + IndexOf(s[1..], c)] == [s[0]] + s[1..][..IndexOf(s[1..], c)];
      1 + IndexOf(s[1..], c)
  }

  /** strrchr: the position of the last c, or -1 when there is none. */
  function LastIndexOf(s: string, c: char): (i: int)
    ensures -1 <= i < |s| && (i >= 0 ==> s[i] == c)
    ensures forall k :: i < k < |s| ==> s[k] != c
  {
    if s == "" then -1
    else if s[|s| - 1] == c then |s| - 1
    else LastIndexOf(s[..|s| - 1], c)
  }

  lemma {:induction false} IndexOfIs(s: string, c: char, i: nat)
    requires i <= |s| && c !in s[..i] && (i < |s| ==> s[i] == c)
    ensures IndexOf(s, c) == i
    decreases i
  {
    if i > 0 {
      assert s[0] == s[..i][0] && s[1..][..i - 1] == s[..i][1..];
      IndexOfIs(s[1..], c, i - 1);
    }
  }

  lemma {:induction false} LastIndexOfIs(s: string, c: char, i: nat)
    requires i < |s| && s[i] == c && forall k :: i < k < |s| ==> s[k] != c
    ensures LastIndexOf(s, c) == i
  {
    if i < |s| - 1 {
      LastIndexOfIs(s[..|s| - 1], c, i);
    }
  }

  /** strspn: how many characters s starts with that are in delim. */
  function Span(s: string, delim: string): (n: nat)
    ensures n <= |s| && (n < |s| ==> s[n] !in delim)
  {
    if s == "" || s[0] !in delim then 0 else 1 + Span(s[1..], delim)
  }

  /** strpbrk: the position of the first character in delim, or the length when there is none. */
  function Break(s: string, delim: string): (n: nat)
    ensures n <= |s| && (n < |s| ==> s[n] in delim)
    ensures forall i :: 0 <= i < n ==> s[i] !in delim
  {
    if s == "" || s[0] in delim then 0 else 1 + Break(s[1..], delim)
  }

  lemma {:induction false} BreakOf(token: string, delim: string, rest: string)
    requires (forall c <- token :: c !in delim) && (rest == "" || rest[0] in delim)
    ensures Break(token + rest, delim) == |token|
  {
    if token == "" {
      assert token + rest == rest;
    } else {
      assert token[0] in token && (token + rest)[1..] == token[1..] + rest;
      BreakOf(token[1..], delim, rest);
    }
  }

  /** word stands in s at position i. */
  predicate OccursAt(s: string, word: string, i: int) {
    0 <= i <= |s| - |word| && s[i..i + |word|] == word
  }

  /** strstr finds word somewhere in s. */
  predicate Contains(s: string, word: string) {
    exists i | 0 <= i <= |s| :: OccursAt(s, word, i)
  }

  function ToLower(c: char): char {
    if 'A' <= c <= 'Z' then (c as int + 32) as char else c
  }

  /** strncasecmp over the length of word: s starts with word, whatever the case of the letters. */
  predicate StartsWithFold(s: string, word: string) {
    |word| <= |s| && forall i :: 0 <= i < |word| ==> ToLower(s[i]) == ToLower(word[i])
  }
}
