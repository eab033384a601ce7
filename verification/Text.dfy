/** The string searching and splitting the parsers of this project share. */
module Text {
  import opened Prelude

  predicate IsLowercase(c: char) { 'a' <= c <= 'z' }
  predicate IsDigit(c: char) { '0' <= c <= '9' }
  predicate IsLetter(c: char) { 'a' <= c <= 'z' || 'A' <= c <= 'Z' }

  predicate OccursAt(s: string, pattern: string, i: nat) {
    i + |pattern| <= |s| && s[i..i + |pattern|] == pattern
  }

  /** The first occurrence of `pattern` in `s` at or after `from`. */
  function FindFrom(s: string, pattern: string, from: nat): (r: Option<nat>)
    requires from <= |s|
    ensures r.Some? ==>
      from <= r.value && OccursAt(s, pattern, r.value) && forall i: nat | from <= i < r.value :: !OccursAt(s, pattern, i)
    ensures r.None? ==> forall i: nat | from <= i :: !OccursAt(s, pattern, i)
    decreases |s| - from
  {
    if OccursAt(s, pattern, from) then Some(from)
    else if from == |s| then None
    else FindFrom(s, pattern, from + 1)
  }

  function Find(s: string, pattern: string): Option<nat> {
    FindFrom(s, pattern, 0)
  }

  /** The pattern is found at `i` exactly when it first occurs there. */
  lemma FindIs(s: string, pattern: string, i: nat)
    requires OccursAt(s, pattern, i) && forall j: nat | j < i :: !OccursAt(s, pattern, j)
    ensures Find(s, pattern) == Some(i)
  {
  }

  lemma NoMatchOnFirst(s: string, pattern: string, i: nat)
    requires pattern != "" && i < |s| && s[i] != pattern[0]
    ensures !OccursAt(s, pattern, i)
  {
    assert i + |pattern| <= |s| ==> s[i..i + |pattern|][0] == s[i];
  }

  predicate StartsWith(s: string, prefix: string) {
    |prefix| <= |s| && s[..|prefix|] == prefix
  }

  /** Rust's `split_once`: the text before and after the first occurrence of a non-empty pattern. */
  function SplitOnce(s: string, pattern: string): (r: Option<(string, string)>)
    ensures r.Some? ==> s == r.value.0 + pattern + r.value.1
  {
    match Find(s, pattern)
    case None => None
    case Some(i) => Some((s[..i], s[i + |pattern|..]))
  }

  /** The first position of character `c`. */
  function IndexOf(s: string, c: char): (r: Option<nat>)
    ensures r.Some? ==> r.value < |s| && s[r.value] == c && c !in s[..r.value]
    ensures r.None? ==> c !in s
  {
    if s == "" then None
    else if s[0] == c then Some(0)
    else
      match IndexOf(s[1..], c)
      case None => None
      case Some(i) =>
        assert s[..i + 1] == [s[0]] + s[1..][..i];
        Some(i + 1)
  }

  /** Rust's `split` on a character: the parts between separators, at least one. */
  function Split(s: string, separator: char): (parts: seq<string>)
    ensures |parts| >= 1
    ensures forall p | p in parts :: separator !in p
  {
    match IndexOf(s, separator)
    case None => [s]
    case Some(i) => [s[..i]] + Split(s[i + 1..], separator)
  }

  function Join(parts: seq<string>, separator: char): string {
    if |parts| == 0 then ""
    else if |parts| == 1 then parts[0]
    else parts[0] + [separator] + Join(parts[1..], separator)
  }

  lemma {:induction false} JoinInvertsSplit(s: string, separator: char)
    ensures Join(Split(s, separator), separator) == s
  {
    var i := IndexOf(s, separator);
    if i.Some? {
      JoinInvertsSplit(s[i.value + 1..], separator);
      assert Split(s, separator)[1..] == Split(s[i.value + 1..], separator);
      assert s == s[..i.value] + [separator] + s[i.value + 1..];
    }
  }

  lemma {:induction false} IndexOfJoin(head: string, separator: char, tail: string)
    requires separator !in head
    ensures IndexOf(head + [separator] + tail, separator) == Some(|head|)
  {
    if head != "" {
      IndexOfJoin(head[1..], separator, tail);
      assert (head + [separator] + tail)[1..] == head[1..] + [separator] + tail;
    }
  }

  lemma {:induction false} SplitInvertsJoin(parts: seq<string>, separator: char)
    requires |parts| >= 1 && forall p | p in parts :: separator !in p
    ensures Split(Join(parts, separator), separator) == parts
  {
    if |parts| > 1 {
      var tail := Join(parts[1..], separator);
      IndexOfJoin(parts[0], separator, tail);
      var s := parts[0] + [separator] + tail;
      assert s[..|parts[0]|] == parts[0] && s[|parts[0]| + 1..] == tail;
      SplitInvertsJoin(parts[1..], separator);
    } else {
      assert parts == [parts[0]] && parts[0] in parts;
      assert IndexOf(parts[0], separator).None?;
    }
  }
}
