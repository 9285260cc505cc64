/** String utilities the installer relies on: joining a word list with a
    separator (Rust's `Vec::join`), splitting it back, and substring tests. */
module Text {

  /** `s` begins with `prefix`. */
  predicate StartsWith(s: string, prefix: string)
  {
    |prefix| <= |s| && s[..|prefix|] == prefix
  }

  /** `s` ends with `suffix`. */
  predicate EndsWith(s: string, suffix: string)
  {
    |suffix| <= |s| && s[|s| - |suffix|..] == suffix
  }

  /** `sub` occurs in `s` starting at position `i`. */
  predicate OccursAt(s: string, sub: string, i: int)
  {
    0 <= i && i + |sub| <= |s| && s[i..i + |sub|] == sub
  }

  /** `sub` occurs somewhere inside `s`. */
  predicate Contains(s: string, sub: string)
  {
    exists i | 0 <= i <= |s| :: OccursAt(s, sub, i)
  }

  /** Anything placed between two strings is contained in the concatenation. */
  lemma ContainsMiddle(a: string, b: string, c: string)
    ensures Contains(a + b + c, b)
  {
    var s := a + b + c;
    assert s[|a|..|a| + |b|] == b;
    assert OccursAt(s, b, |a|);
  }

  /** The words of `words` separated by `sep`, as `words.join(sep)` renders them. */
  function JoinWith(words: seq<string>, sep: string): (r: string)
    ensures |words| == 1 ==> r == words[0]
    ensures |words| == 0 ==> r == ""
  {
    if |words| == 0 then ""
    else if |words| == 1 then words[0]
    else words[0] + sep + JoinWith(words[1..], sep)
  }

  /** The maximal runs of `s` between occurrences of `c`; always at least one
      (possibly empty) piece. */
  function Split(s: string, c: char): (r: seq<string>)
    ensures |r| >= 1
    decreases |s|
  {
    if c !in s then [s]
    else
      var i := IndexOf(s, c);
      [s[..i]] + Split(s[i + 1..], c)
  }

  /** The position of the first `c` in `s`. */
  function IndexOf(s: string, c: char): (i: nat)
    requires c in s
    ensures i < |s| && s[i] == c
    ensures forall j :: 0 <= j < i ==> s[j] != c
  {
    if s[0] == c then 0 else 1 + IndexOf(s[1..], c)
  }

  /** The first occurrence of `c` in `w + [c] + rest` is the one right after `w`
      when `w` itself has none. */
  lemma {:induction false} SplitStep(w: string, rest: string, c: char)
    requires c !in w
    ensures Split(w + [c] + rest, c) == [w] + Split(rest, c)
  {
    var s := w + [c] + rest;
    assert s[|w|] == c;
    var i := IndexOf(s, c);
    assert i == |w|;
    assert s[..i] == w;
    assert s[i + 1..] == rest;
  }

  /** Splitting a join recovers the word list, provided no word contains the
      separator character: each dependency stays a separate shell word. */
  lemma {:induction false} SplitJoin(words: seq<string>, c: char)
    requires |words| >= 1
    requires forall k :: 0 <= k < |words| ==> c !in words[k]
    ensures Split(JoinWith(words, [c]), c) == words
  {
    if |words| == 1 {
    } else {
      SplitJoin(words[1..], c);
      SplitStep(words[0], JoinWith(words[1..], [c]), c);
      assert JoinWith(words, [c]) == words[0] + [c] + JoinWith(words[1..], [c]);
      assert words == [words[0]] + words[1..];
    }
  }
}
