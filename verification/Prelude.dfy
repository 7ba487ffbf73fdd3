/** Small datatypes shared by every module of the model. */
module Prelude {

  datatype Option<+T> = None | Some(value: T)

  datatype Result<+T, +E> = Ok(value: T) | Err(error: E)

  const WHITESPACE: set<char> := {' ', '\t', '\n', '\r'}

  /** Nothing is left after stripping. */
  predicate IsBlank(s: string) {
    forall i :: 0 <= i < |s| ==> s[i] in WHITESPACE
  }

  /** Python's `strip` for the white space above. */
  function Stripped(s: string): string {
    if s == "" then ""
    else if s[0] in WHITESPACE then Stripped(s[1..])
    else if s[|s| - 1] in WHITESPACE then Stripped(s[..|s| - 1])
    else s
  }

  /** Python's `needle in haystack` on strings. */
  predicate Contains(haystack: string, needle: string) {
    exists i :: 0 <= i <= |haystack| && needle <= haystack[i..]
  }

  lemma ContainsExactly(haystack: string, needle: string)
    ensures Contains(haystack, needle) <==> exists before, after :: haystack == before + needle + after
  {
    if Contains(haystack, needle) {
      var i :| 0 <= i <= |haystack| && needle <= haystack[i..];
      assert haystack == haystack[..i] + needle + haystack[i..][|needle|..];
    }
    if exists before, after :: haystack == before + needle + after {
      var before, after :| haystack == before + needle + after;
      assert haystack[|before|..] == needle + after;
    }
  }

  /** `core` is `s` without white space at its ends. */
  ghost predicate IsCore(s: string, before: string, core: string, after: string) {
    s == before + core + after && IsBlank(before) && IsBlank(after)
  }

  /** What is stripped off is white space, and what is left neither starts nor ends with any. */
  lemma {:induction false} StrippedExactly(s: string) returns (before: string, after: string)
    ensures IsCore(s, before, Stripped(s), after)
    ensures Stripped(s) != "" ==>
      Stripped(s)[0] !in WHITESPACE && Stripped(s)[|Stripped(s)| - 1] !in WHITESPACE
    decreases |s|
  {
    before, after := "", "";
    if s != "" && s[0] in WHITESPACE {
      before, after := StrippedExactly(s[1..]);
      CoreGrowsLeft(s, before, Stripped(s), after);
      before := [s[0]] + before;
    } else if s != "" && s[|s| - 1] in WHITESPACE {
      before, after := StrippedExactly(s[..|s| - 1]);
      CoreGrowsRight(s, before, Stripped(s), after);
      after := after + [s[|s| - 1]];
    }
  }

  lemma CoreGrowsLeft(s: string, before: string, core: string, after: string)
    requires s != "" && s[0] in WHITESPACE && IsCore(s[1..], before, core, after)
    ensures IsCore(s, [s[0]] + before, core, after)
  {
    assert s == [s[0]] + s[1..];
    assert s == [s[0]] + before + core + after;
  }

  lemma CoreGrowsRight(s: string, before: string, core: string, after: string)
    requires s != "" && s[|s| - 1] in WHITESPACE && IsCore(s[..|s| - 1], before, core, after)
    ensures IsCore(s, before, core, after + [s[|s| - 1]])
  {
    assert s == s[..|s| - 1] + [s[|s| - 1]];
    assert s == before + core + (after + [s[|s| - 1]]);
  }

  /** Python's `max` on two integers. */
  function Max(a: int, b: int): int {
    if a < b then b else a
  }
}
