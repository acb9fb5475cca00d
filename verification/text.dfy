/** The two string primitives the filename extractor uses:
    `strings.ReplaceAll(s, "\n", " ")` and `strings.LastIndex(s, c)` for a
    one-character needle. */
module Text {

  /** `s` with every newline replaced by a space; no other character changes. */
  function ReplaceNewlines(s: string): (t: string)
    ensures |t| == |s|
    ensures forall i :: 0 <= i < |s| ==> t[i] == (if s[i] == '\n' then ' ' else s[i])
    ensures '\n' !in t
    ensures '\n' !in s ==> t == s
  {
    seq(|s|, i requires 0 <= i < |s| => if s[i] == '\n' then ' ' else s[i])
  }

  /** Position of the last `c` in `s`, or -1 when `s` holds no `c`. */
  function LastIndex(s: string, c: char): (r: int)
    ensures -1 <= r < |s|
    ensures 0 <= r ==> s[r] == c
    ensures forall k :: r < k < |s| ==> s[k] != c
  {
    LastIndexBefore(s, c, |s|)
  }

  /** Position of the last `c` among the first `n` characters of `s`, or -1:
      the backwards scan of `strings.LastIndex`. */
  function LastIndexBefore(s: string, c: char, n: nat): (r: int)
    requires n <= |s|
    ensures -1 <= r < n
    ensures 0 <= r ==> s[r] == c
    ensures forall k :: r < k < n ==> s[k] != c
  {
    if n == 0 then -1
    else if s[n - 1] == c then n - 1
    else LastIndexBefore(s, c, n - 1)
  }

  /** Newline replacement works character by character, so it distributes
      over concatenation. */
  lemma {:induction false} ReplaceNewlinesAppend(a: string, b: string)
    ensures ReplaceNewlines(a + b) == ReplaceNewlines(a) + ReplaceNewlines(b)
  {
    if |a| > 0 {
      assert (a + b)[1..] == a[1..] + b;
      ReplaceNewlinesAppend(a[1..], b);
    }
  }
}
