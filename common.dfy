/** Small building blocks shared by every module of the model. */
module Common {

  /** Python's `None` or a present value. */
  datatype Option<+T> = None | Some(value: T)

  /** Index of the first element of `s` satisfying `p`, or `|s|` when there is none.
      Every "for x in xs: if cond: return ..." search of the adapter is this function. */
  function FirstIndex<T>(s: seq<T>, p: T -> bool): (i: nat)
    ensures i <= |s|
    ensures forall j :: 0 <= j < i ==> !p(s[j])
    ensures i < |s| ==> p(s[i])
  {
    if s == [] then 0
    else if p(s[0]) then 0
    else 1 + FirstIndex(s[1..], p)
  }

  /** Python's `str.find(marker) != -1`: `marker` occurs somewhere in `text`. */
  predicate Contains(text: string, marker: string)
  {
    exists i :: 0 <= i <= |text| - |marker| && OccursAt(text, marker, i)
  }

  predicate OccursAt(text: string, marker: string, i: int)
    requires 0 <= i <= |text| - |marker|
  {
    text[i..i + |marker|] == marker
  }

  /** A non-empty prefix is the first element followed by a prefix of the tail. */
  lemma PrefixOfTail<T>(s: seq<T>, n: nat)
    requires 0 < n <= |s|
    ensures s[..n][0] == s[0] && s[..n][1..] == s[1..][..n - 1]
  {
  }
}
