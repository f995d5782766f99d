/**
 * The two array operations the registry uses to drop a resolver from a list:
 * `indexOf` (identity comparison, -1 when absent) and `splice(start, 1)`, whose
 * negative start counts back from the end of the array.
 */
module ListOps {

  /** The first index holding `x`, or -1 when `x` does not occur. */
  function IndexOf<T(==)>(s: seq<T>, x: T): (i: int)
    ensures -1 <= i < |s|
    ensures i == -1 <==> x !in s
    ensures 0 <= i ==> s[i] == x && x !in s[..i]
  {
    if s == [] then -1
    else if s[0] == x then 0
    else
      var j := IndexOf(s[1..], x);
      if j == -1 then -1
      else
        assert s[..j + 1] == [s[0]] + s[1..][..j];
        j + 1
  }

  /** The position `splice` starts at: a negative start is taken from the end, and both are clamped to the array. */
  function SpliceStart(length: nat, start: int): (at: nat)
    ensures at <= length
    ensures start < 0 && length > 0 ==> at < length
  {
    if start < 0 then (if length + start < 0 then 0 else length + start)
    else if start < length then start else length
  }

  /** The array left by `splice(start, 1)`: the element at the start position is removed, if there is one. */
  function SpliceOne<T>(s: seq<T>, start: int): (r: seq<T>)
    ensures start < |s| && s != [] ==> |r| == |s| - 1
    ensures 0 <= start < |s| ==> r == s[..start] + s[start + 1..]
    ensures -|s| <= start < 0 ==> r == s[..|s| + start] + s[|s| + start + 1..]
    ensures start < -|s| && s != [] ==> r == s[1..]
    ensures |s| <= start ==> r == s
  {
    var at := SpliceStart(|s|, start);
    if at < |s| then s[..at] + s[at + 1..] else s
  }

  /**
   * `s.splice(s.indexOf(x), 1)`: removes one element, the first occurrence of
   * `x` when there is one and otherwise the LAST element, because the index -1
   * of an absent element is read by `splice` as "one before the end".
   */
  function RemoveOnce<T(==)>(s: seq<T>, x: T): (r: seq<T>)
    ensures s != [] ==> |r| == |s| - 1
    ensures s == [] ==> r == []
    ensures x !in s && s != [] ==> r == s[..|s| - 1]
  {
    SpliceOne(s, IndexOf(s, x))
  }

  /** When `x` occurs, exactly its first occurrence is removed and nothing else. */
  lemma RemoveOnceFirstOccurrence<T>(s: seq<T>, x: T)
    requires x in s
    ensures var i := IndexOf(s, x); RemoveOnce(s, x) == s[..i] + s[i + 1..]
    ensures multiset(RemoveOnce(s, x)) == multiset(s) - multiset{x}
  {
    var i := IndexOf(s, x);
    assert RemoveOnce(s, x) == s[..i] + s[i + 1..];
    assert s == s[..i] + [x] + s[i + 1..];
    assert multiset(s) == multiset(s[..i]) + multiset{x} + multiset(s[i + 1..]);
  }
}
