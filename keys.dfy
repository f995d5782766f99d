/**
 * The registry key of a variable name (`getKey`): the name lower-cased, so that
 * every lookup and registration is case-insensitive. Lower-casing is modelled
 * on ASCII letters only.
 */
module Keys {

  predicate IsUpper(c: char) {
    'A' <= c <= 'Z'
  }

  function LowerChar(c: char): char {
    if IsUpper(c) then (c as int + 32) as char else c
  }

  /** Two characters that differ at most in the case of an ASCII letter. */
  predicate CharsEqualIgnoringCase(c: char, d: char) {
    c == d
    || (IsUpper(c) && d as int == c as int + 32)
    || (IsUpper(d) && c as int == d as int + 32)
  }

  /** Two names that are equal up to the case of their ASCII letters. */
  predicate SameIgnoringCase(a: string, b: string) {
    |a| == |b| && forall i :: 0 <= i < |a| ==> CharsEqualIgnoringCase(a[i], b[i])
  }

  /** The key under which a name is stored: same length, each letter lower-cased, no upper-case letter left. */
  function Key(name: string): (k: string)
    ensures |k| == |name|
    ensures forall i :: 0 <= i < |name| ==> k[i] == LowerChar(name[i])
    ensures forall i :: 0 <= i < |k| ==> !IsUpper(k[i])
  {
    if name == [] then [] else [LowerChar(name[0])] + Key(name[1..])
  }

  lemma LowerCharIgnoresCase(c: char, d: char)
    ensures LowerChar(c) == LowerChar(d) <==> CharsEqualIgnoringCase(c, d)
  {
  }

  /** Two names share a key exactly when they are equal ignoring case. */
  lemma {:induction false} KeyCaseInsensitive(a: string, b: string)
    ensures Key(a) == Key(b) <==> SameIgnoringCase(a, b)
  {
    if Key(a) == Key(b) {
      forall i | 0 <= i < |a|
        ensures CharsEqualIgnoringCase(a[i], b[i])
      {
        assert Key(a)[i] == Key(b)[i];
        LowerCharIgnoresCase(a[i], b[i]);
      }
    }
    if SameIgnoringCase(a, b) {
      forall i | 0 <= i < |a|
        ensures Key(a)[i] == Key(b)[i]
      {
        LowerCharIgnoresCase(a[i], b[i]);
      }
    }
  }

  /** A name without upper-case letters is its own key; in particular keys are fixed points. */
  lemma {:induction false} KeyOfLowered(s: string)
    requires forall i :: 0 <= i < |s| ==> !IsUpper(s[i])
    ensures Key(s) == s
  {
    assert forall i :: 0 <= i < |s| ==> Key(s)[i] == s[i];
  }

  lemma KeyIdempotent(name: string)
    ensures Key(Key(name)) == Key(name)
  {
    KeyOfLowered(Key(name));
  }
}
