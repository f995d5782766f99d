/**
 * Resolver selection order: the registry hands every resolver, paired with the
 * score its probe returned, to `Prioritizeable.prioritizeAll`, which keeps the
 * strictly positive scores and orders them by descending score, equal scores
 * in their original order. That utility is not part of this model: its
 * behaviour is the ASSUMED contract `IsStableDescending`, which this module
 * shows to determine the result uniquely and to be met by `PrioritizeAll`.
 */
module Prioritize {

  /** A value with the priority its probe gave it. */
  datatype Scored<T> = Scored(value: T, priority: real)

  /** The entries of `s` whose priority is exactly `p`, in their order in `s`. */
  function Keep<T>(s: seq<Scored<T>>, p: real): seq<Scored<T>> {
    if s == [] then [] else (if s[0].priority == p then [s[0]] else []) + Keep(s[1..], p)
  }

  predicate SortedDescending<T>(s: seq<Scored<T>>) {
    forall i, j :: 0 <= i < j < |s| ==> s[i].priority >= s[j].priority
  }

  /**
   * The assumed contract of `prioritizeAll`: `t` is ordered by descending
   * priority, holds no entry of priority 0 or below, and for every positive
   * priority holds the entries of `es` with that priority in their order in
   * `es` (a stable sort of the positive entries).
   */
  ghost predicate IsStableDescending<T>(es: seq<Scored<T>>, t: seq<Scored<T>>) {
    SortedDescending(t) && forall p :: Keep(t, p) == if p > 0.0 then Keep(es, p) else []
  }

  /** `i` is the first position of `es` with the highest priority, and that priority is positive. */
  ghost predicate IsFirstBest<T>(es: seq<Scored<T>>, i: int) {
    0 <= i < |es| && es[i].priority > 0.0
    && (forall j :: 0 <= j < |es| ==> es[j].priority <= es[i].priority)
    && (forall j :: 0 <= j < i ==> es[j].priority < es[i].priority)
  }

  /** The entries with a positive priority, in order. */
  function FilterPositive<T>(s: seq<Scored<T>>): seq<Scored<T>> {
    if s == [] then [] else (if s[0].priority > 0.0 then [s[0]] else []) + FilterPositive(s[1..])
  }

  /** Places `x` before the first entry whose priority is not above its own. */
  function InsertFront<T>(x: Scored<T>, t: seq<Scored<T>>): seq<Scored<T>> {
    if t == [] || t[0].priority <= x.priority then [x] + t else [t[0]] + InsertFront(x, t[1..])
  }

  /** Stable insertion sort by descending priority. */
  function SortDescending<T>(s: seq<Scored<T>>): seq<Scored<T>> {
    if s == [] then [] else InsertFront(s[0], SortDescending(s[1..]))
  }

  /** A definition of `prioritizeAll`: drop non-positive priorities, then sort stably by descending priority. */
  function PrioritizeAll<T>(es: seq<Scored<T>>): seq<Scored<T>> {
    SortDescending(FilterPositive(es))
  }

  function Values<T>(s: seq<Scored<T>>): (r: seq<T>)
    ensures |r| == |s|
    ensures forall i :: 0 <= i < |s| ==> r[i] == s[i].value
  {
    if s == [] then [] else [s[0].value] + Values(s[1..])
  }

  // ----- facts about Keep -----

  lemma {:induction false} KeepNonEmpty<T>(s: seq<Scored<T>>, p: real)
    ensures Keep(s, p) != [] <==> exists i :: 0 <= i < |s| && s[i].priority == p
  {
    if s != [] {
      KeepNonEmpty(s[1..], p);
      if s[0].priority != p && exists i :: 0 <= i < |s| && s[i].priority == p {
        var i :| 0 <= i < |s| && s[i].priority == p;
        assert s[1..][i - 1].priority == p;
      }
    }
  }

  /** The first entry kept for `p` is the first entry of `s` with priority `p`. */
  lemma {:induction false} KeepHead<T>(s: seq<Scored<T>>, p: real) returns (k: nat)
    requires Keep(s, p) != []
    ensures k < |s| && s[k].priority == p && Keep(s, p)[0] == s[k]
    ensures forall j :: 0 <= j < k ==> s[j].priority != p
  {
    if s[0].priority == p {
      k := 0;
    } else {
      var k' := KeepHead(s[1..], p);
      k := k' + 1;
    }
  }

  lemma {:induction false} InKeep<T>(s: seq<Scored<T>>, e: Scored<T>)
    ensures e in s <==> e in Keep(s, e.priority)
  {
    if s != [] {
      InKeep(s[1..], e);
      assert s == [s[0]] + s[1..];
    }
  }

  lemma KeepAppendHead<T>(head: seq<Scored<T>>, rest: seq<Scored<T>>, p: real)
    requires |head| <= 1
    ensures Keep(head + rest, p) == Keep(head, p) + Keep(rest, p)
  {
    if head != [] {
      assert (head + rest)[1..] == rest;
      assert head[1..] == [];
      assert Keep(head, p) == (if head[0].priority == p then [head[0]] else []) + Keep(head[1..], p);
    } else {
      assert head + rest == rest;
    }
  }

  // ----- PrioritizeAll meets the assumed contract -----

  lemma {:induction false} KeepFilterPositive<T>(s: seq<Scored<T>>, p: real)
    ensures Keep(FilterPositive(s), p) == if p > 0.0 then Keep(s, p) else []
  {
    if s != [] {
      KeepFilterPositive(s[1..], p);
      var head := if s[0].priority > 0.0 then [s[0]] else [];
      KeepAppendHead(head, FilterPositive(s[1..]), p);
    }
  }

  lemma SortedTail<T>(t: seq<Scored<T>>)
    requires SortedDescending(t) && t != []
    ensures SortedDescending(t[1..])
  {
    forall i, j | 0 <= i < j < |t[1..]| ensures t[1..][i].priority >= t[1..][j].priority {
      assert t[1..][i] == t[i + 1] && t[1..][j] == t[j + 1];
    }
  }

  lemma {:induction false} InsertFrontPermutes<T>(x: Scored<T>, t: seq<Scored<T>>)
    ensures multiset(InsertFront(x, t)) == multiset(t) + multiset{x}
  {
    if !(t == [] || t[0].priority <= x.priority) {
      InsertFrontPermutes(x, t[1..]);
      assert t == [t[0]] + t[1..];
    }
  }

  lemma {:induction false} InsertFrontSorted<T>(x: Scored<T>, t: seq<Scored<T>>)
    requires SortedDescending(t)
    ensures SortedDescending(InsertFront(x, t))
  {
    if !(t == [] || t[0].priority <= x.priority) {
      var rest := InsertFront(x, t[1..]);
      SortedTail(t);
      InsertFrontSorted(x, t[1..]);
      InsertFrontPermutes(x, t[1..]);
      forall j | 0 <= j < |rest| ensures t[0].priority >= rest[j].priority {
        assert rest[j] in multiset(rest);
        if rest[j] != x {
          assert rest[j] in multiset(t[1..]);
          var m :| 0 <= m < |t[1..]| && t[1..][m] == rest[j];
          assert t[m + 1] == rest[j];
        }
      }
    }
  }

  lemma {:induction false} KeepInsertFront<T>(x: Scored<T>, t: seq<Scored<T>>, p: real)
    requires SortedDescending(t)
    ensures Keep(InsertFront(x, t), p) == if p == x.priority then [x] + Keep(t, p) else Keep(t, p)
  {
    if t == [] || t[0].priority <= x.priority {
      assert ([x] + t)[1..] == t;
      if p == x.priority && t != [] && t[0].priority != p {
        // every entry of t lies below x's priority, so none is kept
        forall i | 0 <= i < |t| ensures t[i].priority != p {
          assert i == 0 || t[0].priority >= t[i].priority;
        }
        KeepNonEmpty(t, p);
      }
    } else {
      SortedTail(t);
      KeepInsertFront(x, t[1..], p);
      assert ([t[0]] + InsertFront(x, t[1..]))[1..] == InsertFront(x, t[1..]);
    }
  }

  lemma {:induction false} SortDescendingSorted<T>(s: seq<Scored<T>>)
    ensures SortedDescending(SortDescending(s))
  {
    if s != [] {
      SortDescendingSorted(s[1..]);
      InsertFrontSorted(s[0], SortDescending(s[1..]));
    }
  }

  lemma {:induction false} SortDescendingPermutes<T>(s: seq<Scored<T>>)
    ensures multiset(SortDescending(s)) == multiset(s)
  {
    if s != [] {
      SortDescendingPermutes(s[1..]);
      InsertFrontPermutes(s[0], SortDescending(s[1..]));
      assert s == [s[0]] + s[1..];
    }
  }

  /** Sorting keeps, for each priority, the entries of that priority in their original order. */
  lemma {:induction false} KeepSortDescending<T>(s: seq<Scored<T>>, p: real)
    ensures Keep(SortDescending(s), p) == Keep(s, p)
  {
    if s != [] {
      KeepSortDescending(s[1..], p);
      SortDescendingSorted(s[1..]);
      KeepInsertFront(s[0], SortDescending(s[1..]), p);
    }
  }

  /** The definition meets the assumed contract, and is a permutation of the positive entries. */
  lemma PrioritizeAllIsStableDescending<T>(es: seq<Scored<T>>)
    ensures IsStableDescending(es, PrioritizeAll(es))
    ensures multiset(PrioritizeAll(es)) == multiset(FilterPositive(es))
  {
    SortDescendingSorted(FilterPositive(es));
    SortDescendingPermutes(FilterPositive(es));
    forall p ensures Keep(PrioritizeAll(es), p) == if p > 0.0 then Keep(es, p) else [] {
      KeepSortDescending(FilterPositive(es), p);
      KeepFilterPositive(es, p);
    }
  }

  // ----- consequences of the assumed contract -----

  /** The contract leaves no freedom: two results that meet it are equal. */
  lemma {:induction false} StableDescendingUnique<T>(es: seq<Scored<T>>, t: seq<Scored<T>>, u: seq<Scored<T>>)
    requires IsStableDescending(es, t) && IsStableDescending(es, u)
    ensures t == u
  {
    SortedSameKeepsEqual(t, u);
  }

  lemma {:induction false} SortedSameKeepsEqual<T>(t: seq<Scored<T>>, u: seq<Scored<T>>)
    requires SortedDescending(t) && SortedDescending(u)
    requires forall p :: Keep(t, p) == Keep(u, p)
    ensures t == u
    decreases |t|
  {
    if t == [] || u == [] {
      if t != [] {
        KeepNonEmpty(t, t[0].priority);
        KeepNonEmpty(u, t[0].priority);
      } else if u != [] {
        KeepNonEmpty(u, u[0].priority);
        KeepNonEmpty(t, u[0].priority);
      }
    } else {
      var a, b := t[0], u[0];
      KeepNonEmpty(t, a.priority);
      KeepNonEmpty(u, a.priority);
      KeepNonEmpty(t, b.priority);
      KeepNonEmpty(u, b.priority);
      assert a.priority == b.priority;
      assert Keep(t, a.priority) == [a] + Keep(t[1..], a.priority);
      assert Keep(u, a.priority) == [b] + Keep(u[1..], a.priority);
      assert a == b by {
        assert Keep(t, a.priority)[0] == a;
        assert Keep(u, a.priority)[0] == b;
      }
      SortedTail(t);
      SortedTail(u);
      forall p ensures Keep(t[1..], p) == Keep(u[1..], p) {
        assert Keep(t, p) == Keep(u, p);
        if a.priority == p {
          assert Keep(t, p) == [a] + Keep(t[1..], p);
          assert Keep(u, p) == [a] + Keep(u[1..], p);
          assert Keep(t, p)[1..] == Keep(t[1..], p);
          assert Keep(u, p)[1..] == Keep(u[1..], p);
        } else {
          assert Keep(t, p) == [] + Keep(t[1..], p) == Keep(t[1..], p);
          assert Keep(u, p) == [] + Keep(u[1..], p) == Keep(u[1..], p);
        }
      }
      SortedSameKeepsEqual(t[1..], u[1..]);
      assert t == [a] + t[1..] && u == [b] + u[1..];
    }
  }

  /** The result holds exactly the entries of `es` with a positive priority. */
  lemma StableDescendingMembers<T>(es: seq<Scored<T>>, t: seq<Scored<T>>, e: Scored<T>)
    requires IsStableDescending(es, t)
    ensures e in t <==> e in es && e.priority > 0.0
  {
    InKeep(t, e);
    InKeep(es, e);
    assert Keep(t, e.priority) == if e.priority > 0.0 then Keep(es, e.priority) else [];
  }

  /** The result is empty exactly when no entry has a positive priority. */
  lemma StableDescendingEmpty<T>(es: seq<Scored<T>>, t: seq<Scored<T>>)
    requires IsStableDescending(es, t)
    ensures t == [] <==> forall j :: 0 <= j < |es| ==> es[j].priority <= 0.0
  {
    if t != [] {
      StableDescendingMembers(es, t, t[0]);
      var j :| 0 <= j < |es| && es[j] == t[0];
    }
    if exists j :: 0 <= j < |es| && es[j].priority > 0.0 {
      var j :| 0 <= j < |es| && es[j].priority > 0.0;
      StableDescendingMembers(es, t, es[j]);
    }
  }

  /** The head of the result is the entry at the first position of highest positive priority. */
  lemma StableDescendingHead<T>(es: seq<Scored<T>>, t: seq<Scored<T>>) returns (k: nat)
    requires IsStableDescending(es, t)
    requires t != []
    ensures IsFirstBest(es, k) && t[0] == es[k]
  {
    var h := t[0];
    KeepNonEmpty(t, h.priority);
    assert Keep(t, h.priority) != [];
    assert h.priority > 0.0;
    assert Keep(t, h.priority)[0] == h;
    k := KeepHead(es, h.priority);
    forall j | 0 <= j < |es| ensures es[j].priority <= h.priority {
      if es[j].priority > 0.0 {
        StableDescendingMembers(es, t, es[j]);
        var m :| 0 <= m < |t| && t[m] == es[j];
        assert m == 0 || t[0].priority >= t[m].priority;
      }
    }
  }
}
