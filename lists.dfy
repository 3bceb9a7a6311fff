/** Optional values and results of calls into the hosted backend. */
module Optional {

  datatype Option<T> = None | Some(value: T)

  /** The outcome of an awaited service call: the record it resolved to, or the
      message of the error it threw. */
  datatype Result<T> = Ok(value: T) | Failed(message: string)
}

/** The array operations the pages apply to fetched record lists:
    `Array.prototype.filter`, `map` that replaces by id, and the stable
    `Array.prototype.sort`. */
module Lists {

  /** `s.filter(p)` */
  function Filter<T>(s: seq<T>, p: T -> bool): (r: seq<T>)
    ensures |r| <= |s|
  {
    if s == [] then [] else if p(s[0]) then [s[0]] + Filter(s[1..], p) else Filter(s[1..], p)
  }

  /** The output of a filter holds exactly the input elements the predicate
      accepts. */
  lemma {:induction false} FilterMembers<T>(s: seq<T>, p: T -> bool)
    ensures forall i :: 0 <= i < |Filter(s, p)| ==> Filter(s, p)[i] in s && p(Filter(s, p)[i])
    ensures forall i :: 0 <= i < |s| && p(s[i]) ==> s[i] in Filter(s, p)
  {
    if s != [] {
      FilterMembers(s[1..], p);
      var r := Filter(s, p);
      forall i | 0 <= i < |r| ensures r[i] in s && p(r[i]) {
        if p(s[0]) && i > 0 {
          assert r[i] == Filter(s[1..], p)[i - 1];
          assert Filter(s[1..], p)[i - 1] in s[1..];
        } else if !p(s[0]) {
          assert r[i] == Filter(s[1..], p)[i];
          assert Filter(s[1..], p)[i] in s[1..];
        }
      }
      forall i | 0 <= i < |s| && p(s[i]) ensures s[i] in r {
        if i > 0 {
          assert s[i] == s[1..][i - 1];
        }
      }
    }
  }

  /** a is obtained from b by deleting elements, keeping the order of the rest. */
  predicate IsSubsequence<T(==)>(a: seq<T>, b: seq<T>)
    decreases |b|
  {
    if b == [] then a == []
    else (a != [] && a[0] == b[0] && IsSubsequence(a[1..], b[1..])) || IsSubsequence(a, b[1..])
  }

  lemma {:induction false} IsSubsequenceRefl<T>(s: seq<T>)
    ensures IsSubsequence(s, s)
  {
    if s != [] {
      IsSubsequenceRefl(s[1..]);
    }
  }

  /** The output of a filter keeps a subset of the input in input order. */
  lemma {:induction false} FilterIsSubsequence<T>(s: seq<T>, p: T -> bool)
    ensures IsSubsequence(Filter(s, p), s)
  {
    if s != [] {
      FilterIsSubsequence(s[1..], p);
    }
  }

  /** A filter keeps every copy of an element the predicate accepts and no
      copy of any other, so with FilterIsSubsequence it fixes the output. */
  lemma {:induction false} FilterMultiplicity<T>(s: seq<T>, p: T -> bool)
    ensures forall x :: multiset(Filter(s, p))[x] == if p(x) then multiset(s)[x] else 0
  {
    if s != [] {
      FilterMultiplicity(s[1..], p);
      assert s == [s[0]] + s[1..];
    }
  }

  /** Filtering with a predicate every element satisfies returns the input. */
  lemma {:induction false} FilterAll<T>(s: seq<T>, p: T -> bool)
    requires forall x :: x in s ==> p(x)
    ensures Filter(s, p) == s
  {
    if s != [] {
      FilterAll(s[1..], p);
    }
  }

  /** Two predicates that agree on the elements give the same filter. */
  lemma {:induction false} FilterExt<T>(s: seq<T>, p: T -> bool, q: T -> bool)
    requires forall x :: x in s ==> p(x) == q(x)
    ensures Filter(s, p) == Filter(s, q)
  {
    if s != [] {
      FilterExt(s[1..], p, q);
    }
  }

  /** Two filters in a row are one filter by the conjunction. */
  lemma {:induction false} FilterFilter<T>(s: seq<T>, p: T -> bool, q: T -> bool, both: T -> bool)
    requires forall x :: x in s ==> both(x) == (p(x) && q(x))
    ensures Filter(Filter(s, p), q) == Filter(s, both)
  {
    if s != [] {
      FilterFilter(s[1..], p, q, both);
    }
  }

  /** The order in which two filters are applied does not matter. */
  lemma FilterCommute<T>(s: seq<T>, p: T -> bool, q: T -> bool)
    ensures Filter(Filter(s, p), q) == Filter(Filter(s, q), p)
  {
    var both := x => p(x) && q(x);
    FilterFilter(s, p, q, both);
    FilterFilter(s, q, p, both);
  }

  /** Filtering again by the same predicate changes nothing. */
  lemma FilterIdempotent<T>(s: seq<T>, p: T -> bool)
    ensures Filter(Filter(s, p), p) == Filter(s, p)
  {
    FilterMembers(s, p);
    FilterAll(Filter(s, p), p);
  }

  /** Filter distributes over concatenation. */
  lemma {:induction false} FilterAppend<T>(a: seq<T>, b: seq<T>, p: T -> bool)
    ensures Filter(a + b, p) == Filter(a, p) + Filter(b, p)
  {
    if a == [] {
      assert a + b == b;
    } else {
      assert (a + b)[0] == a[0];
      assert (a + b)[1..] == a[1..] + b;
      FilterAppend(a[1..], b, p);
      if p(a[0]) {
        calc {
          Filter(a + b, p);
          [a[0]] + Filter(a[1..] + b, p);
          [a[0]] + (Filter(a[1..], p) + Filter(b, p));
          ([a[0]] + Filter(a[1..], p)) + Filter(b, p);
        }
      }
    }
  }

  /** Filtering out everything yields the empty list. */
  lemma {:induction false} FilterNone<T>(s: seq<T>, p: T -> bool)
    requires forall x :: x in s ==> !p(x)
    ensures Filter(s, p) == []
  {
    if s != [] {
      FilterNone(s[1..], p);
    }
  }

  /** `s.filter(x => x.Id !== id)`: every record with that id goes, every other
      record stays, in order. */
  function RemoveById<T>(s: seq<T>, idOf: T -> int, id: int): (r: seq<T>)
    ensures forall i :: 0 <= i < |r| ==> r[i] in s && idOf(r[i]) != id
    ensures forall i :: 0 <= i < |s| && idOf(s[i]) != id ==> s[i] in r
    ensures |r| <= |s|
  {
    var keep := x => idOf(x) != id;
    FilterMembers(s, keep);
    Filter(s, keep)
  }

  /** Removing an id twice is removing it once, and removing an id that no
      record has returns the list unchanged. */
  lemma RemoveByIdIdempotent<T>(s: seq<T>, idOf: T -> int, id: int)
    ensures RemoveById(RemoveById(s, idOf, id), idOf, id) == RemoveById(s, idOf, id)
    ensures (forall x :: x in s ==> idOf(x) != id) ==> RemoveById(s, idOf, id) == s
    ensures IsSubsequence(RemoveById(s, idOf, id), s)
  {
    FilterIdempotent(s, x => idOf(x) != id);
    FilterIsSubsequence(s, x => idOf(x) != id);
    if forall x :: x in s ==> idOf(x) != id {
      FilterAll(s, x => idOf(x) != id);
    }
  }

  /** `s.map(x => x.Id === updated.Id ? updated : x)`: every record with the
      updated record's id is replaced by it, every other record and the length
      stay. */
  function ReplaceById<T>(s: seq<T>, idOf: T -> int, updated: T): (r: seq<T>)
    ensures |r| == |s|
    ensures forall i :: 0 <= i < |s| ==> r[i] == if idOf(s[i]) == idOf(updated) then updated else s[i]
  {
    if s == [] then []
    else [if idOf(s[0]) == idOf(updated) then updated else s[0]] + ReplaceById(s[1..], idOf, updated)
  }

  /** Replacing by an id that no record carries changes nothing. */
  lemma ReplaceUnknownId<T>(s: seq<T>, idOf: T -> int, updated: T)
    requires forall x :: x in s ==> idOf(x) != idOf(updated)
    ensures ReplaceById(s, idOf, updated) == s
  {
    var r := ReplaceById(s, idOf, updated);
    forall i | 0 <= i < |s| ensures r[i] == s[i] {
      assert s[i] in s;
    }
  }

  /** `s.reduce((sum, x) => sum + val(x), 0)` */
  function Sum<T>(s: seq<T>, val: T -> int): int {
    if s == [] then 0 else val(s[0]) + Sum(s[1..], val)
  }

  lemma {:induction false} SumAppend<T>(a: seq<T>, b: seq<T>, val: T -> int)
    ensures Sum(a + b, val) == Sum(a, val) + Sum(b, val)
  {
    if a == [] {
      assert a + b == b;
    } else {
      assert (a + b)[0] == a[0];
      assert (a + b)[1..] == a[1..] + b;
      SumAppend(a[1..], b, val);
    }
  }

  /** Sums of non-negative values are non-negative. */
  lemma {:induction false} SumNonNegative<T>(s: seq<T>, val: T -> int)
    requires forall x :: x in s ==> val(x) >= 0
    ensures Sum(s, val) >= 0
  {
    if s != [] {
      SumNonNegative(s[1..], val);
    }
  }

  /** The value of the elements p keeps, 0 for the others. */
  function Masked<T>(p: T -> bool, val: T -> int): T -> int {
    x => if p(x) then val(x) else 0
  }

  /** Summing over a filter is summing the masked value over the whole list. */
  lemma {:induction false} SumFilter<T>(s: seq<T>, p: T -> bool, val: T -> int)
    ensures Sum(Filter(s, p), val) == Sum(s, Masked(p, val))
  {
    if s != [] {
      SumFilter(s[1..], p, val);
      if p(s[0]) {
        assert ([s[0]] + Filter(s[1..], p))[1..] == Filter(s[1..], p);
      }
    }
  }

  function One<T>(): T -> int {
    x => 1
  }

  /** Counting is summing ones. */
  lemma {:induction false} SumOfOnes<T>(s: seq<T>)
    ensures Sum(s, One()) == |s|
  {
    if s != [] {
      SumOfOnes(s[1..]);
    }
  }

  // ---------------------------------------------------------------------------
  // Stable sorting by a comparator, as `[...s].sort(cmp)` does: section
  // 23.1.3.30 of ECMA-262 (2023) requires the sort to be stable, and a
  // comparator result of NaN counts as +0. The model sorts by insertion.

  /** k inserted after the last element that does not compare greater than it. */
  function Insert<T>(t: seq<T>, k: T, cmp: (T, T) -> int): (r: seq<T>)
    ensures multiset(r) == multiset(t) + multiset{k}
    ensures |r| == |t| + 1
  {
    if t == [] then [k]
    else if cmp(t[|t| - 1], k) <= 0 then t + [k]
    else
      assert t == t[..|t| - 1] + [t[|t| - 1]];
      Insert(t[..|t| - 1], k, cmp) + [t[|t| - 1]]
  }

  /** The sorted copy: a permutation of s (see the contract). */
  function SortBy<T>(s: seq<T>, cmp: (T, T) -> int): (r: seq<T>)
    ensures multiset(r) == multiset(s)
    ensures |r| == |s|
  {
    if s == [] then []
    else
      assert s == s[..|s| - 1] + [s[|s| - 1]];
      Insert(SortBy(s[..|s| - 1], cmp), s[|s| - 1], cmp)
  }

  /** The comparator behaves as a total preorder on the elements of `dom`:
      swapping its arguments flips the sign of the result, and "not greater" is
      transitive. ECMA-262 calls such a comparator consistent. */
  ghost predicate ConsistentOn<T>(cmp: (T, T) -> int, dom: seq<T>) {
    (forall a, b :: a in dom && b in dom ==>
       (cmp(a, b) < 0 <==> cmp(b, a) > 0) && (cmp(a, b) == 0 <==> cmp(b, a) == 0)) &&
    (forall a, b, c {:trigger cmp(a, b), cmp(b, c), cmp(a, c)} ::
       a in dom && b in dom && c in dom && cmp(a, b) <= 0 && cmp(b, c) <= 0 ==> cmp(a, c) <= 0)
  }

  ghost predicate Within<T>(t: seq<T>, dom: seq<T>) {
    forall i :: 0 <= i < |t| ==> t[i] in dom
  }

  ghost predicate SortedBy<T>(s: seq<T>, cmp: (T, T) -> int) {
    forall i, j :: 0 <= i < j < |s| ==> cmp(s[i], s[j]) <= 0
  }

  ghost predicate AllNotAbove<T>(t: seq<T>, last: T, cmp: (T, T) -> int) {
    forall i :: 0 <= i < |t| ==> cmp(t[i], last) <= 0
  }

  lemma {:induction false} InsertNotAbove<T>(t: seq<T>, k: T, last: T, cmp: (T, T) -> int)
    requires AllNotAbove(t, last, cmp) && cmp(k, last) <= 0
    ensures AllNotAbove(Insert(t, k, cmp), last, cmp)
  {
    if t != [] && cmp(t[|t| - 1], k) > 0 {
      InsertNotAbove(t[..|t| - 1], k, last, cmp);
    }
  }

  lemma InsertWithin<T>(t: seq<T>, k: T, cmp: (T, T) -> int, dom: seq<T>)
    requires Within(t, dom) && k in dom
    ensures Within(Insert(t, k, cmp), dom)
  {
    var r := Insert(t, k, cmp);
    forall i | 0 <= i < |r| ensures r[i] in dom {
      assert r[i] in multiset(r);
    }
  }

  lemma {:induction false} InsertSorted<T>(t: seq<T>, k: T, cmp: (T, T) -> int, dom: seq<T>)
    requires SortedBy(t, cmp) && Within(t, dom) && k in dom
    requires ConsistentOn(cmp, dom)
    ensures SortedBy(Insert(t, k, cmp), cmp)
  {
    if t != [] {
      var init, last := t[..|t| - 1], t[|t| - 1];
      assert last in dom;
      if cmp(last, k) > 0 {
        InsertSorted(init, k, cmp, dom);
        assert AllNotAbove(init, last, cmp);
        assert cmp(k, last) < 0;
        InsertNotAbove(init, k, last, cmp);
      } else {
        forall i | 0 <= i < |t| ensures cmp(t[i], k) <= 0 {
          assert t[i] in dom;
        }
      }
    }
  }

  /** When the comparator is consistent on the input, the sorted copy is in
      order. */
  lemma SortBySorted<T>(s: seq<T>, cmp: (T, T) -> int)
    requires ConsistentOn(cmp, s)
    ensures SortedBy(SortBy(s, cmp), cmp)
  {
    SortBySortedWithin(s, cmp, s);
  }

  lemma {:induction false} SortBySortedWithin<T>(s: seq<T>, cmp: (T, T) -> int, dom: seq<T>)
    requires ConsistentOn(cmp, dom) && Within(s, dom)
    ensures SortedBy(SortBy(s, cmp), cmp) && Within(SortBy(s, cmp), dom)
  {
    if s != [] {
      var init, last := s[..|s| - 1], s[|s| - 1];
      SortBySortedWithin(init, cmp, dom);
      InsertSorted(SortBy(init, cmp), last, cmp, dom);
      InsertWithin(SortBy(init, cmp), last, cmp, dom);
    }
  }

  /** The elements equivalent to x under the comparator, in order. */
  function TiedWith<T>(s: seq<T>, x: T, cmp: (T, T) -> int): seq<T> {
    if s == [] then []
    else (if cmp(s[0], x) == 0 then [s[0]] else []) + TiedWith(s[1..], x, cmp)
  }

  lemma {:induction false} TiedAppend<T>(a: seq<T>, b: seq<T>, x: T, cmp: (T, T) -> int)
    ensures TiedWith(a + b, x, cmp) == TiedWith(a, x, cmp) + TiedWith(b, x, cmp)
  {
    if a == [] {
      assert a + b == b;
    } else {
      assert (a + b)[0] == a[0];
      assert (a + b)[1..] == a[1..] + b;
      TiedAppend(a[1..], b, x, cmp);
      var h := if cmp(a[0], x) == 0 then [a[0]] else [];
      assert TiedWith(a + b, x, cmp) == h + TiedWith(a[1..] + b, x, cmp);
      assert TiedWith(a, x, cmp) == h + TiedWith(a[1..], x, cmp);
    }
  }

  /** Two neighbours the insertion swaps never both tie with x. */
  lemma SwapTied<T>(last: T, k: T, x: T, cmp: (T, T) -> int, dom: seq<T>)
    requires ConsistentOn(cmp, dom) && last in dom && k in dom && x in dom
    requires cmp(last, k) > 0
    ensures TiedWith([k], x, cmp) + TiedWith([last], x, cmp)
         == TiedWith([last], x, cmp) + TiedWith([k], x, cmp)
  {
    if cmp(k, x) == 0 {
      assert cmp(x, k) == 0;
      assert cmp(last, x) > 0;
    }
  }

  /** The sequence algebra of one insertion step, kept apart from the
      comparator's properties. */
  lemma TiedStep<T>(u: seq<T>, init: seq<T>, last: T, k: T, x: T, cmp: (T, T) -> int)
    requires TiedWith(u, x, cmp) == TiedWith(init + [k], x, cmp)
    requires TiedWith([k], x, cmp) + TiedWith([last], x, cmp)
          == TiedWith([last], x, cmp) + TiedWith([k], x, cmp)
    ensures TiedWith(u + [last], x, cmp) == TiedWith(init + [last] + [k], x, cmp)
  {
    TiedAppend(u, [last], x, cmp);
    TiedAppend(init, [k], x, cmp);
    TiedAppend(init, [last], x, cmp);
    TiedAppend(init + [last], [k], x, cmp);
    var ti, tk, tl := TiedWith(init, x, cmp), TiedWith([k], x, cmp), TiedWith([last], x, cmp);
    calc {
      TiedWith(u + [last], x, cmp);
      ti + tk + tl;
      ti + (tk + tl);
      ti + (tl + tk);
      ti + tl + tk;
      TiedWith(init + [last] + [k], x, cmp);
    }
  }

  lemma {:induction false} InsertStable<T>(t: seq<T>, k: T, x: T, cmp: (T, T) -> int, dom: seq<T>)
    requires SortedBy(t, cmp) && Within(t, dom) && k in dom && x in dom
    requires ConsistentOn(cmp, dom)
    ensures TiedWith(Insert(t, k, cmp), x, cmp) == TiedWith(t + [k], x, cmp)
  {
    if t != [] && cmp(t[|t| - 1], k) > 0 {
      var init, last := t[..|t| - 1], t[|t| - 1];
      assert t == init + [last];
      assert last in dom;
      InsertStable(init, k, x, cmp, dom);
      SwapTied(last, k, x, cmp, dom);
      TiedStep(Insert(init, k, cmp), init, last, k, x, cmp);
    }
  }

  /** Stability: the elements that tie with any element x of the input come
      out in input order. */
  lemma SortByStable<T>(s: seq<T>, x: T, cmp: (T, T) -> int)
    requires ConsistentOn(cmp, s) && x in s
    ensures TiedWith(SortBy(s, cmp), x, cmp) == TiedWith(s, x, cmp)
  {
    SortByStableWithin(s, x, cmp, s);
  }

  lemma {:induction false} SortByStableWithin<T>(s: seq<T>, x: T, cmp: (T, T) -> int, dom: seq<T>)
    requires ConsistentOn(cmp, dom) && Within(s, dom) && x in dom
    ensures TiedWith(SortBy(s, cmp), x, cmp) == TiedWith(s, x, cmp)
  {
    if s != [] {
      var init, last := s[..|s| - 1], s[|s| - 1];
      assert s == init + [last];
      SortByStableWithin(init, x, cmp, dom);
      SortBySortedWithin(init, cmp, dom);
      var t := SortBy(init, cmp);
      InsertStable(t, last, x, cmp, dom);
      TiedAppend(t, [last], x, cmp);
      TiedAppend(init, [last], x, cmp);
    }
  }
}
