/**
 * The list operations the storage layer and the dashboards are built from:
 * JavaScript's `find`, `findIndex`, `filter` and `map`, the replace-first-by-id
 * step of `updateInStorage`, the filter of `removeFromStorage`, and the
 * `forEach` of updates used by the repair routines.
 */
module Lists {
  import opened Wrappers

  /** `findIndex`: the first position satisfying `p`. */
  function FindIndex<T>(s: seq<T>, p: T -> bool): (r: Option<nat>)
    ensures r.Some? ==> r.value < |s| && p(s[r.value])
    ensures r.Some? ==> forall j :: 0 <= j < r.value ==> !p(s[j])
    ensures r.None? <==> forall j :: 0 <= j < |s| ==> !p(s[j])
  {
    if |s| == 0 then None
    else if p(s[0]) then Some(0)
    else match FindIndex(s[1..], p)
      case None => None
      case Some(i) => Some(i + 1)
  }

  /** `find`: the first element satisfying `p`. */
  function Find<T>(s: seq<T>, p: T -> bool): (r: Option<T>)
    ensures r.Some? <==> exists j :: 0 <= j < |s| && p(s[j])
    ensures r.Some? ==> r.value in s && p(r.value)
    ensures r.Some? ==> exists i :: 0 <= i < |s| && s[i] == r.value && forall j :: 0 <= j < i ==> !p(s[j])
  {
    match FindIndex(s, p)
    case None => None
    case Some(i) => Some(s[i])
  }

  /** `filter`: the elements satisfying `p`, in their original order. */
  function Filter<T>(s: seq<T>, p: T -> bool): (r: seq<T>)
    ensures |r| <= |s|
    ensures forall i :: 0 <= i < |r| ==> r[i] in s && p(r[i])
    ensures forall i :: 0 <= i < |s| && p(s[i]) ==> s[i] in r
  {
    if |s| == 0 then [] else (if p(s[0]) then [s[0]] else []) + Filter(s[1..], p)
  }

  /** The number of elements satisfying `p` (`filter(...).length`). */
  function Count<T>(s: seq<T>, p: T -> bool): nat
  {
    |Filter(s, p)|
  }

  /** `map` over a sequence. */
  function MapSeq<A, B>(s: seq<A>, f: A -> B): (r: seq<B>)
    ensures |r| == |s|
    ensures forall i :: 0 <= i < |s| ==> r[i] == f(s[i])
  {
    seq(|s|, i requires 0 <= i < |s| => f(s[i]))
  }

  /** Apply `f` to exactly the elements satisfying `p`, keeping every position. */
  function MapWhere<T>(s: seq<T>, p: T -> bool, f: T -> T): (r: seq<T>)
    ensures |r| == |s|
    ensures forall i :: 0 <= i < |s| ==> r[i] == if p(s[i]) then f(s[i]) else s[i]
  {
    MapSeq(s, x => if p(x) then f(x) else x)
  }

  /** The elements `f` maps to a value, with those values, in order. */
  function Select<R, T>(rs: seq<R>, f: R -> Option<T>): seq<T>
  {
    if |rs| == 0 then []
    else (match f(rs[0]) case Some(x) => [x] case None => []) + Select(rs[1..], f)
  }

  /** No two positions carry the same id. */
  ghost predicate UniqueIds<T>(s: seq<T>, idOf: T -> string)
  {
    forall i, j :: 0 <= i < j < |s| ==> idOf(s[i]) != idOf(s[j])
  }

  function SameId<T>(idOf: T -> string, id: string): T -> bool
  {
    x => idOf(x) == id
  }

  function OtherId<T>(idOf: T -> string, id: string): T -> bool
  {
    x => idOf(x) != id
  }

  /**
   * `updateInStorage`'s list step: the first element whose id equals the
   * item's id is replaced by the item; without such an element the list is
   * returned as it was.
   */
  function UpdateById<T>(s: seq<T>, idOf: T -> string, item: T): (r: seq<T>)
    ensures |r| == |s|
    ensures (forall j :: 0 <= j < |s| ==> idOf(s[j]) != idOf(item)) ==> r == s
    ensures forall i :: (0 <= i < |s| && idOf(s[i]) == idOf(item) &&
                         (forall j :: 0 <= j < i ==> idOf(s[j]) != idOf(item))) ==> r == s[i := item]
    ensures forall x :: x in r ==> x in s || x == item
  {
    match FindIndex(s, SameId(idOf, idOf(item)))
    case None => s
    case Some(i) => s[i := item]
  }

  /** `removeFromStorage`'s list step: every element with the id goes, the rest keep their order. */
  function RemoveById<T>(s: seq<T>, idOf: T -> string, id: string): (r: seq<T>)
    ensures forall i :: 0 <= i < |r| ==> r[i] in s && idOf(r[i]) != id
    ensures forall i :: 0 <= i < |s| && idOf(s[i]) != id ==> s[i] in r
  {
    Filter(s, OtherId(idOf, id))
  }

  /** A `forEach` that calls `updateInStorage` with each item in turn. */
  function ApplyUpdates<T>(s: seq<T>, idOf: T -> string, items: seq<T>): (r: seq<T>)
    ensures |r| == |s|
    decreases |items|
  {
    if |items| == 0 then s
    else UpdateById(ApplyUpdates(s, idOf, items[..|items| - 1]), idOf, items[|items| - 1])
  }

  // ---------------------------------------------------------------------------
  // Filter and Count

  lemma {:induction false} FilterConcat<T>(a: seq<T>, b: seq<T>, p: T -> bool)
    ensures Filter(a + b, p) == Filter(a, p) + Filter(b, p)
  {
    if |a| == 0 {
      assert a + b == b;
    } else {
      assert (a + b)[1..] == a[1..] + b;
      FilterConcat(a[1..], b, p);
    }
  }

  /** Filtering keeps the elements that pass in their original order: the last element is kept at the end. */
  lemma FilterSnoc<T>(s: seq<T>, x: T, p: T -> bool)
    ensures Filter(s + [x], p) == Filter(s, p) + (if p(x) then [x] else [])
  {
    FilterConcat(s, [x], p);
    assert [x][1..] == [];
  }

  /**
   * Removal works element by element and keeps order: it distributes over
   * concatenation, keeps a list without the id as it is, and empties a list of
   * records that all carry it.
   */
  lemma RemoveByIdOrder<T>(a: seq<T>, b: seq<T>, idOf: T -> string, id: string)
    ensures RemoveById(a + b, idOf, id) == RemoveById(a, idOf, id) + RemoveById(b, idOf, id)
    ensures (forall j :: 0 <= j < |a| ==> idOf(a[j]) != id) ==> RemoveById(a, idOf, id) == a
    ensures (forall j :: 0 <= j < |a| ==> idOf(a[j]) == id) ==> RemoveById(a, idOf, id) == []
  {
    FilterConcat(a, b, OtherId(idOf, id));
    FilterIdentity(a, OtherId(idOf, id));
    FilterEmpty(a, OtherId(idOf, id));
  }

  /** Filtering keeps ids distinct. */
  lemma {:induction false} FilterKeepsUniqueIds<T>(s: seq<T>, idOf: T -> string, p: T -> bool)
    requires UniqueIds(s, idOf)
    ensures UniqueIds(Filter(s, p), idOf)
  {
    if |s| > 0 {
      var rest := s[1..];
      assert UniqueIds(rest, idOf) by {
        forall i, j | 0 <= i < j < |rest| ensures idOf(rest[i]) != idOf(rest[j]) {
          assert rest[i] == s[i + 1] && rest[j] == s[j + 1];
        }
      }
      FilterKeepsUniqueIds(rest, idOf, p);
      var tail := Filter(rest, p);
      forall k | 0 <= k < |tail| ensures idOf(tail[k]) != idOf(s[0]) {
        var m :| 0 <= m < |rest| && rest[m] == tail[k];
        assert s[m + 1] == tail[k];
      }
      var r := Filter(s, p);
      if p(s[0]) {
        assert r == [s[0]] + tail;
        forall i, j | 0 <= i < j < |r| ensures idOf(r[i]) != idOf(r[j]) {
          assert r[j] == tail[j - 1];
          if i > 0 {
            assert r[i] == tail[i - 1];
          }
        }
      } else {
        assert r == tail;
      }
    }
  }

  /** Membership in a filter, in both directions. */
  lemma FilterMembership<T>(s: seq<T>, p: T -> bool, x: T)
    ensures x in Filter(s, p) <==> x in s && p(x)
  {
    if x in s && p(x) {
      var i :| 0 <= i < |s| && s[i] == x;
    }
  }

  /** A filter is empty exactly when no element passes. */
  lemma {:induction false} FilterEmpty<T>(s: seq<T>, p: T -> bool)
    ensures Filter(s, p) == [] <==> forall j :: 0 <= j < |s| ==> !p(s[j])
  {
    if |s| > 0 {
      FilterEmpty(s[1..], p);
      assert forall j :: 1 <= j < |s| ==> s[j] == s[1..][j - 1];
    }
  }

  /** Overwriting the first match with another match keeps it the first match. */
  lemma FindIndexAfterWrite<T>(s: seq<T>, p: T -> bool, i: nat, x: T)
    requires FindIndex(s, p) == Some(i) && p(x)
    ensures FindIndex(s[i := x], p) == Some(i)
  {
    var t := s[i := x];
    assert forall j :: 0 <= j < i ==> t[j] == s[j] && !p(t[j]);
    assert p(t[i]);
  }

  /** Writing an item whose id the first match at `i` carries replaces exactly position `i`. */
  lemma UpdateAtFirst<T>(s: seq<T>, idOf: T -> string, id: string, i: nat, item: T)
    requires FindIndex(s, SameId(idOf, id)) == Some(i) && idOf(item) == id
    ensures UpdateById(s, idOf, item) == s[i := item]
  {
    assert SameId(idOf, idOf(item)) == SameId(idOf, id);
  }

  /**
   * With unique ids, writing back an element found by any predicate replaces
   * exactly that element, provided the written item keeps its id.
   */
  lemma UpdateFound<T>(s: seq<T>, idOf: T -> string, p: T -> bool, i: nat, item: T)
    requires UniqueIds(s, idOf)
    requires FindIndex(s, p) == Some(i) && idOf(item) == idOf(s[i])
    ensures UpdateById(s, idOf, item) == s[i := item]
  {
    assert forall j :: 0 <= j < i ==> idOf(s[j]) != idOf(item);
  }

  /** A filter drops nothing exactly when every element passes. */
  lemma {:induction false} FilterIdentity<T>(s: seq<T>, p: T -> bool)
    ensures Filter(s, p) == s <==> forall x :: x in s ==> p(x)
  {
    if |s| > 0 {
      FilterIdentity(s[1..], p);
      assert s == [s[0]] + s[1..];
      if !p(s[0]) {
        assert |Filter(s, p)| < |s|;
      }
    }
  }

  /** When `r` is `p` or `q` and the two never hold together, their counts add up. */
  lemma {:induction false} CountDisjointUnion<T>(s: seq<T>, p: T -> bool, q: T -> bool, r: T -> bool)
    requires forall x :: r(x) == (p(x) || q(x))
    requires forall x :: !(p(x) && q(x))
    ensures Count(s, r) == Count(s, p) + Count(s, q)
  {
    if |s| > 0 {
      CountDisjointUnion(s[1..], p, q, r);
    }
  }

  /** Counting with a weaker predicate never gives less. */
  lemma {:induction false} CountMonotone<T>(s: seq<T>, p: T -> bool, q: T -> bool)
    requires forall x :: p(x) ==> q(x)
    ensures Count(s, p) <= Count(s, q)
  {
    if |s| > 0 {
      CountMonotone(s[1..], p, q);
    }
  }

  /** Replacing an element by one that agrees on `p` keeps the count. */
  lemma {:induction false} CountReplace<T>(s: seq<T>, i: nat, x: T, p: T -> bool)
    requires i < |s| && p(s[i]) == p(x)
    ensures Count(s[i := x], p) == Count(s, p)
  {
    if i > 0 {
      CountReplace(s[1..], i - 1, x, p);
      assert s[i := x][1..] == s[1..][i - 1 := x];
    } else {
      assert s[i := x][1..] == s[1..];
    }
  }

  // ---------------------------------------------------------------------------
  // Find

  /** `find` returns exactly the element at `findIndex`. */
  lemma FindAtIndex<T>(s: seq<T>, p: T -> bool)
    ensures FindIndex(s, p).Some? ==> Find(s, p) == Some(s[FindIndex(s, p).value])
    ensures FindIndex(s, p).None? ==> Find(s, p).None?
  {
  }

  // ---------------------------------------------------------------------------
  // UpdateById and ApplyUpdates

  /** An update whose id differs from the last element acts on the part before it. */
  lemma UpdateByIdSnoc<T>(s: seq<T>, x: T, idOf: T -> string, item: T)
    requires idOf(x) != idOf(item)
    ensures UpdateById(s + [x], idOf, item) == UpdateById(s, idOf, item) + [x]
  {
    var t := s + [x];
    if i :| 0 <= i < |s| && idOf(s[i]) == idOf(item) {
      var k := FindIndex(s, SameId(idOf, idOf(item))).value;
      assert t[k] == s[k];
      assert forall j :: 0 <= j < k ==> t[j] == s[j];
      assert t[k := item] == s[k := item] + [x];
    } else {
      assert forall j :: 0 <= j < |t| ==> idOf(t[j]) != idOf(item) by {
        forall j | 0 <= j < |t| ensures idOf(t[j]) != idOf(item) {
          if j < |s| { assert t[j] == s[j]; }
        }
      }
    }
  }

  /** Updates none of which carries the id of the last element leave that element alone. */
  lemma {:induction false} ApplyUpdatesSnoc<T>(s: seq<T>, x: T, idOf: T -> string, items: seq<T>)
    requires forall y :: y in items ==> idOf(y) != idOf(x)
    ensures ApplyUpdates(s + [x], idOf, items) == ApplyUpdates(s, idOf, items) + [x]
    decreases |items|
  {
    if |items| > 0 {
      var init := items[..|items| - 1];
      assert forall y :: y in init ==> y in items;
      ApplyUpdatesSnoc(s, x, idOf, init);
      UpdateByIdSnoc(ApplyUpdates(s, idOf, init), x, idOf, items[|items| - 1]);
    }
  }

  lemma MapSeqSnoc<A, B>(s: seq<A>, x: A, f: A -> B)
    ensures MapSeq(s + [x], f) == MapSeq(s, f) + [f(x)]
  {
  }

  /** An update of a list in which only the last element carries the item's id replaces that last element. */
  lemma UpdateByIdLast<T>(s: seq<T>, x: T, idOf: T -> string, item: T)
    requires forall j :: 0 <= j < |s| ==> idOf(s[j]) != idOf(item)
    requires idOf(x) == idOf(item)
    ensures UpdateById(s + [x], idOf, item) == s + [item]
  {
    var t := s + [x];
    assert forall j :: 0 <= j < |s| ==> idOf(t[j]) != idOf(item);
    assert t[|s| := item] == s + [item];
  }

  /** With unique ids, a value derived from an earlier element never carries the last element's id. */
  lemma RetagIdsAvoidLast<T>(s: seq<T>, x: T, idOf: T -> string, p: T -> bool, f: T -> T)
    requires UniqueIds(s + [x], idOf)
    requires forall y :: idOf(f(y)) == idOf(y)
    ensures forall y :: y in MapSeq(Filter(s, p), f) ==> idOf(y) != idOf(x)
  {
    var items := MapSeq(Filter(s, p), f);
    forall y | y in items ensures idOf(y) != idOf(x) {
      var k :| 0 <= k < |items| && items[k] == y;
      var z := Filter(s, p)[k];
      var m :| 0 <= m < |s| && s[m] == z;
      assert (s + [x])[m] == z && (s + [x])[|s|] == x;
    }
  }

  /** Retagging keeps ids, so a list with none of an id still has none of it afterwards. */
  lemma MapWhereKeepsIds<T>(s: seq<T>, x: T, idOf: T -> string, p: T -> bool, f: T -> T)
    requires UniqueIds(s + [x], idOf)
    requires forall y :: idOf(f(y)) == idOf(y)
    ensures forall j :: 0 <= j < |s| ==> idOf(MapWhere(s, p, f)[j]) != idOf(x)
  {
    forall j | 0 <= j < |s| ensures idOf(MapWhere(s, p, f)[j]) != idOf(x) {
      assert (s + [x])[j] == s[j] && (s + [x])[|s|] == x;
    }
  }

  /**
   * The repair routines' `forEach`: when ids are unique and `f` keeps the id,
   * updating with `f` of each element that satisfies `p` is the same as
   * applying `f` in place to exactly those elements.
   */
  lemma {:induction false} ApplyUpdatesRetag<T>(s: seq<T>, idOf: T -> string, p: T -> bool, f: T -> T)
    requires UniqueIds(s, idOf)
    requires forall x :: idOf(f(x)) == idOf(x)
    ensures ApplyUpdates(s, idOf, MapSeq(Filter(s, p), f)) == MapWhere(s, p, f)
    decreases |s|
  {
    if |s| > 0 {
      var init, x := s[..|s| - 1], s[|s| - 1];
      assert s == init + [x];
      assert UniqueIds(init, idOf) by {
        forall i, j | 0 <= i < j < |init| ensures idOf(init[i]) != idOf(init[j]) {
          assert init[i] == s[i] && init[j] == s[j];
        }
      }
      ApplyUpdatesRetag(init, idOf, p, f);
      RetagStep(init, x, idOf, p, f);
    }
  }

  /** One more element at the end: the retag of the prefix extends to the whole list. */
  lemma RetagStep<T>(init: seq<T>, x: T, idOf: T -> string, p: T -> bool, f: T -> T)
    requires UniqueIds(init + [x], idOf)
    requires forall y :: idOf(f(y)) == idOf(y)
    requires ApplyUpdates(init, idOf, MapSeq(Filter(init, p), f)) == MapWhere(init, p, f)
    ensures ApplyUpdates(init + [x], idOf, MapSeq(Filter(init + [x], p), f)) == MapWhere(init + [x], p, f)
  {
    var items := MapSeq(Filter(init, p), f);
    var done := MapWhere(init, p, f);
    RetagIdsAvoidLast(init, x, idOf, p, f);
    ApplyUpdatesSnoc(init, x, idOf, items);
    FilterSnoc(init, x, p);
    if p(x) {
      RetagStepKept(init, x, idOf, p, f);
    } else {
      assert Filter(init + [x], p) == Filter(init, p);
      assert done + [x] == MapWhere(init + [x], p, f);
    }
  }

  lemma RetagStepKept<T>(init: seq<T>, x: T, idOf: T -> string, p: T -> bool, f: T -> T)
    requires UniqueIds(init + [x], idOf) && p(x)
    requires forall y :: idOf(f(y)) == idOf(y)
    requires ApplyUpdates(init + [x], idOf, MapSeq(Filter(init, p), f)) == MapWhere(init, p, f) + [x]
    requires Filter(init + [x], p) == Filter(init, p) + [x]
    ensures ApplyUpdates(init + [x], idOf, MapSeq(Filter(init + [x], p), f)) == MapWhere(init + [x], p, f)
  {
    var items := MapSeq(Filter(init, p), f);
    var done := MapWhere(init, p, f);
    MapSeqSnoc(Filter(init, p), x, f);
    var all := items + [f(x)];
    assert all[..|all| - 1] == items;
    MapWhereKeepsIds(init, x, idOf, p, f);
    UpdateByIdLast(done, x, idOf, f(x));
    assert done + [f(x)] == MapWhere(init + [x], p, f);
  }

  // ---------------------------------------------------------------------------
  // Select

  lemma {:induction false} SelectConcat<R, T>(a: seq<R>, b: seq<R>, f: R -> Option<T>)
    ensures Select(a + b, f) == Select(a, f) + Select(b, f)
  {
    if |a| == 0 {
      assert a + b == b;
    } else {
      assert (a + b)[1..] == a[1..] + b;
      SelectConcat(a[1..], b, f);
    }
  }

  /** Appending a record of the selected kind appends its value to the selection. */
  lemma SelectSnoc<R, T>(rs: seq<R>, r: R, f: R -> Option<T>)
    requires f(r).Some?
    ensures Select(rs + [r], f) == Select(rs, f) + [f(r).value]
  {
    SelectConcat(rs, [r], f);
    assert [r][1..] == [];
  }

  /** When every record is of the selected kind, selection is a position-wise map. */
  lemma {:induction false} SelectAll<R, T>(rs: seq<R>, f: R -> Option<T>)
    requires forall r :: r in rs ==> f(r).Some?
    ensures |Select(rs, f)| == |rs|
    ensures forall i :: 0 <= i < |rs| ==> Select(rs, f)[i] == f(rs[i]).value
  {
    if |rs| > 0 {
      assert forall r :: r in rs[1..] ==> r in rs;
      SelectAll(rs[1..], f);
    }
  }

  /** Selecting the wrapped values gives back exactly the values that were wrapped. */
  lemma {:induction false} SelectWrapped<R, T>(xs: seq<T>, wrap: T -> R, f: R -> Option<T>)
    requires forall x :: f(wrap(x)) == Some(x)
    ensures Select(MapSeq(xs, wrap), f) == xs
  {
    if |xs| > 0 {
      assert MapSeq(xs, wrap)[1..] == MapSeq(xs[1..], wrap);
      SelectWrapped(xs[1..], wrap, f);
      assert xs == [xs[0]] + xs[1..];
    }
  }

  /**
   * Updating on the records and then selecting equals selecting and then
   * updating, when every record is of the selected kind and ids agree.
   */
  lemma SelectUpdate<R, T>(rs: seq<R>, rid: R -> string, r: R, f: R -> Option<T>, tid: T -> string)
    requires forall x :: x in rs ==> f(x).Some? && tid(f(x).value) == rid(x)
    requires f(r).Some? && tid(f(r).value) == rid(r)
    ensures Select(UpdateById(rs, rid, r), f) == UpdateById(Select(rs, f), tid, f(r).value)
  {
    var v := f(r).value;
    SelectAll(rs, f);
    var ts := Select(rs, f);
    assert forall j :: 0 <= j < |rs| ==> tid(ts[j]) == rid(rs[j]) by {
      forall j | 0 <= j < |rs| ensures tid(ts[j]) == rid(rs[j]) {
        assert rs[j] in rs;
      }
    }
    match FindIndex(rs, SameId(rid, rid(r)))
    case None =>
      assert forall j :: 0 <= j < |ts| ==> tid(ts[j]) != tid(v);
    case Some(i) =>
      var rs' := rs[i := r];
      assert UpdateById(rs, rid, r) == rs';
      assert forall x :: x in rs' ==> f(x).Some? by {
        forall x | x in rs' ensures f(x).Some? {
          assert x in rs || x == r;
        }
      }
      SelectAll(rs', f);
      assert forall j :: 0 <= j < i ==> tid(ts[j]) != tid(v);
      assert UpdateById(ts, tid, v) == ts[i := v];
      assert Select(rs', f) == ts[i := v];
  }

  /** Removing on the records and then selecting equals selecting and then removing. */
  lemma {:induction false} SelectRemove<R, T>(rs: seq<R>, rid: R -> string, id: string, f: R -> Option<T>, tid: T -> string)
    requires forall x :: x in rs ==> f(x).Some? && tid(f(x).value) == rid(x)
    ensures Select(RemoveById(rs, rid, id), f) == RemoveById(Select(rs, f), tid, id)
  {
    if |rs| > 0 {
      assert forall x :: x in rs[1..] ==> x in rs;
      SelectRemove(rs[1..], rid, id, f, tid);
      assert rs[0] in rs;
      var v := f(rs[0]).value;
      var keep := if rid(rs[0]) != id then [rs[0]] else [];
      assert Filter(rs, OtherId(rid, id)) == keep + Filter(rs[1..], OtherId(rid, id));
      SelectConcat(keep, Filter(rs[1..], OtherId(rid, id)), f);
      assert Select(keep, f) == (if rid(rs[0]) != id then [v] else []);
      var ts := Select(rs, f);
      assert ts == [v] + Select(rs[1..], f);
      assert ts[0] == v && ts[1..] == Select(rs[1..], f);
    }
  }
}
