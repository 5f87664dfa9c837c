/**
 * The list operations the controllers apply to lists of optional events:
 * the set of ids of the non-nil entries, the filter that drops every event
 * with a given id, and the filter that picks the new rows of a fetched page
 * (its non-nil events whose id is not already known). Each is defined once,
 * by recursion, and its meaning is stated in its contract and in the lemmas
 * below it.
 */
module Items {
  import opened Wrappers
  import opened Types

  /** The ids of the non-nil entries of `xs`. */
  function IdsOf(xs: seq<Option<Event>>): (r: set<string>)
    ensures forall e :: Some(e) in xs ==> e.id in r
    ensures forall id :: id in r ==> exists k :: 0 <= k < |xs| && xs[k].Some? && xs[k].value.id == id
  {
    if xs == [] then {}
    else
      assert xs == [xs[0]] + xs[1..];
      (if xs[0].Some? then {xs[0].value.id} else {}) + IdsOf(xs[1..])
  }

  /** Whether the id filter keeps the entry `x`: a nil entry is kept, an event only when its id differs. */
  predicate Keeps(x: Option<Event>, id: string)
  {
    x.None? || x.value.id != id
  }

  /** The id filter: drops every event whose id is `id` and keeps everything else in order. */
  function WithoutId(xs: seq<Option<Event>>, id: string): (r: seq<Option<Event>>)
    ensures |r| <= |xs|
    ensures forall x :: x in r ==> x in xs && Keeps(x, id)
    ensures id !in IdsOf(r)
  {
    if xs == [] then []
    else if Keeps(xs[0], id) then [xs[0]] + WithoutId(xs[1..], id)
    else WithoutId(xs[1..], id)
  }

  /** The new rows of a page: its non-nil events whose id is not in `keys`, in page order. */
  function FreshItems(xs: seq<Option<Event>>, keys: set<string>): (r: seq<Event>)
    ensures forall e :: e in r <==> Some(e) in xs && e.id !in keys
  {
    if xs == [] then []
    else
      assert xs == [xs[0]] + xs[1..];
      (if xs[0].Some? && xs[0].value.id !in keys then [xs[0].value] else []) + FreshItems(xs[1..], keys)
  }

  /** Appending non-optional events to a list of optional ones wraps every element. */
  function Wrapped(es: seq<Event>): (r: seq<Option<Event>>)
    ensures |r| == |es|
    ensures forall k :: 0 <= k < |es| ==> r[k] == Some(es[k])
  {
    seq(|es|, k requires 0 <= k < |es| => Some(es[k]))
  }

  /** No two non-nil entries share an id. */
  ghost predicate UniqueIds(xs: seq<Option<Event>>)
  {
    forall i, j :: 0 <= i < j < |xs| && xs[i].Some? && xs[j].Some? ==> xs[i].value.id != xs[j].value.id
  }

  /** `a` occurs in `b` in order, possibly with gaps. */
  ghost predicate IsSubsequence<T>(a: seq<T>, b: seq<T>)
    decreases |b|
  {
    a == [] || (b != [] && if a[0] == b[0] then IsSubsequence(a[1..], b[1..]) else IsSubsequence(a, b[1..]))
  }

  // ---------------------------------------------------------------------------
  // The id filter

  /** Filtering distributes over concatenation: entries on either side keep their order. */
  lemma {:induction false} WithoutIdAppend(a: seq<Option<Event>>, b: seq<Option<Event>>, id: string)
    ensures WithoutId(a + b, id) == WithoutId(a, id) + WithoutId(b, id)
  {
    if a == [] {
      assert a + b == b;
    } else {
      assert (a + b)[1..] == a[1..] + b;
      WithoutIdAppend(a[1..], b, id);
    }
  }

  /** Filtering by an id that no entry carries changes nothing. */
  lemma {:induction false} WithoutIdIdentity(xs: seq<Option<Event>>, id: string)
    requires id !in IdsOf(xs)
    ensures WithoutId(xs, id) == xs
  {
    if xs != [] {
      assert xs[0] in xs;
      assert id !in IdsOf(xs[1..]) by {
        forall e | Some(e) in xs[1..] ensures e.id != id {
          assert Some(e) in xs;
        }
      }
      WithoutIdIdentity(xs[1..], id);
    }
  }

  /**
   * Filtering keeps every other entry as often as it occurred and no entry
   * with the id.
   */
  lemma {:induction false} WithoutIdCount(xs: seq<Option<Event>>, id: string, x: Option<Event>)
    ensures multiset(WithoutId(xs, id))[x] == if Keeps(x, id) then multiset(xs)[x] else 0
  {
    if xs != [] {
      assert xs == [xs[0]] + xs[1..];
      WithoutIdCount(xs[1..], id, x);
    }
  }

  /** The filtered list is a subsequence of the original one: nothing is reordered. */
  lemma {:induction false} WithoutIdSubsequence(xs: seq<Option<Event>>, id: string)
    ensures IsSubsequence(WithoutId(xs, id), xs)
  {
    if xs != [] {
      WithoutIdSubsequence(xs[1..], id);
      if !Keeps(xs[0], id) {
        SubsequenceSkip(WithoutId(xs[1..], id), xs[1..], xs[0]);
      }
    }
  }

  /** A subsequence of `b` is a subsequence of `b` with an element in front. */
  lemma {:induction false} SubsequenceSkip<T>(a: seq<T>, b: seq<T>, y: T)
    requires IsSubsequence(a, b)
    ensures IsSubsequence(a, [y] + b)
    decreases |b|, 1
  {
    assert ([y] + b)[1..] == b;
    if a != [] && a[0] == y {
      assert b != [];
      if a[0] == b[0] {
        SubsequenceSkip(a[1..], b[1..], b[0]);
        assert [b[0]] + b[1..] == b;
      } else {
        SubsequenceDrop(a, b);
      }
    }
  }

  /** Dropping the head of `a` keeps it a subsequence of `b`. */
  lemma {:induction false} SubsequenceDrop<T>(a: seq<T>, b: seq<T>)
    requires a != [] && IsSubsequence(a, b)
    ensures IsSubsequence(a[1..], b)
    decreases |b|, 0
  {
    if a[0] == b[0] {
      SubsequenceSkip(a[1..], b[1..], b[0]);
      assert [b[0]] + b[1..] == b;
    } else {
      SubsequenceDrop(a, b[1..]);
      SubsequenceSkip(a[1..], b[1..], b[0]);
      assert [b[0]] + b[1..] == b;
    }
  }

  // ---------------------------------------------------------------------------
  // The fresh-item filter of a fetched page

  /** Wrapping keeps every event's count. */
  lemma {:induction false} WrappedCount(es: seq<Event>, e: Event)
    ensures multiset(Wrapped(es))[Some(e)] == multiset(es)[e]
  {
    if es != [] {
      assert es == [es[0]] + es[1..];
      assert Wrapped(es) == [Some(es[0])] + Wrapped(es[1..]);
      WrappedCount(es[1..], e);
    }
  }

  /** The fresh items, wrapped again, are a subsequence of the page: they keep the fetched order. */
  lemma {:induction false} FreshItemsSubsequence(xs: seq<Option<Event>>, keys: set<string>)
    ensures IsSubsequence(Wrapped(FreshItems(xs, keys)), xs)
  {
    if xs != [] {
      var rest := Wrapped(FreshItems(xs[1..], keys));
      FreshItemsSubsequence(xs[1..], keys);
      var w := Wrapped(FreshItems(xs, keys));
      if xs[0].Some? && xs[0].value.id !in keys {
        assert FreshItems(xs, keys) == [xs[0].value] + FreshItems(xs[1..], keys);
        assert w[0] == xs[0];
        assert w[1..] == rest;
      } else {
        assert FreshItems(xs, keys) == FreshItems(xs[1..], keys);
        SubsequenceSkip(rest, xs[1..], xs[0]);
        assert [xs[0]] + xs[1..] == xs;
      }
    }
  }

  /** The fresh items of two pages are the fresh items of each, in order. */
  lemma {:induction false} FreshItemsAppend(a: seq<Option<Event>>, b: seq<Option<Event>>, keys: set<string>)
    ensures FreshItems(a + b, keys) == FreshItems(a, keys) + FreshItems(b, keys)
  {
    if a == [] {
      assert a + b == b;
    } else {
      assert (a + b)[1..] == a[1..] + b;
      FreshItemsAppend(a[1..], b, keys);
    }
  }

  /**
   * Each non-nil event of the page whose id is not a known key is taken as
   * often as the page holds it: duplicates within one page are not removed.
   */
  lemma {:induction false} FreshItemsCount(xs: seq<Option<Event>>, keys: set<string>, e: Event)
    ensures multiset(FreshItems(xs, keys))[e] == if e.id in keys then 0 else multiset(xs)[Some(e)]
  {
    if xs != [] {
      assert xs == [xs[0]] + xs[1..];
      FreshItemsCount(xs[1..], keys, e);
    }
  }

  /** A page without repeated ids yields fresh items without repeated ids. */
  lemma {:induction false} FreshItemsUnique(xs: seq<Option<Event>>, keys: set<string>)
    requires UniqueIds(xs)
    ensures UniqueIds(Wrapped(FreshItems(xs, keys)))
  {
    if xs != [] {
      var tail := xs[1..];
      assert UniqueIds(tail) by {
        forall i, j | 0 <= i < j < |tail| && tail[i].Some? && tail[j].Some?
          ensures tail[i].value.id != tail[j].value.id
        {
          assert tail[i] == xs[i + 1] && tail[j] == xs[j + 1];
        }
      }
      FreshItemsUnique(tail, keys);
      var rest := FreshItems(tail, keys);
      if xs[0].Some? && xs[0].value.id !in keys {
        var h := xs[0].value;
        forall e | e in rest ensures e.id != h.id {
          assert Some(e) in tail;
          var j :| 0 <= j < |tail| && tail[j] == Some(e);
          assert xs[j + 1] == Some(e);
        }
        var w := Wrapped([h] + rest);
        forall i, j | 0 <= i < j < |w| && w[i].Some? && w[j].Some?
          ensures w[i].value.id != w[j].value.id
        {
          if i == 0 {
            assert w[j].value == rest[j - 1];
            assert rest[j - 1] in rest;
          } else {
            assert w[i] == Wrapped(rest)[i - 1] && w[j] == Wrapped(rest)[j - 1];
          }
        }
      }
    }
  }

  /** Two id-unique lists whose ids are disjoint concatenate to an id-unique list. */
  lemma {:induction false} UniqueIdsAppend(a: seq<Option<Event>>, b: seq<Option<Event>>)
    requires UniqueIds(a) && UniqueIds(b)
    requires forall e :: Some(e) in b ==> e.id !in IdsOf(a)
    ensures UniqueIds(a + b)
  {
    var r := a + b;
    forall i, j | 0 <= i < j < |r| && r[i].Some? && r[j].Some?
      ensures r[i].value.id != r[j].value.id
    {
      if j < |a| {
        assert r[i] == a[i] && r[j] == a[j];
      } else if i < |a| {
        assert r[i] == a[i] && a[i] in a;
        assert r[j] == b[j - |a|] && b[j - |a|] in b;
      } else {
        assert r[i] == b[i - |a|] && r[j] == b[j - |a|];
      }
    }
  }
}
