/**
 * The event list screen: a paginated list of events loaded through the
 * list query, merged page by page into `eventList`, with a guard flag that
 * refuses a new load while it is raised, and the delete swipe with its
 * optimistic cache update.
 */
module EventList {
  import opened Wrappers
  import opened Types
  import opened Items

  /** The page size the list asks for (`fixedLimit`). */
  const FixedLimit: int := 20

  /** A list query the screen issues: its page size, its cursor and the cache policy of the fetch. */
  datatype ListFetch = ListFetch(limit: int, nextToken: Option<string>, policy: CachePolicy)

  /** The item list of a cached or fetched list result, absent when the query or its items are. */
  function ItemsOf(data: ListData): Option<seq<Option<Event>>>
  {
    match data.listEvents
    case None => None
    case Some(page) => page.items
  }

  /** The item list of a fetch result's data, absent all the way down from absent data. */
  function PageItems(data: Option<ListData>): (r: Option<seq<Option<Event>>>)
    ensures r.Some? <==> data.Some? && data.value.listEvents.Some? && data.value.listEvents.value.items.Some?
    ensures r.Some? ==> r == data.value.listEvents.value.items
  {
    match data
    case None => None
    case Some(d) => ItemsOf(d)
  }

  /** The cursor of a fetch result's data, absent when the data, the query or the cursor is. */
  function PageToken(data: Option<ListData>): (r: Option<string>)
    ensures data.None? || data.value.listEvents.None? ==> r.None?
    ensures data.Some? && data.value.listEvents.Some? ==> r == data.value.listEvents.value.nextToken
  {
    match data
    case None => None
    case Some(d) => match d.listEvents
      case None => None
      case Some(page) => page.nextToken
  }

  /**
   * Whether the completion empties the list before merging: a load that
   * follows a cursor never clears, nor does a refresh or a cache-only load;
   * a cache-and-fetch load with no cursor always does.
   */
  predicate ClearsList(nextToken: Option<string>, policy: CachePolicy): (b: bool)
    ensures b ==> nextToken.None?
    ensures policy != ReturnCacheDataAndFetch ==> !b
    ensures nextToken.None? && policy == ReturnCacheDataAndFetch ==> b
  {
    nextToken == None && policy == ReturnCacheDataAndFetch
  }

  /**
   * The list after a successful fetch completion: the prior rows (none if
   * the list was cleared) followed by the fetched page's non-nil events whose
   * id is not among the prior rows' ids.
   */
  function Merged(list: seq<Option<Event>>, clear: bool, page: Option<seq<Option<Event>>>): (r: seq<Option<Event>>)
    ensures var base := if clear then [] else list;
      |base| <= |r| && r[..|base|] == base
    ensures var base := if clear then [] else list;
      forall e :: Some(e) in r[|base|..] <==> page.Some? && Some(e) in page.value && e.id !in IdsOf(base)
    ensures page.None? ==> r == if clear then [] else list
  {
    var base := if clear then [] else list;
    var newItems := match page case Some(xs) => FreshItems(xs, IdsOf(base)) case None => [];
    var r := base + Wrapped(newItems);
    assert r[|base|..] == Wrapped(newItems);
    r
  }

  /**
   * The merge keeps ids unique: when the prior rows and the fetched page each
   * hold no repeated id, neither does the merged list.
   */
  lemma {:induction false} MergedUnique(list: seq<Option<Event>>, clear: bool, page: Option<seq<Option<Event>>>)
    requires UniqueIds(list)
    requires page.Some? ==> UniqueIds(page.value)
    ensures UniqueIds(Merged(list, clear, page))
  {
    var base := if clear then [] else list;
    var newItems := match page case Some(xs) => FreshItems(xs, IdsOf(base)) case None => [];
    var w := Wrapped(newItems);
    if page.Some? {
      FreshItemsUnique(page.value, IdsOf(base));
    }
    forall e: Event | Some(e) in w ensures e.id !in IdsOf(base) {
      var k :| 0 <= k < |w| && w[k] == Some(e);
      assert newItems[k] == e && newItems[k] in newItems;
    }
    UniqueIdsAppend(base, w);
  }

  /**
   * The rows after the prior ones are the page's fresh events in fetched
   * order, each as often as the page holds it: no nil row is added, nothing
   * is reordered, an event whose id is already listed is not added, and a
   * repeat inside the page is not removed.
   */
  lemma {:induction false} MergedTail(list: seq<Option<Event>>, clear: bool, page: Option<seq<Option<Event>>>)
    ensures var base := if clear then [] else list;
      var tail := Merged(list, clear, page)[|base|..];
      && None !in tail
      && (page.Some? ==> IsSubsequence(tail, page.value))
      && (forall e :: multiset(tail)[Some(e)] == if page.Some? && e.id !in IdsOf(base) then multiset(page.value)[Some(e)] else 0)
  {
    var base := if clear then [] else list;
    var newItems := match page case Some(xs) => FreshItems(xs, IdsOf(base)) case None => [];
    var tail := Merged(list, clear, page)[|base|..];
    assert tail == Wrapped(newItems);
    if page.Some? {
      FreshItemsSubsequence(page.value, IdsOf(base));
    }
    forall e: Event ensures multiset(tail)[Some(e)] == if page.Some? && e.id !in IdsOf(base) then multiset(page.value)[Some(e)] else 0 {
      WrappedCount(newItems, e);
      if page.Some? {
        FreshItemsCount(page.value, IdsOf(base), e);
      }
    }
  }

  /** A pull-to-refresh fetch never clears: every row already shown stays, in place. */
  lemma RefreshKeepsRows(list: seq<Option<Event>>, nextToken: Option<string>, page: Option<seq<Option<Event>>>)
    ensures Merged(list, ClearsList(nextToken, FetchIgnoringCacheData), page)[..|list|] == list
  {
  }

  /**
   * The pagination trigger of `willDisplay`: no load running, the row is
   * the last one, and the cursor is present and non-empty.
   */
  function NeedsNextPage(isLoadInProgress: bool, row: int, count: int, nextToken: Option<string>): (b: bool)
    ensures b <==> !isLoadInProgress && row >= count - 1 && nextToken.Some? && nextToken.value != []
  {
    !isLoadInProgress && row > count - 2 && (match nextToken case Some(t) => |t| case None => 0) > 0
  }

  /**
   * The optimistic delete block: the cached item list, when there is one,
   * loses every event with the id; the cursor and absent structures stay.
   */
  function RemoveEvent(data: ListData, id: string): (r: ListData)
    ensures r.listEvents.Some? <==> data.listEvents.Some?
    ensures data.listEvents.Some? ==> r.listEvents.value.nextToken == data.listEvents.value.nextToken
    ensures ItemsOf(r).Some? <==> ItemsOf(data).Some?
    ensures ItemsOf(r).Some? ==> id !in IdsOf(ItemsOf(r).value) && |ItemsOf(r).value| <= |ItemsOf(data).value|
  {
    match data.listEvents
    case None => data
    case Some(page) =>
      ListData(Some(page.(items := match page.items case None => None case Some(xs) => Some(WithoutId(xs, id)))))
  }

  /**
   * The optimistic delete removes every cached event with the id, keeps every
   * other entry as often and in the order it had, and leaves the cursor and
   * absent structures as they were.
   */
  lemma RemoveEventSpec(data: ListData, id: string)
    ensures RemoveEvent(data, id).listEvents.Some? <==> data.listEvents.Some?
    ensures data.listEvents.Some? ==> RemoveEvent(data, id).listEvents.value.nextToken == data.listEvents.value.nextToken
    ensures ItemsOf(RemoveEvent(data, id)).Some? <==> ItemsOf(data).Some?
    ensures ItemsOf(data).Some? ==>
      var before, after := ItemsOf(data).value, ItemsOf(RemoveEvent(data, id)).value;
      && id !in IdsOf(after)
      && (forall x :: Keeps(x, id) ==> multiset(after)[x] == multiset(before)[x])
      && IsSubsequence(after, before)
  {
    if ItemsOf(data).Some? {
      var before := ItemsOf(data).value;
      forall x | Keeps(x, id)
        ensures multiset(WithoutId(before, id))[x] == multiset(before)[x]
      {
        WithoutIdCount(before, id, x);
      }
      WithoutIdSubsequence(before, id);
    }
  }

  /** The list screen's state. */
  class EventListViewController {
    var nextToken: Option<string>
    var isLoadInProgress: bool
    var needUpdateList: bool
    var lastOpenedIndex: int
    var eventList: seq<Option<Event>>

    constructor ()
      ensures nextToken == None && !isLoadInProgress && !needUpdateList
      ensures lastOpenedIndex == -1 && eventList == []
    {
      nextToken := None;
      isLoadInProgress := false;
      needUpdateList := false;
      lastOpenedIndex := -1;
      eventList := [];
    }

    /** `viewDidLoad`: the first load goes to the cache and then to the server. */
    method ViewDidLoad() returns (fetch: Option<ListFetch>)
      modifies this`isLoadInProgress
      ensures isLoadInProgress
      ensures fetch == if old(isLoadInProgress) then None else Some(ListFetch(FixedLimit, nextToken, ReturnCacheDataAndFetch))
    {
      fetch := FetchAllEventsUsingCachePolicy(ReturnCacheDataAndFetch);
    }

    /**
     * Starts a load unless one is in progress: a refused load changes
     * nothing; an accepted one raises the flag and issues the query from the
     * current cursor.
     */
    method FetchAllEventsUsingCachePolicy(policy: CachePolicy) returns (fetch: Option<ListFetch>)
      modifies this`isLoadInProgress
      ensures isLoadInProgress
      ensures fetch == if old(isLoadInProgress) then None else Some(ListFetch(FixedLimit, nextToken, policy))
    {
      if isLoadInProgress {
        fetch := None;
        return;
      }
      isLoadInProgress := true;
      fetch := Some(ListFetch(FixedLimit, nextToken, policy));
    }

    /**
     * The fetch completion. On an error nothing changes, not even the load
     * flag: if no other completion of the load is outstanding, it stays
     * raised and every later load is refused. Otherwise the page is merged,
     * the cursor is the response's (possibly nil) and the flag is lowered.
     */
    method FetchCompleted(policy: CachePolicy, failed: bool, data: Option<ListData>)
      modifies this`eventList, this`nextToken, this`isLoadInProgress
      ensures failed ==> eventList == old(eventList) && nextToken == old(nextToken) && isLoadInProgress == old(isLoadInProgress)
      ensures !failed ==> eventList == Merged(old(eventList), ClearsList(old(nextToken), policy), PageItems(data))
      ensures !failed ==> nextToken == PageToken(data) && !isLoadInProgress
    {
      if failed {
        return;
      }
      if ClearsList(nextToken, policy) {
        eventList := [];
      }
      var existingKeys := IdsOf(eventList);
      var newItems := match PageItems(data) case Some(xs) => FreshItems(xs, existingKeys) case None => [];
      eventList := eventList + Wrapped(newItems);
      nextToken := PageToken(data);
      isLoadInProgress := false;
    }

    /** Pull-to-refresh: drops the cursor and loads from the server, bypassing the cache. */
    method HandleRefresh() returns (fetch: Option<ListFetch>)
      modifies this`nextToken, this`isLoadInProgress
      ensures nextToken == None && isLoadInProgress
      ensures fetch == if old(isLoadInProgress) then None else Some(ListFetch(FixedLimit, None, FetchIgnoringCacheData))
    {
      nextToken := None;
      fetch := FetchAllEventsUsingCachePolicy(FetchIgnoringCacheData);
    }

    /**
     * `viewWillAppear`: when another screen flagged the list as stale, clears
     * the flag and the cursor and reloads from cache and server; otherwise
     * nothing happens.
     */
    method ViewWillAppear() returns (fetch: Option<ListFetch>)
      modifies this`needUpdateList, this`nextToken, this`isLoadInProgress
      ensures !old(needUpdateList) ==>
        fetch == None && !needUpdateList && nextToken == old(nextToken) && isLoadInProgress == old(isLoadInProgress)
      ensures old(needUpdateList) ==> !needUpdateList && nextToken == None && isLoadInProgress
      ensures old(needUpdateList) ==>
        fetch == if old(isLoadInProgress) then None else Some(ListFetch(FixedLimit, None, ReturnCacheDataAndFetch))
    {
      fetch := None;
      if needUpdateList {
        needUpdateList := false;
        nextToken := None;
        fetch := FetchAllEventsUsingCachePolicy(ReturnCacheDataAndFetch);
      }
    }

    /**
     * The delete swipe on `row`: a delete edit of a non-nil row issues the
     * delete mutation for its id together with the optimistic cache update;
     * anything else issues nothing. The screen's own list is not touched yet.
     */
    method CommitDelete(isDelete: bool, row: nat, cache: ListData) returns (deleted: Option<string>, cache': ListData)
      requires isDelete ==> row < |eventList|
      ensures deleted.Some? <==> isDelete && eventList[row].Some?
      ensures deleted.Some? ==> deleted.value == eventList[row].value.id && cache' == RemoveEvent(cache, deleted.value)
      ensures deleted.None? ==> cache' == cache
    {
      deleted, cache' := None, cache;
      if isDelete {
        match eventList[row]
        case None =>
        case Some(e) =>
          deleted := Some(e.id);
          cache' := RemoveEvent(cache, e.id);
      }
    }

    /**
     * The delete mutation's completion: with a result, the row at the swiped
     * index is removed, whatever event sits there by now.
     */
    method DeleteCompleted(row: nat, hasResult: bool)
      requires hasResult ==> row < |eventList|
      modifies this`eventList
      ensures !hasResult ==> eventList == old(eventList)
      ensures hasResult ==> |eventList| == |old(eventList)| - 1
      ensures hasResult ==> eventList[..row] == old(eventList)[..row] && eventList[row..] == old(eventList)[row + 1..]
    {
      if hasResult {
        eventList := eventList[..row] + eventList[row + 1..];
      }
    }

    /** Selecting a row remembers its index and hands its event, if any, to the details screen. */
    method DidSelectRowAt(row: nat) returns (shown: Option<Event>)
      requires row < |eventList|
      modifies this`lastOpenedIndex
      ensures lastOpenedIndex == row && shown == eventList[row]
    {
      lastOpenedIndex := row;
      shown := eventList[row];
    }

    /** `willDisplay` for `row`: loads the next page exactly when `NeedsNextPage` holds. */
    method WillDisplay(row: nat) returns (fetch: Option<ListFetch>)
      modifies this`isLoadInProgress
      ensures fetch.Some? <==> NeedsNextPage(old(isLoadInProgress), row, |eventList|, nextToken)
      ensures fetch.Some? ==> fetch.value == ListFetch(FixedLimit, nextToken, FetchIgnoringCacheData) && isLoadInProgress
      ensures fetch.None? ==> isLoadInProgress == old(isLoadInProgress)
    {
      fetch := None;
      if NeedsNextPage(isLoadInProgress, row, |eventList|, nextToken) {
        fetch := FetchAllEventsUsingCachePolicy(FetchIgnoringCacheData);
      }
    }
  }
}
