/**
 * The add-event screen: validates the four entered fields, issues the
 * create mutation with an optimistic placeholder carrying a `TEMP-` id in
 * the cached list, and when the server answers replaces every placeholder
 * with that id by the server's event at the tail of the list. A failed
 * mutation leaves the placeholder where it is: there is no rollback.
 */
module AddEvent {
  import opened Wrappers
  import opened Types
  import opened Items
  import opened EventList

  /** The variables of the create-event mutation. */
  datatype EventInput = EventInput(name: string, when: string, where: string, description: string)

  /** The created event the mutation's result carries: the event as the server stored it. */
  datatype CreatedEvent = CreatedEvent(id: string, description: string, name: string, when: string, where: string)

  /** A submitted mutation and the temporary id of its placeholder. */
  datatype Submission = Submission(input: EventInput, tempId: string)

  /** What tapping "add" does: the mutation issued, if any, and the cache after its optimistic update. */
  datatype AddStart = AddStart(submission: Option<Submission>, cache: ListData)

  /** The prefix that marks a locally made id. */
  const TempPrefix: string := "TEMP-"

  predicate IsTemporaryId(id: string)
  {
    TempPrefix <= id
  }

  /** The input guard: each of the four fields present and non-empty, in the order the guard tests them. */
  function ValidInput(name: Option<string>, when: Option<string>, where: Option<string>, description: Option<string>): (r: Option<EventInput>)
    ensures r.Some? <==>
      && name.Some? && name.value != []
      && when.Some? && when.value != []
      && where.Some? && where.value != []
      && description.Some? && description.value != []
    ensures r.Some? ==> r.value == EventInput(name.value, when.value, where.value, description.value)
  {
    if name.None? || |name.value| == 0 then None
    else if when.None? || |when.value| == 0 then None
    else if where.None? || |where.value| == 0 then None
    else if description.None? || |description.value| == 0 then None
    else Some(EventInput(name.value, when.value, where.value, description.value))
  }

  /** The placeholder's id: marked temporary by its prefix, and carrying the whole UUID after it. */
  function TemporaryLocalId(uuid: string): (r: string)
    ensures IsTemporaryId(r) && r[|TempPrefix|..] == uuid
  {
    TempPrefix + uuid
  }

  /** The placeholder row: the entered fields, the temporary id and no comments. */
  function LocalItem(input: EventInput, tempId: string): (r: Event)
    ensures r.id == tempId && r.comments.None?
    ensures r.name == input.name && r.when == input.when && r.where == input.where && r.description == input.description
  {
    Event(tempId, input.description, input.name, input.when, input.where, None)
  }

  /**
   * The optimistic block: the placeholder is added at the tail of the cached
   * item list when there is one; otherwise the cache is left as it was.
   */
  function AppendOptimistic(data: ListData, item: Event): (r: ListData)
    ensures ItemsOf(data).None? ==> r == data
    ensures ItemsOf(data).Some? ==>
      && r.listEvents.Some? && r.listEvents.value.nextToken == data.listEvents.value.nextToken
      && ItemsOf(r).Some? && |ItemsOf(r).value| == |ItemsOf(data).value| + 1
      && ItemsOf(r).value[..|ItemsOf(data).value|] == ItemsOf(data).value
      && ItemsOf(r).value[|ItemsOf(data).value|] == Some(item)
  {
    match data.listEvents
    case None => data
    case Some(page) =>
      match page.items
      case None => data
      case Some(xs) => ListData(Some(page.(items := Some(xs + [Some(item)]))))
  }

  /**
   * Tapping "add": invalid input issues no mutation and leaves the cache as
   * it was; valid input issues the mutation with the entered fields and adds
   * one placeholder at the tail of the cached list, when that list exists.
   */
  function AddNewPost(name: Option<string>, when: Option<string>, where: Option<string>, description: Option<string>,
                      uuid: string, cache: ListData): (r: AddStart)
    ensures r.submission.None? <==> ValidInput(name, when, where, description).None?
    ensures r.submission.None? ==> r.cache == cache
    ensures r.submission.Some? ==>
      && r.submission.value.input == EventInput(name.value, when.value, where.value, description.value)
      && IsTemporaryId(r.submission.value.tempId)
      && r.submission.value.tempId == TemporaryLocalId(uuid)
    ensures r.submission.Some? && ItemsOf(cache).None? ==> r.cache == cache
    ensures r.submission.Some? && ItemsOf(cache).Some? ==>
      && r.cache.listEvents.Some?
      && r.cache.listEvents.value.nextToken == cache.listEvents.value.nextToken
      && ItemsOf(r.cache) == Some(ItemsOf(cache).value + [Some(Event(r.submission.value.tempId, description.value,
                                                                      name.value, when.value, where.value, None))])
  {
    match ValidInput(name, when, where, description)
    case None => AddStart(None, cache)
    case Some(input) =>
      var tempId := TemporaryLocalId(uuid);
      AddStart(Some(Submission(input, tempId)), AppendOptimistic(cache, LocalItem(input, tempId)))
  }

  /** The server's event as a list row: its five fields copied, and no comments. */
  function NewItem(created: CreatedEvent): (r: Event)
    ensures r.id == created.id && r.comments.None?
    ensures r.name == created.name && r.when == created.when && r.where == created.where && r.description == created.description
  {
    Event(created.id, created.description, created.name, created.when, created.where, None)
  }

  /**
   * The reconciliation block: when the list query is cached at all, its item
   * list, if present, loses every row with the temporary id and gains the
   * server's row at the tail. This holds for any server row, even one that
   * reuses the temporary id; the cursor and absent structures are kept.
   */
  function Reconciled(data: ListData, tempId: string, item: Event): (r: ListData)
    ensures data.listEvents.None? ==> r == data
    ensures data.listEvents.Some? ==> r.listEvents.Some? && r.listEvents.value.nextToken == data.listEvents.value.nextToken
    ensures ItemsOf(r).Some? <==> ItemsOf(data).Some?
    ensures ItemsOf(data).Some? ==>
      var before, after := ItemsOf(data).value, ItemsOf(r).value;
      && |after| > 0 && after[|after| - 1] == Some(item)
      && tempId !in IdsOf(after[..|after| - 1])
      && IsSubsequence(after[..|after| - 1], before)
  {
    match data.listEvents
    case None => data
    case Some(page) =>
      match page.items
      case None => ListData(Some(page.(items := None)))
      case Some(xs) =>
        WithoutIdSubsequence(xs, tempId);
        var kept := WithoutId(xs, tempId);
        assert (kept + [Some(item)])[..|kept|] == kept;
        ListData(Some(page.(items := Some(kept + [Some(item)]))))
  }

  /**
   * With a server id that differs from the temporary one, no row with the
   * temporary id is left at all, and every other row keeps its count: the
   * server's row gains exactly one. Order, the tail and the cursor are
   * stated by `Reconciled` itself for every server row.
   */
  lemma ReconciledSpec(data: ListData, tempId: string, item: Event)
    requires item.id != tempId
    ensures data.listEvents.None? ==> Reconciled(data, tempId, item) == data
    ensures data.listEvents.Some? ==>
      && Reconciled(data, tempId, item).listEvents.Some?
      && Reconciled(data, tempId, item).listEvents.value.nextToken == data.listEvents.value.nextToken
    ensures ItemsOf(data).None? ==> ItemsOf(Reconciled(data, tempId, item)).None?
    ensures ItemsOf(data).Some? ==>
      var before, after := ItemsOf(data).value, ItemsOf(Reconciled(data, tempId, item)).value;
      && |after| > 0 && after[|after| - 1] == Some(item)
      && tempId !in IdsOf(after)
      && IsSubsequence(after[..|after| - 1], before)
      && (forall x :: Keeps(x, tempId) && x != Some(item) ==> multiset(after)[x] == multiset(before)[x])
      && multiset(after)[Some(item)] == multiset(before)[Some(item)] + 1
  {
    if ItemsOf(data).Some? {
      var before := ItemsOf(data).value;
      var kept := WithoutId(before, tempId);
      var after := kept + [Some(item)];
      assert ItemsOf(Reconciled(data, tempId, item)) == Some(after);
      assert after[..|after| - 1] == kept;
      WithoutIdSubsequence(before, tempId);
      WithoutIdIdentity([Some(item)], tempId);
      WithoutIdAppend(kept, [Some(item)], tempId);
      WithoutIdIdentity(kept, tempId);
      forall x | Keeps(x, tempId)
        ensures multiset(after)[x] == multiset(before)[x] + (if x == Some(item) then 1 else 0)
      {
        WithoutIdCount(before, tempId, x);
      }
      WithoutIdCount(before, tempId, Some(item));
    }
  }

  /**
   * When the temporary id is new to the cached list, the optimistic
   * placeholder followed by its reconciliation leaves the list exactly as if
   * the server's row had been appended straight away.
   */
  lemma ReconcileReplacesPlaceholder(data: ListData, input: EventInput, tempId: string, item: Event)
    requires ItemsOf(data).Some? ==> tempId !in IdsOf(ItemsOf(data).value)
    ensures Reconciled(AppendOptimistic(data, LocalItem(input, tempId)), tempId, item) == AppendOptimistic(data, item)
  {
    if ItemsOf(data).Some? {
      var xs := ItemsOf(data).value;
      var local := Some(LocalItem(input, tempId));
      WithoutIdAppend(xs, [local], tempId);
      WithoutIdIdentity(xs, tempId);
      assert [local][1..] == [];
      assert WithoutId([local], tempId) == [];
      assert WithoutId(xs + [local], tempId) == xs;
      assert ItemsOf(AppendOptimistic(data, LocalItem(input, tempId))) == Some(xs + [local]);
    }
  }

  /**
   * Reconciliation is not idempotent: delivering the same server row a
   * second time appends a second copy of it.
   */
  lemma ReconcileTwiceDuplicates(data: ListData, tempId: string, item: Event)
    requires ItemsOf(data).Some? && item.id != tempId
    ensures var once := Reconciled(data, tempId, item);
      ItemsOf(Reconciled(once, tempId, item)) == Some(ItemsOf(once).value + [Some(item)])
  {
    var once := ItemsOf(Reconciled(data, tempId, item)).value;
    var kept := WithoutId(ItemsOf(data).value, tempId);
    assert once == kept + [Some(item)];
    WithoutIdAppend(kept, [Some(item)], tempId);
    WithoutIdIdentity(kept, tempId);
    WithoutIdIdentity([Some(item)], tempId);
  }

  /**
   * Two creates in flight, made with different UUIDs: reconciling one leaves
   * the other's placeholder in the cached list.
   */
  lemma ReconcileKeepsOtherPlaceholders(data: ListData, uuid: string, otherUuid: string, other: Event, item: Event)
    requires uuid != otherUuid && other.id == TemporaryLocalId(otherUuid)
    requires ItemsOf(data).Some? && Some(other) in ItemsOf(data).value
    ensures Some(other) in ItemsOf(Reconciled(data, TemporaryLocalId(uuid), item)).value
  {
    var tempId := TemporaryLocalId(uuid);
    assert tempId[|TempPrefix|..] != other.id[|TempPrefix|..];
    var before := ItemsOf(data).value;
    WithoutIdCount(before, tempId, Some(other));
    assert Some(other) in multiset(WithoutId(before, tempId));
  }

  /**
   * The mutation's completion. On every path the screen is popped and the
   * list below it, if it is the list screen, is flagged for reload. The
   * cache is reconciled only for a result with a created event; an error or
   * an empty result leaves the placeholder in place.
   */
  method AddCompleted(failed: bool, created: Option<CreatedEvent>, tempId: string, cache: ListData,
                      top: EventListViewController?) returns (cache': ListData)
    modifies top
    ensures top != null ==> top.needUpdateList
    ensures top != null ==>
      && top.eventList == old(top.eventList) && top.nextToken == old(top.nextToken)
      && top.isLoadInProgress == old(top.isLoadInProgress) && top.lastOpenedIndex == old(top.lastOpenedIndex)
    ensures failed || created.None? ==> cache' == cache
    ensures !failed && created.Some? ==> cache' == Reconciled(cache, tempId, NewItem(created.value))
  {
    cache' := cache;
    if !failed {
      match created
      case None =>
      case Some(c) =>
        cache' := Reconciled(cache, tempId, NewItem(c));
    }
    // the deferred navigation step
    if top != null {
      top.needUpdateList := true;
    }
  }
}
