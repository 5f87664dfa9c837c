/**
 * The event details screen: shows one event and its comments, refetches
 * the event, merges comments pushed by the new-comment subscription into
 * the cached event (without a duplicate check), posts new comments, and on
 * leaving writes the event back into the list screen's row.
 */
module EventDetails {
  import opened Wrappers
  import opened Types
  import opened EventList

  /** A comment pushed by the new-comment subscription. */
  datatype PushedComment = PushedComment(eventId: string, commentId: string, content: string, createdAt: string)

  /** A `GetEventQuery` the screen issues, with the cache policy of the fetch. */
  datatype EventFetch = EventFetch(id: string, policy: CachePolicy)

  /** A cache write: an event object stored under a cache key. */
  datatype StoreWrite = StoreWrite(key: string, object: Event)

  /** What a handled push does: the cache write, then the reload of the event from the cache. */
  datatype CommentPush = CommentPush(write: StoreWrite, refetch: EventFetch)

  /** The variables of the comment mutation. */
  datatype CommentMutation = CommentMutation(eventId: string, content: string, createdAt: string)

  /** The pushed comment as a comment item. */
  function CommentOf(pushed: PushedComment): (r: Comment)
    ensures r.eventId == pushed.eventId && r.commentId == pushed.commentId
    ensures r.content == pushed.content && r.createdAt == pushed.createdAt
  {
    Comment(pushed.eventId, pushed.commentId, pushed.content, pushed.createdAt)
  }

  /**
   * The new comments connection: an existing connection gets the comment
   * appended to its items (if it has an item list at all), a missing one is
   * replaced by a connection holding just the comment.
   */
  function MergedComments(previous: Option<CommentConnection>, comment: Comment): (r: CommentConnection)
    ensures previous.Some? && previous.value.items.Some? ==>
      r.items == Some(previous.value.items.value + [Some(comment)])
    ensures previous.Some? && previous.value.items.None? ==> r == previous.value
    ensures previous.None? ==> r.items == Some([Some(comment)])
  {
    match previous
    case Some(connection) =>
      var items := match connection.items case None => None case Some(xs) => Some(xs + [Some(comment)]);
      connection.(items := items)
    case None =>
      CommentConnection(Some([Some(comment)]))
  }

  /**
   * The event object written for a push: the current event's description,
   * name, time and place, the pushed event id, and the merged comments.
   */
  function EventWithComment(event: Event, pushed: PushedComment): (r: Event)
    ensures r.id == pushed.eventId
    ensures r.description == event.description && r.name == event.name
    ensures r.when == event.when && r.where == event.where
    ensures r.comments == Some(MergedComments(event.comments, CommentOf(pushed)))
  {
    Event(pushed.eventId, event.description, event.name, event.when, event.where,
          Some(MergedComments(event.comments, CommentOf(pushed))))
  }

  /**
   * The subscription handler. `alive` says whether the screen still exists,
   * `event` is its current event, `result` is the callback's result and
   * within it the pushed comment. Any guard that fails writes nothing;
   * otherwise the merged event is written under the pushed event id and the
   * screen reloads its event from the cache.
   */
  function OnNewComment(alive: bool, event: Option<Event>, failed: bool, result: Option<Option<PushedComment>>): (r: Option<CommentPush>)
    ensures r.None? <==> !alive || event.None? || failed || result.None? || result.value.None?
    ensures r.Some? ==>
      var pushed := result.value.value;
      && r.value.write == StoreWrite(pushed.eventId, EventWithComment(event.value, pushed))
      && r.value.refetch == EventFetch(event.value.id, ReturnCacheDataDontFetch)
  {
    if !alive then None
    else match event
      case None => None
      case Some(e) =>
        if failed then None
        else match result
          case None => None
          case Some(data) => match data
            case None => None
            case Some(pushed) =>
              Some(CommentPush(StoreWrite(pushed.eventId, EventWithComment(e, pushed)), EventFetch(e.id, ReturnCacheDataDontFetch)))
  }

  /** The comment items of an event, absent when it has no connection or the connection has no items. */
  function CommentItems(event: Event): Option<seq<Option<Comment>>>
  {
    match event.comments
    case None => None
    case Some(connection) => connection.items
  }

  /**
   * A push grows the event's comment list by exactly the pushed comment at
   * its tail, except when the event has a connection without an item list:
   * then the comment is dropped.
   */
  lemma PushAppendsComment(event: Event, pushed: PushedComment)
    ensures CommentItems(event).Some? ==>
      CommentItems(EventWithComment(event, pushed)) == Some(CommentItems(event).value + [Some(CommentOf(pushed))])
    ensures event.comments.None? ==> CommentItems(EventWithComment(event, pushed)) == Some([Some(CommentOf(pushed))])
    ensures event.comments.Some? && CommentItems(event).None? ==> CommentItems(EventWithComment(event, pushed)).None?
  {
  }

  /**
   * There is no duplicate check: merging a comment into an event that
   * already holds it appends a second copy.
   */
  lemma {:induction false} PushTwiceDuplicates(event: Event, pushed: PushedComment)
    requires event.comments.None? || CommentItems(event).Some?
    ensures var twice := EventWithComment(EventWithComment(event, pushed), pushed);
      var before := if event.comments.None? then [] else CommentItems(event).value;
      CommentItems(twice) == Some(before + [Some(CommentOf(pushed)), Some(CommentOf(pushed))])
  {
    var c := Some(CommentOf(pushed));
    var once := EventWithComment(event, pushed);
    var before := if event.comments.None? then [] else CommentItems(event).value;
    PushAppendsComment(event, pushed);
    if event.comments.None? {
      assert before + [c] == [c];
    }
    assert CommentItems(once) == Some(before + [c]);
    PushAppendsComment(once, pushed);
    assert before + [c] + [c] == before + [c, c];
  }

  /** The comment prompt: no event or an empty or missing text issues no mutation. */
  function NewCommentMutation(event: Option<Event>, text: Option<string>, createdAt: string): (r: Option<CommentMutation>)
    ensures r.Some? <==> event.Some? && text.Some? && text.value != []
    ensures r.Some? ==> r.value == CommentMutation(event.value.id, text.value, createdAt)
  {
    match event
    case None => None
    case Some(e) =>
      match text
      case None => None
      case Some(t) => if |t| == 0 then None else Some(CommentMutation(e.id, t, createdAt))
  }

  /** The details screen's state. */
  class EventDetailsViewController {
    var event: Option<Event>
    var comments: seq<Option<Comment>>

    /** The screen as the list pushes it: with the selected event and no comments yet. */
    constructor (event: Option<Event>)
      ensures this.event == event && comments == []
    {
      this.event := event;
      comments := [];
    }

    /**
     * `viewDidLoad`: shows the event's comments (none if it has no item
     * list), then fetches the event from the server and subscribes to its
     * new comments; both need an event.
     */
    method ViewDidLoad() returns (fetch: Option<EventFetch>, subscription: Option<string>)
      modifies this`comments
      ensures event.Some? ==> comments == (match CommentItems(event.value) case Some(cs) => cs case None => [])
      ensures event.None? ==> comments == old(comments)
      ensures fetch == if event.Some? then Some(EventFetch(event.value.id, FetchIgnoringCacheData)) else None
      ensures subscription == if event.Some? then Some(event.value.id) else None
    {
      if event.Some? {
        comments := match CommentItems(event.value) case Some(cs) => cs case None => [];
      }
      fetch := DoFetchWithCachePolicy(FetchIgnoringCacheData);
      subscription := StartSubscriptionForEvent();
    }

    /** Issues the event query for the current event under `policy`; without an event nothing is fetched. */
    method DoFetchWithCachePolicy(policy: CachePolicy) returns (fetch: Option<EventFetch>)
      ensures fetch.Some? <==> event.Some?
      ensures fetch.Some? ==> fetch.value == EventFetch(event.value.id, policy)
    {
      fetch := None;
      match event
      case None =>
      case Some(e) =>
        fetch := Some(EventFetch(e.id, policy));
    }

    /** Subscribes to the current event's new comments, by its id; without an event there is no subscription. */
    method StartSubscriptionForEvent() returns (subscription: Option<string>)
      ensures subscription.Some? <==> event.Some?
      ensures subscription.Some? ==> subscription.value == event.value.id
    {
      subscription := None;
      match event
      case None =>
      case Some(e) =>
        subscription := Some(e.id);
    }

    /**
     * The event query's completion. An error or a missing event changes
     * nothing; a fetched event replaces `event`, and its comment items, when
     * present, replace `comments`.
     */
    method FetchCompleted(failed: bool, fetched: Option<Event>)
      modifies this
      ensures failed || fetched.None? ==> event == old(event) && comments == old(comments)
      ensures !failed && fetched.Some? ==> event == fetched
      ensures !failed && fetched.Some? ==>
        comments == match CommentItems(fetched.value) case Some(cs) => cs case None => old(comments)
    {
      if failed {
        return;
      }
      match fetched
      case None =>
      case Some(e) =>
        event := Some(e);
        match CommentItems(e)
        case None =>
        case Some(cs) =>
          comments := cs;
    }

    /**
     * `willMove`: with more than one screen on the navigation stack and an
     * event shown, the list screen below (if it is one) gets the event
     * written into the row it opened, unless that row is nil.
     * `controllersCount` is the stack's size, nil without a navigation
     * controller; `previous` is the screen below, null if it is not the list.
     */
    method WillMove(controllersCount: Option<int>, previous: EventListViewController?)
      requires controllersCount.Some? && controllersCount.value > 1 && event.Some? && previous != null ==>
        0 <= previous.lastOpenedIndex < |previous.eventList|
      modifies previous
      ensures previous != null ==>
        && previous.nextToken == old(previous.nextToken) && previous.isLoadInProgress == old(previous.isLoadInProgress)
        && previous.needUpdateList == old(previous.needUpdateList) && previous.lastOpenedIndex == old(previous.lastOpenedIndex)
      ensures previous != null && controllersCount.Some? && controllersCount.value > 1 && event.Some? ==>
        var i := previous.lastOpenedIndex;
        && |previous.eventList| == |old(previous.eventList)|
        && (forall k :: 0 <= k < |previous.eventList| && k != i ==> previous.eventList[k] == old(previous.eventList[k]))
        && previous.eventList[i] == if old(previous.eventList[i]).Some? then event else None
      ensures previous != null && !(controllersCount.Some? && controllersCount.value > 1 && event.Some?) ==>
        previous.eventList == old(previous.eventList)
    {
      if controllersCount.None? || controllersCount.value <= 1 {
        return;
      }
      match event
      case None =>
      case Some(e) =>
        if previous != null {
          var i := previous.lastOpenedIndex;
          if previous.eventList[i].Some? {
            previous.eventList := previous.eventList[i := Some(e)];
          }
        }
    }
  }
}
