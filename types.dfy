/**
 * The GraphQL result shapes the event app reads from and writes to the
 * client's normalized cache. Every field the generated Swift types make
 * optional is an `Option` here, so that each optional link of the result
 * data is a case the model has to handle.
 */
module Types {
  import opened Wrappers

  /** A comment on an event (`Event.Comment.Item` and its twins). */
  datatype Comment = Comment(eventId: string, commentId: string, content: string, createdAt: string)

  /** The event's comments connection; its `items` list may itself be missing. */
  datatype CommentConnection = CommentConnection(items: Option<seq<Option<Comment>>>)

  /**
   * An event, both as a row of the list query (`ListEventsQuery.Data.ListEvent.Item`)
   * and as the `Event` fragment the details screen shows: the two carry the same fields.
   */
  datatype Event = Event(
    id: string,
    description: string,
    name: string,
    when: string,
    where: string,
    comments: Option<CommentConnection>)

  /** `ListEventsQuery.Data.ListEvent`: one page of events and the cursor to the next page. */
  datatype ListEvents = ListEvents(items: Option<seq<Option<Event>>>, nextToken: Option<string>)

  /** `ListEventsQuery.Data`: the cached result of the list query. */
  datatype ListData = ListData(listEvents: Option<ListEvents>)

  /** The cache policies the app passes to `fetch`. */
  datatype CachePolicy = ReturnCacheDataAndFetch | FetchIgnoringCacheData | ReturnCacheDataDontFetch
}
