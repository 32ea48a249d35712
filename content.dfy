/** `Content`: the content currently played at the point of interest. */
module Contents {
  import opened Wrappers
  import opened JsValues
  import CM = ContentMessages

  datatype Content = Content(
    poi: int,
    localTimestamp: real,
    /** The event name ("start", "end", ...). */
    event: string,
    contentId: string,
    contentPlayId: string,
    personPutIds: Option<Json>)
  {
    /** `clone`: a new content with the same field values. */
    function Clone(): (r: Content)
      ensures r.poi == poi && r.localTimestamp == localTimestamp && r.event == event
      ensures r.contentId == contentId && r.contentPlayId == contentPlayId
      ensures r.personPutIds == personPutIds
    {
      Content(poi, localTimestamp, event, contentId, contentPlayId, personPutIds)
    }
  }

  /** `fromMessage`: the event is the message's `name`. */
  function FromMessage(m: CM.ContentMessage): (r: Content)
    ensures r.poi == m.poi && r.localTimestamp == m.localTimestamp && r.event == m.name
    ensures r.contentId == m.contentId && r.contentPlayId == m.contentPlayId
    ensures r.personPutIds == m.personPutIds
  {
    Content(m.poi, m.localTimestamp, m.name, m.contentId, m.contentPlayId, m.personPutIds)
  }
}
