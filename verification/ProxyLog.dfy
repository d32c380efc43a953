/** The record of a proxied request, its token usage and the queue that receives it. */
module ProxyLog {
  import opened ByteStrings

  datatype UsageTokens = UsageTokens(
    promptTokens: Option<int>,
    completionTokens: Option<int>,
    totalTokens: Option<int>,
    cachedTokens: Option<int>)

  const NO_USAGE := UsageTokens(None, None, None, None)

  /** Clock readings and the descriptive fields copied unchanged are not modelled. */
  datatype ProxyEvent = ProxyEvent(
    requestId: nat,
    status: string,
    errorMessage: Option<string>,
    promptTokens: Option<int>,
    completionTokens: Option<int>,
    totalTokens: Option<int>,
    cachedTokens: Option<int>,
    responseBodySize: Option<int>)

  function Or<T>(a: Option<T>, b: Option<T>): Option<T> {
    if a.Some? then a else b
  }

  /** Usage replaces the seeded counts, except that a missing prompt count keeps the estimate. */
  function Attribute(event: ProxyEvent, usage: UsageTokens): ProxyEvent {
    event.(promptTokens := Or(usage.promptTokens, event.promptTokens),
           completionTokens := usage.completionTokens,
           totalTokens := usage.totalTokens,
           cachedTokens := usage.cachedTokens)
  }

  class LogManager {
    var records: seq<ProxyEvent>

    constructor ()
      ensures records == []
    {
      records := [];
    }

    method LogProxy(event: ProxyEvent)
      modifies this
      ensures records == old(records) + [event]
    {
      records := records + [event];
    }
  }
}
