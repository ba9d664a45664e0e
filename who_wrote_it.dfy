/** WhoWroteIt's MainActivity: deciding whether a "Search Books" press starts a FetchBook task. */
module WhoWroteIt {
  import opened Wrappers
  import opened BookViews

  /**
   * searchBooks: a FetchBook task is started, and the views left alone, exactly
   * when the network is connected and the query is not empty; otherwise the
   * author text is cleared and the title says why nothing was searched.
   */
  function SearchBooks(queryString: string, networkInfo: Option<NetworkInfo>): (r: SearchOutcome)
    ensures r.started.Some? <==> Connected(networkInfo) && queryString != ""
    ensures r.started.Some? ==> r == SearchOutcome(Some(queryString), None, None)
    ensures queryString == "" ==> r == SearchOutcome(None, Some(Resource(NoSearchTerm)), Some(""))
    ensures queryString != "" && !Connected(networkInfo) ==>
              r == SearchOutcome(None, Some(Resource(NoNetwork)), Some(""))
  {
    if networkInfo.Some? && networkInfo.value.isConnected && |queryString| > 0 then
      SearchOutcome(Some(queryString), None, None)
    else if |queryString| == 0 then
      SearchOutcome(None, Some(Resource(NoSearchTerm)), Some(""))
    else
      SearchOutcome(None, Some(Resource(NoNetwork)), Some(""))
  }
}
