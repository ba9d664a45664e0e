/**
 * What the WhoWroteIt screens show: the title and author views, the input
 * field, and the outcome of a "Search Books" press.
 */
module BookViews {
  import opened Wrappers

  /** The text resources these screens show. */
  datatype StringRes = NoResults | NoSearchTerm | NoNetwork | Loading

  /** What a TextView is set to: a literal string or a string resource. */
  datatype Text = Literal(s: string) | Resource(id: StringRes)

  /** The views after a response is handled: title text, author text, and whether the input was cleared. */
  datatype ResultView = ResultView(titleText: Text, authorText: string, inputCleared: bool)

  const NoResultsView := ResultView(Resource(NoResults), "", false)

  /** `connMgr.activeNetworkInfo` when it is not null. */
  datatype NetworkInfo = NetworkInfo(isConnected: bool)

  /**
   * What one press of "Search Books" does: the query a search is started with,
   * if any, and what the title and author views are set to (None: left alone).
   */
  datatype SearchOutcome = SearchOutcome(started: Option<string>, titleText: Option<Text>, authorText: Option<string>)

  /** `networkInfo != null && networkInfo.isConnected`. */
  predicate Connected(networkInfo: Option<NetworkInfo>)
  {
    networkInfo.Some? && networkInfo.value.isConnected
  }
}
