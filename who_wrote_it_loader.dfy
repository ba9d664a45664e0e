/**
 * WhoWroteItLoader's MainActivity: the same search as WhoWroteIt, run through
 * a loader, with the same scan over the response.
 */
module WhoWroteItLoader {
  import opened Wrappers
  import opened BookScan
  import opened BookViews
  import WhoWroteIt

  /**
   * searchBooks: the loader is restarted with the query exactly when the
   * network is connected and the query is not empty; every branch clears the
   * author text, and a started search shows "loading" as the title.
   */
  function SearchBooks(queryString: string, networkInfo: Option<NetworkInfo>): (r: SearchOutcome)
    ensures r.started.Some? <==> Connected(networkInfo) && |queryString| != 0
    ensures r.started.Some? ==> r.started.value == queryString && r.titleText == Some(Resource(Loading))
    ensures |queryString| == 0 ==> r.titleText == Some(Resource(NoSearchTerm))
    ensures |queryString| != 0 && !Connected(networkInfo) ==> r.titleText == Some(Resource(NoNetwork))
    ensures r.authorText == Some("")
  {
    if networkInfo.Some? && networkInfo.value.isConnected && |queryString| != 0 then
      SearchOutcome(Some(queryString), Some(Resource(Loading)), Some(""))
    else if |queryString| == 0 then
      SearchOutcome(None, Some(Resource(NoSearchTerm)), Some(""))
    else
      SearchOutcome(None, Some(Resource(NoNetwork)), Some(""))
  }

  /**
   * The loader version starts searches in exactly the same cases as the
   * AsyncTask version and shows the same messages when it does not; it differs
   * only in setting the views when a search starts.
   */
  lemma GatingAgreesWithAsyncTask(queryString: string, networkInfo: Option<NetworkInfo>)
    ensures SearchBooks(queryString, networkInfo).started == WhoWroteIt.SearchBooks(queryString, networkInfo).started
    ensures SearchBooks(queryString, networkInfo).started.None? ==>
              SearchBooks(queryString, networkInfo) == WhoWroteIt.SearchBooks(queryString, networkInfo)
  {
  }

  /**
   * onLoadFinished: the same scan as FetchBook.onPostExecute; the pair is shown
   * and the input cleared exactly when both values are non-null, and every
   * other ending, unparseable data included, shows no_results.
   */
  method OnLoadFinished(data: Body) returns (view: ResultView)
    ensures view.inputCleared <==>
              data.Items? && FirstMissing(data.items) == |data.items| && LastAuthors(data.items).Some?
    ensures view.inputCleared ==>
              LastTitle(data.items).Some? &&
              view.titleText == Literal(LastTitle(data.items).value) &&
              view.authorText == LastAuthors(data.items).value
    ensures !view.inputCleared ==> view == NoResultsView
  {
    if data.Malformed? {
      // JSONObject(data) or getJSONArray("items") throws
      view := NoResultsView;
      return;
    }
    var itemsArray := data.items;
    AuthorsImplyTitle(itemsArray);
    var outcome := Scan(itemsArray);
    if outcome.Completed? && outcome.title.Some? && outcome.authors.Some? {
      view := ResultView(Literal(outcome.title.value), outcome.authors.value, true);
    } else {
      // either the else branch or the exception handler: both show no_results
      view := NoResultsView;
    }
  }
}
