/**
 * WhoWroteIt's FetchBook task: the request it builds from the search string,
 * and what it shows once the response body has been read.
 */
module FetchBook {
  import opened Wrappers
  import opened BookScan
  import opened BookViews

  const BOOK_BASE_URL := "https://www.googleapis.com/books/v1/volumes?"
  const QUERY_PARAM := "q"
  const MAX_RESULTS := "maxResults"
  const PRINT_TYPE := "printType"

  /** A URI as a base and its query parameters in order (percent-encoding is not modelled). */
  datatype Uri = Uri(base: string, query: seq<(string, string)>) {

    /** `appendQueryParameter(key, value)`. */
    function AppendQueryParameter(key: string, value: string): Uri
    {
      this.(query := query + [(key, value)])
    }
  }

  /** `Uri.parse(base).buildUpon()`: a base without parameters. */
  function ParseUri(base: string): Uri
  {
    Uri(base, [])
  }


  /** The value of the first parameter named `key`. */
  function Lookup(parameters: seq<(string, string)>, key: string): Option<string>
  {
    if parameters == [] then None
    else if parameters[0].0 == key then Some(parameters[0].1)
    else Lookup(parameters[1..], key)
  }

  /** The builder chain of doInBackground. */
  function BuiltUri(queryString: string): (u: Uri)
    ensures u.base == BOOK_BASE_URL
    ensures u.query == [(QUERY_PARAM, queryString), (MAX_RESULTS, "10"), (PRINT_TYPE, "books")]
  {
    ParseUri(BOOK_BASE_URL)
      .AppendQueryParameter(QUERY_PARAM, queryString)
      .AppendQueryParameter(MAX_RESULTS, "10")
      .AppendQueryParameter(PRINT_TYPE, "books")
  }

  /** The search string, the result cap and the print filter can each be read back from the request. */
  lemma RequestParameters(queryString: string)
    ensures Lookup(BuiltUri(queryString).query, "q") == Some(queryString)
    ensures Lookup(BuiltUri(queryString).query, "maxResults") == Some("10")
    ensures Lookup(BuiltUri(queryString).query, "printType") == Some("books")
    ensures |BuiltUri(queryString).query| == 3
  {
    var q := BuiltUri(queryString).query;
    assert q[1..] == [(MAX_RESULTS, "10"), (PRINT_TYPE, "books")];
    assert q[1..][1..] == [(PRINT_TYPE, "books")];
    assert Lookup(q[1..], "printType") == Lookup(q[1..][1..], "printType");
  }

  /**
   * onPostExecute: parse the body, scan the items, and show the pair when both
   * are non-null; every other ending, the exceptions included, shows no_results.
   */
  method OnPostExecute(s: Body) returns (view: ResultView)
    ensures view.inputCleared <==>
              s.Items? && FirstMissing(s.items) == |s.items| && LastAuthors(s.items).Some?
    ensures view.inputCleared ==>
              LastTitle(s.items).Some? &&
              view.titleText == Literal(LastTitle(s.items).value) &&
              view.authorText == LastAuthors(s.items).value
    ensures !view.inputCleared ==> view == NoResultsView
  {
    match s {
      case Malformed =>
        // JSONObject(s) or getJSONArray("items") throws
        view := NoResultsView;
      case Items(itemsArray) =>
        AuthorsImplyTitle(itemsArray);
        var outcome := Scan(itemsArray);
        match outcome {
          case Completed(title, authors) =>
            if title.Some? && authors.Some? {
              view := ResultView(Literal(title.value), authors.value, true);
            } else {
              view := NoResultsView;
            }
          case IndexOutOfRange(_) =>
            view := NoResultsView;
          case MissingVolumeInfo(_) =>
            view := NoResultsView;
        }
    }
  }
}
