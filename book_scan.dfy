/**
 * The loop that FetchBook.onPostExecute and WhoWroteItLoader's onLoadFinished
 * both run over the `items` array of a Books API response, looking for a title
 * and an author.
 *
 * The loop condition is `i < length || authors == null && title == null`, so
 * the loop does not stop at the first complete item: it visits every item,
 * overwrites `title` and `authors` independently, and when no item has a title
 * it goes on to index `length`, where reading the item throws.
 */
module BookScan {
  import opened Wrappers

  /** One element of `items`, as far as the scan reads it. */
  datatype Item =
    | NoVolumeInfo
    | VolumeInfo(title: Option<string>, authors: Option<string>)

  /** A response body that has been read in full. */
  datatype Body =
    | Malformed                  // not a JSON object, or no `items` array
    | Items(items: seq<Item>)

  /** How the scan loop ends: normally, or by one of the two exceptions it can raise. */
  datatype ScanOutcome =
    | Completed(title: Option<string>, authors: Option<string>)
    | IndexOutOfRange(index: nat)    // `getJSONObject(i)` with `i == length`
    | MissingVolumeInfo(index: nat)  // `getJSONObject("volumeInfo")` on item `index`

  /** `volumeInfo.getString("title")` succeeds on this item. */
  predicate HasTitle(item: Item)
  {
    item.VolumeInfo? && item.title.Some?
  }

  /** Both `getString` calls succeed on this item. */
  predicate HasBoth(item: Item)
  {
    HasTitle(item) && item.authors.Some?
  }

  /** The value of `title` after visiting `s`: the title of the last item that has one. */
  function LastTitle(s: seq<Item>): Option<string>
  {
    if s == [] then None
    else if HasTitle(s[|s| - 1]) then s[|s| - 1].title
    else LastTitle(s[..|s| - 1])
  }

  /** The value of `authors` after visiting `s`: the authors of the last item that has both fields. */
  function LastAuthors(s: seq<Item>): Option<string>
  {
    if s == [] then None
    else if HasBoth(s[|s| - 1]) then s[|s| - 1].authors
    else LastAuthors(s[..|s| - 1])
  }

  /** The index of the first item without `volumeInfo`, or `|s|` if there is none. */
  function FirstMissing(s: seq<Item>): (k: nat)
    ensures k <= |s|
    ensures forall j :: 0 <= j < k ==> s[j].VolumeInfo?
    ensures k < |s| ==> s[k] == NoVolumeInfo
  {
    if s == [] then 0
    else if s[0] == NoVolumeInfo then 0
    else 1 + FirstMissing(s[1..])
  }

  /** How the scan of `items` ends. */
  function ScanResult(items: seq<Item>): ScanOutcome
  {
    if FirstMissing(items) < |items| then MissingVolumeInfo(FirstMissing(items))
    else if LastTitle(items) == None then IndexOutOfRange(|items|)
    else Completed(LastTitle(items), LastAuthors(items))
  }

  /** The loop of FetchBook.kt:146-168 and WhoWroteItLoader's MainActivity.kt:129-151. */
  method Scan(items: seq<Item>) returns (outcome: ScanOutcome)
    ensures outcome == ScanResult(items)
  {
    var i := 0;
    var title: Option<string> := None;
    var authors: Option<string> := None;
    while i < |items| || (authors == None && title == None)
      invariant 0 <= i <= |items|
      invariant forall j :: 0 <= j < i ==> items[j].VolumeInfo?
      invariant title == LastTitle(items[..i])
      invariant authors == LastAuthors(items[..i])
      invariant authors.Some? ==> title.Some?
      decreases |items| - i
    {
      if i == |items| {
        // itemsArray.getJSONObject(length) throws
        assert items[..i] == items;
        return IndexOutOfRange(i);
      }
      var book := items[i];
      if book == NoVolumeInfo {
        // book.getJSONObject("volumeInfo") throws
        return MissingVolumeInfo(i);
      }
      assert items[..i + 1][..i] == items[..i];
      // title is read first; authors only when that read succeeded
      if book.title.Some? {
        title := book.title;
        if book.authors.Some? {
          authors := book.authors;
        }
      }
      i := i + 1;
    }
    assert items[..i] == items;
    outcome := Completed(title, authors);
  }

  /** The title that the scan ends with is the title of the last item that has one. */
  lemma {:induction false} LastTitleIsLast(s: seq<Item>, j: nat)
    requires j < |s| && HasTitle(s[j])
    requires forall k :: j < k < |s| ==> !HasTitle(s[k])
    ensures LastTitle(s) == s[j].title
  {
    if j < |s| - 1 {
      var p := s[..|s| - 1];
      assert forall k :: j < k < |p| ==> p[k] == s[k];
      LastTitleIsLast(p, j);
    }
  }

  /** No title is found exactly when no item has one. */
  lemma {:induction false} LastTitleNone(s: seq<Item>)
    ensures LastTitle(s) == None <==> forall j :: 0 <= j < |s| ==> !HasTitle(s[j])
  {
    if s != [] {
      var p := s[..|s| - 1];
      LastTitleNone(p);
      assert forall j :: 0 <= j < |p| ==> p[j] == s[j];
    }
  }

  /** The authors that the scan ends with are those of the last item that has both fields. */
  lemma {:induction false} LastAuthorsIsLast(s: seq<Item>, j: nat)
    requires j < |s| && HasBoth(s[j])
    requires forall k :: j < k < |s| ==> !HasBoth(s[k])
    ensures LastAuthors(s) == s[j].authors
  {
    if j < |s| - 1 {
      var p := s[..|s| - 1];
      assert forall k :: j < k < |p| ==> p[k] == s[k];
      LastAuthorsIsLast(p, j);
    }
  }

  /** No authors are found exactly when no item has both fields. */
  lemma {:induction false} LastAuthorsNone(s: seq<Item>)
    ensures LastAuthors(s) == None <==> forall j :: 0 <= j < |s| ==> !HasBoth(s[j])
  {
    if s != [] {
      var p := s[..|s| - 1];
      LastAuthorsNone(p);
      assert forall j :: 0 <= j < |p| ==> p[j] == s[j];
    }
  }

  /** `authors != null` implies `title != null`: authors are read only after a title. */
  lemma {:induction false} AuthorsImplyTitle(s: seq<Item>)
    ensures LastAuthors(s).Some? ==> LastTitle(s).Some?
  {
    if s != [] && !HasTitle(s[|s| - 1]) {
      AuthorsImplyTitle(s[..|s| - 1]);
    }
  }

  /** With no item carrying a title (an empty `items` array included), the scan reads past the end. */
  lemma NoTitleReadsPastEnd(items: seq<Item>)
    requires forall j :: 0 <= j < |items| ==> items[j].VolumeInfo? && items[j].title.None?
    ensures ScanResult(items) == IndexOutOfRange(|items|)
  {
    LastTitleNone(items);
  }

  /** An item without `volumeInfo` ends the scan with the exception, whatever came before it. */
  lemma MissingVolumeInfoAborts(items: seq<Item>, j: nat)
    requires j < |items| && items[j] == NoVolumeInfo
    ensures ScanResult(items).MissingVolumeInfo?
    ensures ScanResult(items).index <= j
  {
  }

  /**
   * The scan does not stop at a complete item: a later item that has only a
   * title replaces the title and keeps the earlier item's authors.
   */
  lemma ScanGoesOnAfterMatch(s: seq<Item>, t: string)
    requires FirstMissing(s) == |s| && LastAuthors(s).Some?
    ensures ScanResult(s + [VolumeInfo(Some(t), None)]) == Completed(Some(t), LastAuthors(s))
  {
    var s' := s + [VolumeInfo(Some(t), None)];
    assert s'[..|s'| - 1] == s;
    assert forall j :: 0 <= j < |s'| ==> s'[j].VolumeInfo?;
  }

  /**
   * In a response whose items all have `volumeInfo`, a complete last item is
   * what the scan ends with, however many complete items come before it.
   */
  lemma LastCompleteWins(items: seq<Item>, t: string, a: string)
    requires FirstMissing(items) == |items|
    requires |items| > 0 && items[|items| - 1] == VolumeInfo(Some(t), Some(a))
    ensures ScanResult(items) == Completed(Some(t), Some(a))
  {
  }

  // ---------------------------------------------------------------------------
  // The scan the comment at FetchBook.kt:150-151 describes: stop at the first
  // item with both fields, or when all items have been checked.
  // ---------------------------------------------------------------------------

  /** The index of the first item with both fields, or `|s|` if there is none. */
  function FirstComplete(s: seq<Item>): (k: nat)
    ensures k <= |s|
    ensures forall j :: 0 <= j < k ==> !HasBoth(s[j])
    ensures k < |s| ==> HasBoth(s[k])
  {
    if s == [] then 0
    else if HasBoth(s[0]) then 0
    else 1 + FirstComplete(s[1..])
  }

  /**
   * The as-written scan can pair a title with another item's authors: here the
   * outcome pairs "B" with "X", and no item has that pair.
   */
  lemma MismatchedPairAsWritten()
    ensures var items := [VolumeInfo(Some("A"), Some("X")), VolumeInfo(Some("B"), None)];
            && ScanResult(items) == Completed(Some("B"), Some("X"))
            && forall j :: 0 <= j < |items| ==> items[j] != VolumeInfo(Some("B"), Some("X"))
  {
    var items := [VolumeInfo(Some("A"), Some("X")), VolumeInfo(Some("B"), None)];
    assert items[..1] == [VolumeInfo(Some("A"), Some("X"))];
  }

  /**
   * The loop with the condition `i < length && (authors == null || title == null)`:
   * it reports a pair exactly when a complete item comes before any item without
   * `volumeInfo`, the pair is that first complete item's, and an empty or
   * title-less `items` array ends normally instead of reading past the end.
   */
  method ScanFirstMatch(items: seq<Item>) returns (outcome: ScanOutcome)
    ensures !outcome.IndexOutOfRange?
    ensures outcome.MissingVolumeInfo? <==> FirstMissing(items) < FirstComplete(items)
    ensures outcome.Completed? && outcome.authors.Some? <==> FirstComplete(items) < FirstMissing(items)
    ensures outcome.Completed? && outcome.authors.Some? ==>
              outcome.title == items[FirstComplete(items)].title &&
              outcome.authors == items[FirstComplete(items)].authors
  {
    var i := 0;
    var title: Option<string> := None;
    var authors: Option<string> := None;
    while i < |items| && (authors == None || title == None)
      invariant 0 <= i <= |items|
      invariant forall j :: 0 <= j < i ==> items[j].VolumeInfo?
      invariant authors == None ==> forall j :: 0 <= j < i ==> !HasBoth(items[j])
      invariant authors.Some? ==>
                  0 < i && FirstComplete(items) == i - 1 &&
                  title == items[i - 1].title && authors == items[i - 1].authors
      decreases |items| - i
    {
      var book := items[i];
      if book == NoVolumeInfo {
        return MissingVolumeInfo(i);
      }
      if book.title.Some? {
        title := book.title;
        if book.authors.Some? {
          authors := book.authors;
        }
      }
      i := i + 1;
    }
    outcome := Completed(title, authors);
  }
}
