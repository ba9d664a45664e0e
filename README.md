# Android teaching apps: verified model of their sequential logic

This project models the sequential logic in a set of small Android teaching apps. UI glue, I/O and the framework calls are left out, and the model's properties are proved in Dafny.

- **WhoWroteIt / WhoWroteItLoader.** Pressing "Search Books" leads to one of three outcomes: a search starts, the "no search term" message, or the "no network" message. The app builds a Books API request from the query. It then scans the response's `items` for a title and an author, and the scan's result decides whether the pair or "no results" is shown.
- **NotificationScheduler.** The controls on screen are turned into a JobInfo: a network type, idle and charging flags, and a periodic or deadline timing. A job is scheduled only if some constraint is set. The scheduler field is set and cleared by "Schedule Job" and "Cancel Jobs".
- **WordListSqlSearchable.** EditWordActivity chooses the id it replies with. MainActivity routes the reply to an insert, an update or nothing. SearchActivity formats the rows that the search returns.
- **RecyclerView.** A word list is filled with twenty words and grows by one word per fab press. An adapter reads the list, and the view holders prepend "Clicked! " on each click.
- **DateTimePickers and PhoneNumberSpinner.** The toast texts for a picked date or time, and the phone label made of the entered number and the selected spinner label.

The response body is modelled as already parsed:
- A body is either `Malformed` or `Items` of items.
- An item is either `NoVolumeInfo` or `VolumeInfo(title, authors)`, and either field may be missing.

Each write to a text view and each toast becomes a returned value. Each call on the database or on the job scheduler is appended to a log field of the activity. A string resource whose text is not given (date, time, no_result) is passed in as a parameter.

The scan follows the code's loop condition `i < length || authors == null && title == null`, not the comment above it:
- It visits every item.
- It overwrites `title` and `authors` independently.
- It throws (`IndexOutOfRange`) when no item has a title.
- It throws (`MissingVolumeInfo`) at the first item without `volumeInfo`.

Both apps run this same loop, and the model defines it once as `BookScan.Scan`.

Modules: `Wrappers` (Option), `Ints` (Kotlin 32-bit `Int` arithmetic), `Decimal` (`Integer.toString`, with a parser as its inverse), `Strings` (splitting at a separator, substring containment), `BookViews` (what the search screens show), then one module per app file: `BookScan`, `FetchBook`, `WhoWroteIt`, `WhoWroteItLoader`, `NotificationScheduler`, `WordListSqlSearchable`, `RecyclerView`, `DateTimePickers`, `PhoneNumberSpinner`.

## Model

| member | source | states |
|---|---|---|
| BookScan.Scan | WhoWroteIt/app/src/main/java/com/example/android/whowroteit/FetchBook.kt:146-168 | The loop ends exactly as `ScanResult` says: at the first item without volumeInfo with that exception; with IndexOutOfRange(length) when no item has a title; otherwise completed with the last title found and the authors of the last item that has both fields |
| BookScan.FirstMissing | WhoWroteIt/app/src/main/java/com/example/android/whowroteit/FetchBook.kt:155 | The index of the first item without volumeInfo (or the length): every earlier item has volumeInfo, and the item at that index does not |
| BookScan.LastTitleIsLast | WhoWroteIt/app/src/main/java/com/example/android/whowroteit/FetchBook.kt:152-168 | The title the scan keeps is the title of the last item that has one, even when a later item has no title |
| BookScan.LastTitleNone | WhoWroteIt/app/src/main/java/com/example/android/whowroteit/FetchBook.kt:152-154 | No title is found if and only if no item has one |
| BookScan.LastAuthorsIsLast | WhoWroteIt/app/src/main/java/com/example/android/whowroteit/FetchBook.kt:159-161 | The authors the scan keeps are those of the last item with both fields; an item that has only a title does not replace them |
| BookScan.LastAuthorsNone | WhoWroteIt/app/src/main/java/com/example/android/whowroteit/FetchBook.kt:159-161 | No authors are found if and only if no item has both fields |
| BookScan.AuthorsImplyTitle | WhoWroteIt/app/src/main/java/com/example/android/whowroteit/FetchBook.kt:159-161 | authors != null implies title != null, because authors are read only after the title read succeeded |
| BookScan.NoTitleReadsPastEnd | WhoWroteIt/app/src/main/java/com/example/android/whowroteit/FetchBook.kt:152-154 | With no title in any item (an empty items array included), the scan reads index length and throws |
| BookScan.MissingVolumeInfoAborts | WhoWroteIt/app/src/main/java/com/example/android/whowroteit/FetchBook.kt:155 | An item without volumeInfo ends the scan with that exception, at it or at an earlier such item, whatever complete items came before |
| BookScan.ScanGoesOnAfterMatch | WhoWroteIt/app/src/main/java/com/example/android/whowroteit/FetchBook.kt:152 | After a complete item the scan goes on: a later item with only a title replaces the title and keeps the earlier authors |
| BookScan.LastCompleteWins | WhoWroteIt/app/src/main/java/com/example/android/whowroteit/FetchBook.kt:152-168 | When every item has volumeInfo and the last one is complete, that item's pair is the result |
| BookScan.FirstComplete | WhoWroteIt/app/src/main/java/com/example/android/whowroteit/FetchBook.kt:150-151 | The index of the first item that has both fields (or the length): no earlier item has both, and that item does |
| BookScan.MismatchedPairAsWritten | WhoWroteIt/app/src/main/java/com/example/android/whowroteit/FetchBook.kt:152-168 | Items (A, X) and (B, no authors) complete with the pair (B, X), which no item has |
| BookScan.ScanFirstMatch | WhoWroteIt/app/src/main/java/com/example/android/whowroteit/FetchBook.kt:150-151 | The first-match loop never reads past the end. It reports a pair if and only if a complete item comes before any item without volumeInfo, and that pair is the first complete item's |
| FetchBook.BuiltUri | WhoWroteIt/app/src/main/java/com/example/android/whowroteit/FetchBook.kt:64-75 | The request is the Books API base with exactly three parameters, in order: q = the query, maxResults = 10, printType = books |
| FetchBook.RequestParameters | WhoWroteIt/app/src/main/java/com/example/android/whowroteit/FetchBook.kt:66-75 | Looking up q, maxResults and printType in the request gives the query, "10" and "books" |
| FetchBook.OnPostExecute | WhoWroteIt/app/src/main/java/com/example/android/whowroteit/FetchBook.kt:137-187 | Title and authors are shown and the input is cleared if and only if the body has items, all of them have volumeInfo, and some item has both fields. Otherwise (a malformed body and both exceptions included) the view shows no_results with the author text empty |
| WhoWroteIt.SearchBooks | WhoWroteIt/app/src/main/java/com/example/android/whowroteit/MainActivity.kt:48-73 | A FetchBook task starts with the query if and only if the network is connected and the query is non-empty, and then the views are left alone. An empty query gives no_search_term and a non-empty query without network gives no_network; both clear the author text |
| WhoWroteItLoader.SearchBooks | WhoWroteItLoader/app/src/main/java/com/example/android/whowroteit/MainActivity.kt:67-97 | The loader restarts with the query if and only if the network is connected and the query is non-empty, and then the title shows loading. An empty query gives no_search_term and no network gives no_network. Every branch clears the author text |
| WhoWroteItLoader.GatingAgreesWithAsyncTask | WhoWroteItLoader/app/src/main/java/com/example/android/whowroteit/MainActivity.kt:82-96 | Both versions start a search in exactly the same cases, and when no search starts they show the same views |
| WhoWroteItLoader.OnLoadFinished | WhoWroteItLoader/app/src/main/java/com/example/android/whowroteit/MainActivity.kt:121-169 | The same scan and the same outcome as onPostExecute: the pair is shown if and only if both values are non-null; otherwise no_results with the author text empty |
| NotificationScheduler.SeekBarMillisExact | NotificationScheduler/app/src/main/java/com/example/android/notificationscheduler/MainActivity.kt:110 | The period or deadline in milliseconds is the progress times 1000 whenever that product fits in an Int |
| NotificationScheduler.ProgressLabel | NotificationScheduler/app/src/main/java/com/example/android/notificationscheduler/MainActivity.kt:59-64 | The label shows the progress if and only if it is above 0, and not_set otherwise |
| NotificationScheduler.PeriodicSwitchLabel | NotificationScheduler/app/src/main/java/com/example/android/notificationscheduler/MainActivity.kt:48-54 | The seek bar's title reads periodic_interval if and only if the periodic switch is on, and override_deadline if and only if it is off |
| NotificationScheduler.MainActivity.ScheduleJob | NotificationScheduler/app/src/main/java/com/example/android/notificationscheduler/MainActivity.kt:83-133 | mScheduler is always set. Exactly one job is scheduled, carrying the mapped network type, the idle and charging flags and the timing, if and only if a constraint is set. The no_interval toast comes first when the job is periodic and progress is 0, then job_scheduled or no_constraint |
| NotificationScheduler.MainActivity.CancelJobs | NotificationScheduler/app/src/main/java/com/example/android/notificationscheduler/MainActivity.kt:138-144 | Does nothing without a scheduler. Otherwise it cancels all jobs once, resets the field and shows the toast |
| NotificationScheduler.MainActivity.CancelJobsTwice | NotificationScheduler/app/src/main/java/com/example/android/notificationscheduler/MainActivity.kt:138-144 | A second cancel does nothing: two presses cancel at most once |
| NotificationScheduler.PeriodicWithoutIntervalStillSchedules | NotificationScheduler/app/src/main/java/com/example/android/notificationscheduler/MainActivity.kt:108-129 | Periodic on with progress 0 shows no_interval and still schedules a job without timing when charging is required |
| WordListSqlSearchable.MainActivity.OnActivityResult | WordListSqlSearchable/app/src/main/java/com/android/example/wordlistsqlsearchable/MainActivity.kt:96-122 | The reply intent is declared non-null, so a reply without one (RESULT_CANCELED after Back) throws on entry and changes nothing. Otherwise only an OK reply to WORD_EDIT is acted on. An empty word gives the empty_word_not_saved toast and no database call. Otherwise id -1 inserts the word, id >= 0 updates it, and any other id (the -99 default included) makes no call. The adapter is notified in these three cases, and at most one call is made |
| WordListSqlSearchable.EditWordActivity.constructor | WordListSqlSearchable/app/src/main/java/com/android/example/wordlistsqlsearchable/EditWordActivity.kt:32 | mId starts as WORD_ADD and the edit field as empty |
| WordListSqlSearchable.EditWordActivity.OnCreate | WordListSqlSearchable/app/src/main/java/com/android/example/wordlistsqlsearchable/EditWordActivity.kt:34-50 | mId and the text are adopted only when extras were passed, the id is not NO_ID and the word is not the NO_WORD default; otherwise both stay as they were |
| WordListSqlSearchable.EditWordActivity.ReturnReply | WordListSqlSearchable/app/src/main/java/com/android/example/wordlistsqlsearchable/EditWordActivity.kt:57-65 | The result is RESULT_OK, with the current text under EXTRA_REPLY and the current mId under EXTRA_ID |
| WordListSqlSearchable.AddWordFromFab | WordListSqlSearchable/app/src/main/java/com/android/example/wordlistsqlsearchable/EditWordActivity.kt:32-65 | A reply from an activity started without extras inserts a non-empty word exactly once and never updates anything |
| WordListSqlSearchable.BackFromEdit | WordListSqlSearchable/app/src/main/java/com/android/example/wordlistsqlsearchable/EditWordActivity.kt:57-65 | Leaving the edit screen with Back sets no result, so the cancelled reply has no intent and onActivityResult throws at MainActivity.kt:96 without touching the database |
| WordListSqlSearchable.ListingAppend | WordListSqlSearchable/app/src/main/java/com/android/example/wordlistsqlsearchable/SearchActivity.kt:61 | Appending a row extends the listing by that row and a newline |
| WordListSqlSearchable.ListingSplitsIntoRows | WordListSqlSearchable/app/src/main/java/com/android/example/wordlistsqlsearchable/SearchActivity.kt:55-62 | Cutting the listing at its newlines gives back the rows in cursor order, each exactly once, followed by an empty remainder |
| WordListSqlSearchable.ShowResult | WordListSqlSearchable/app/src/main/java/com/android/example/wordlistsqlsearchable/SearchActivity.kt:42-67 | The text is "Result for " + word + ":\n\n", followed by every row of the search for the unchanged word when there are rows, and by the no_result text otherwise. The cursor is closed only on the path with rows |
| RecyclerView.WordsAfterClicksShape | RecyclerView/app/src/main/java/com/example/android/recyclerview/MainActivity.kt:42-58 | After k presses the list holds 20 + k words: "Word i" at each index i < 20 and "+ Word n" at each index n >= 20 |
| RecyclerView.ClickedTimesShape | RecyclerView/app/src/main/java/com/example/android/recyclerview/WordListAdapter.kt:86-90 | k clicks leave k "Clicked! " prefixes ahead of the bound text |
| RecyclerView.WordViewHolder.OnClick | RecyclerView/app/src/main/java/com/example/android/recyclerview/WordListAdapter.kt:86-90 | A click prepends "Clicked! " to the shown text and touches only the holder |
| RecyclerView.WordListAdapter.OnBindViewHolder | RecyclerView/app/src/main/java/com/example/android/recyclerview/WordListAdapter.kt:56-61 | Binding position p (0 <= p < size) shows wordList[p] |
| RecyclerView.MainActivity.OnCreate | RecyclerView/app/src/main/java/com/example/android/recyclerview/MainActivity.kt:35-47 | The list holds "Word 0" to "Word 19", and the adapter shares that list |
| RecyclerView.MainActivity.OnFabClick | RecyclerView/app/src/main/java/com/example/android/recyclerview/MainActivity.kt:55-63 | Appends exactly "+ Word n", n being the size before the press. The old list is a prefix of the new one, the notified and scroll positions are n, and the adapter's item count grows by one |
| RecyclerView.MainActivity.ItemCountAfterClicks | RecyclerView/app/src/main/java/com/example/android/recyclerview/WordListAdapter.kt:68-70 | The adapter's item count is the size of the shared list: 20 after onCreate plus one per fab press |
| DateTimePickers.DateToastFields | DateTimePickers/app/src/main/java/com/example/android/DateTimePickers/MainActivity.kt:49-57 | The toast is the date prefix and then three "/"-separated decimal fields, which read back as month + 1, the day and the year |
| DateTimePickers.DateToastMonth | DateTimePickers/app/src/main/java/com/example/android/DateTimePickers/MainActivity.kt:50-52 | For a picker month 0..11, the toast's first field reads back as the month counted from 1, without wrap-around |
| DateTimePickers.TimeToastFields | DateTimePickers/app/src/main/java/com/example/android/DateTimePickers/MainActivity.kt:60-66 | The toast is the time prefix and then two ":"-separated decimal fields, which read back as the hour and the minute |
| DateTimePickers.NineFive | DateTimePickers/app/src/main/java/com/example/android/DateTimePickers/MainActivity.kt:62-65 | There is no zero padding: 9 hours 5 minutes is "9:5" |
| Decimal.ParseIntToString | DateTimePickers/app/src/main/java/com/example/android/DateTimePickers/MainActivity.kt:52-54 | Integer.toString is undone by reading the decimal text back |
| Decimal.NoZeroPadding | DateTimePickers/app/src/main/java/com/example/android/DateTimePickers/MainActivity.kt:52-54 | The first digit of Integer.toString(n) is '0' only when n is 0 |
| Ints.Wrap | NotificationScheduler/app/src/main/java/com/example/android/notificationscheduler/MainActivity.kt:110 | Kotlin Int arithmetic: the result is in 32-bit range, congruent to the exact value modulo 2^32, and equal to it when it fits |
| PhoneNumberSpinner.ShowStringParts | PhoneNumberSpinner/app/src/main/java/com/example/android/phonenumberspinner/MainActivity.kt:69 | The shown string starts with the entered text and contains the spinner label |
| PhoneNumberSpinner.MainActivity.constructor | PhoneNumberSpinner/app/src/main/java/com/example/android/phonenumberspinner/MainActivity.kt:34 | spinnerLabel starts as "" |
| PhoneNumberSpinner.MainActivity.ShowText | PhoneNumberSpinner/app/src/main/java/com/example/android/phonenumberspinner/MainActivity.kt:66-74 | The phone label shows the entered text, " - " and the spinner label |
| PhoneNumberSpinner.MainActivity.OnItemSelected | PhoneNumberSpinner/app/src/main/java/com/example/android/phonenumberspinner/MainActivity.kt:84-87 | spinnerLabel becomes the selected item's text and the display is refreshed at once |
| PhoneNumberSpinner.MainActivity.SelectAndSubmit | PhoneNumberSpinnerEspressoTest/app/src/androidTest/java/com/example/android/phonenumberspinner/SpinnerSelectionTest.kt:61-69 | After item i is selected and submitted, the shown text contains item i |
| PhoneNumberSpinner.MainActivity.IterateSpinnerItems | PhoneNumberSpinnerEspressoTest/app/src/androidTest/java/com/example/android/phonenumberspinner/SpinnerSelectionTest.kt:53-71 | Going through every item in turn, each shown text contains the item selected for it |

## Left out

- Network and stream I/O in doInBackground (the connection, the line-reading loop, the cleanup): the model starts from a body that has already been read.
- JSON parsing and percent-encoding: both are foreign libraries. The body is the abstract `Malformed | Items`, and an item that is not an object is folded into `NoVolumeInfo`, since both reads throw into the same handler. The URI is a base and a list of key/value pairs.
- Threading (AsyncTask, Loader), the connectivity lookup and hiding the keyboard: these are runtime glue. The network state is a parameter.
- The database helper and its search, which are not part of this model: the inserts and updates form a log and the search is a function parameter. BookLoader and WordListSqlSearchable's WordListAdapter are view and loader wiring and are not modelled.
- The JobScheduler and its schedule/cancelAll calls, and the service they start: they are logged as calls, not run.
- Toasts and text view writes: they are returned values. The string resources' texts are not known; date, time and no_result are parameters, the rest are named constants.
- PhoneNumberSpinner.MainActivity.OnNothingSelected: it only writes a log line. It has no modifies clause, so it changes nothing.
- FetchBook.OnPostExecute: a null body (doInBackground returns null after a failed request) is not modelled; whether it reaches the non-null parameter is decided by the AsyncTask runtime.
- The null checks on views (`!!`, `if (x != null)`): the views are assumed present.
- The date and time picker fragments: they are dialogs seeded from the clock.
- SimpleCalc, SimpleAsyncTask and the UI-only apps (AlertSample, DroidCafeWithSettings, ImplicitIntents, ImplicitIntentsReceiver, HelloCompat, MaterialMe, StandUp, TwoActivities, TwoActivitiesLifecycle): floating point, timing or UI wiring only.
- The WhoWroteIt apps and the comment above their loop: the comment describes stopping at the first complete item, but the code does not. The app handlers follow the code, and the first-match version is modelled separately (see Findings).

## Findings

| source | as written | input that shows it | evidently intended | confidence | as-written member | corrected member |
|---|---|---|---|---|---|---|
| WhoWroteIt/app/src/main/java/com/example/android/whowroteit/FetchBook.kt:152 | The loop condition (continue while i < length, or while both title and authors are null) visits every item and overwrites title and authors independently. It can pair one item's title with another item's authors, and it reads past the end when no item has a title | items (title A, authors X), (title B, no authors) show "B" by "X" | stop at the first item with both fields or after the last item (continue only while i < length and one of the two is still null), as the comment at lines 150-151 says | not executed | BookScan.MismatchedPairAsWritten | BookScan.ScanFirstMatch |

The same loop is at WhoWroteItLoader/app/src/main/java/com/example/android/whowroteit/MainActivity.kt:135. The app-level handlers (`FetchBook.OnPostExecute`, `WhoWroteItLoader.OnLoadFinished`) model the behaviour as written, and `BookScan.ScanFirstMatch` models the intended one.
