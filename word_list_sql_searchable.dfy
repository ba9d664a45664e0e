/**
 * WordListSqlSearchable: adding and editing words (EditWordActivity and the
 * reply handling in MainActivity) and listing search results (SearchActivity).
 * The database helper is not modelled beyond the calls made on it.
 */
module WordListSqlSearchable {
  import opened Wrappers
  import opened Strings

  const WORD_EDIT := 1
  const WORD_ADD := -1
  /** `Activity.RESULT_OK`. */
  const RESULT_OK := -1
  /** `Activity.RESULT_CANCELED`: what an activity finished without `setResult` reports. */
  const RESULT_CANCELED := 0
  /** EditWordActivity's default for a missing id extra, and MainActivity's for a missing reply id. */
  const NO_ID := -99
  const EXTRA_REPLY := "com.example.android.wordlistsql.REPLY"

  /** A mutating call on the database helper. */
  datatype DbCall = Insert(word: string) | Update(id: int, word: string)

  datatype Toast = EmptyWordNotSaved

  /**
   * The extras of a reply intent: the EXTRA_REPLY string and the EXTRA_ID int,
   * each absent (None) or present.
   */
  datatype Reply = Reply(word: Option<string>, id: Option<int>)

  /**
   * The extras EditWordActivity is started with. `word` is None when
   * `getString(EXTRA_WORD, NO_WORD)` hands back the NO_WORD default itself,
   * which is what the identity test `word !== NO_WORD` rejects.
   */
  datatype Extras = Extras(id: Option<int>, word: Option<string>)

  /** `TextUtils.isEmpty`: null or the empty string. */
  predicate IsEmpty(word: Option<string>)
  {
    word.None? || word.value == ""
  }

  class MainActivity {
    /** The insert and update calls made on `mDB`, oldest first. */
    var dbCalls: seq<DbCall>
    /** How often `mAdapter.notifyDataSetChanged()` was called. */
    var adapterNotifications: nat

    constructor ()
      ensures dbCalls == [] && adapterNotifications == 0
    {
      dbCalls := [];
      adapterNotifications := 0;
    }

    /**
     * onActivityResult: the reply intent is declared non-null, so a reply
     * without an intent (RESULT_CANCELED after Back) throws on entry and
     * changes nothing. Otherwise only an OK reply to WORD_EDIT is acted on. An
     * empty word is not saved; otherwise id WORD_ADD inserts, an id of zero or
     * more updates, any other id (the -99 default included) changes nothing in
     * the database, and in all three cases the adapter is notified.
     */
    method OnActivityResult(requestCode: int, resultCode: int, data: Option<Reply>)
      returns (crashed: bool, toast: Option<Toast>)
      modifies this
      ensures crashed <==> data.None?
      ensures crashed || requestCode != WORD_EDIT || resultCode != RESULT_OK ==>
                dbCalls == old(dbCalls) && adapterNotifications == old(adapterNotifications) && toast == None
      ensures !crashed && requestCode == WORD_EDIT && resultCode == RESULT_OK && IsEmpty(data.value.word) ==>
                dbCalls == old(dbCalls) && adapterNotifications == old(adapterNotifications)
                && toast == Some(EmptyWordNotSaved)
      ensures !crashed && requestCode == WORD_EDIT && resultCode == RESULT_OK && !IsEmpty(data.value.word) ==>
                var id := data.value.id.GetOr(NO_ID);
                && toast == None
                && adapterNotifications == old(adapterNotifications) + 1
                && dbCalls == old(dbCalls) + (if id == WORD_ADD then [Insert(data.value.word.value)]
                                               else if id >= 0 then [Update(id, data.value.word.value)]
                                               else [])
    {
      toast := None;
      crashed := false;
      if data.None? {
        // the parameter null check throws before the body runs
        crashed := true;
        return;
      }
      if requestCode == WORD_EDIT {
        if resultCode == RESULT_OK {
          var word := data.value.word;
          if !IsEmpty(word) {
            var id := data.value.id.GetOr(NO_ID);
            if id == WORD_ADD {
              dbCalls := dbCalls + [Insert(word.value)];
            } else if id >= 0 {
              dbCalls := dbCalls + [Update(id, word.value)];
            }
            adapterNotifications := adapterNotifications + 1;
          } else {
            toast := Some(EmptyWordNotSaved);
          }
        }
      }
    }
  }

  class EditWordActivity {
    var mId: int
    /** The text of the `edit_word` field. */
    var editWord: string

    constructor ()
      ensures mId == WORD_ADD && editWord == ""
    {
      mId := WORD_ADD;
      editWord := "";
    }

    /**
     * onCreate: the id and the word are taken over only when both were passed
     * (id not NO_ID, word not the NO_WORD default); otherwise nothing changes.
     */
    method OnCreate(extras: Option<Extras>)
      modifies this
      ensures extras.Some? && extras.value.id.GetOr(NO_ID) != NO_ID && extras.value.word.Some? ==>
                mId == extras.value.id.value && editWord == extras.value.word.value
      ensures !(extras.Some? && extras.value.id.GetOr(NO_ID) != NO_ID && extras.value.word.Some?) ==>
                mId == old(mId) && editWord == old(editWord)
    {
      if extras.Some? {
        var id := extras.value.id.GetOr(NO_ID);
        var word := extras.value.word;
        if id != NO_ID && word.Some? {
          mId := id;
          editWord := word.value;
        }
      }
    }

    /** returnReply: RESULT_OK with the field's text under EXTRA_REPLY and `mId` under EXTRA_ID. */
    method ReturnReply() returns (resultCode: int, reply: Reply)
      ensures resultCode == RESULT_OK
      ensures reply.word == Some(editWord) && reply.id == Some(mId)
    {
      var word := editWord;
      reply := Reply(Some(word), Some(mId));
      resultCode := RESULT_OK;
    }
  }

  /**
   * The fab path: EditWordActivity started without extras, a word typed and
   * saved. The reply carries WORD_ADD, so a non-empty word is inserted and
   * nothing is ever updated.
   */
  method AddWordFromFab(main: MainActivity, typed: string) returns (toast: Option<Toast>)
    modifies main
    ensures typed != "" ==> main.dbCalls == old(main.dbCalls) + [Insert(typed)] && toast == None
    ensures typed == "" ==> main.dbCalls == old(main.dbCalls) && toast == Some(EmptyWordNotSaved)
  {
    var edit := new EditWordActivity();
    edit.OnCreate(None);
    edit.editWord := typed;
    var resultCode, reply := edit.ReturnReply();
    var crashed;
    crashed, toast := main.OnActivityResult(WORD_EDIT, resultCode, Some(reply));
  }

  /**
   * Back pressed on the edit screen: returnReply never runs, so no result is
   * set, the reply is RESULT_CANCELED without an intent, and onActivityResult
   * throws on its non-null parameter; the database is untouched.
   */
  method BackFromEdit(main: MainActivity) returns (crashed: bool)
    modifies main
    ensures crashed
    ensures main.dbCalls == old(main.dbCalls)
  {
    var toast;
    crashed, toast := main.OnActivityResult(WORD_EDIT, RESULT_CANCELED, None);
  }

  /** The text the search lists for the rows it found: each row followed by a newline. */
  function Listing(rows: seq<string>): string
  {
    if rows == [] then "" else rows[0] + "\n" + Listing(rows[1..])
  }

  lemma {:induction false} ListingAppend(rows: seq<string>, row: string)
    ensures Listing(rows + [row]) == Listing(rows) + row + "\n"
  {
    if rows != [] {
      assert (rows + [row])[1..] == rows[1..] + [row];
      ListingAppend(rows[1..], row);
    }
  }

  /**
   * Every row appears in the listing exactly once and in cursor order: cutting
   * the listing at its newlines gives the rows back, then the empty rest.
   */
  lemma {:induction false} ListingSplitsIntoRows(rows: seq<string>)
    requires forall i :: 0 <= i < |rows| ==> '\n' !in rows[i]
    ensures Split(Listing(rows), '\n') == rows + [""]
  {
    if rows != [] {
      SplitAfter(rows[0], '\n', Listing(rows[1..]));
      ListingSplitsIntoRows(rows[1..]);
      assert [rows[0]] + rows[1..] == rows;
    }
  }

  function Header(word: string): string
  {
    "Result for " + word + ":\n\n"
  }

  /**
   * SearchActivity.showResult, with `search` standing for `mDB.search` and
   * `noResult` for the no_result string. The text is the header, then either
   * every row of the cursor or, with no rows, the no_result text; the cursor
   * is closed only when it had rows.
   */
  method ShowResult(word: string, search: string -> seq<string>, noResult: string)
    returns (searchResult: string, cursorClosed: bool)
    ensures searchResult == Header(word) + (if |search(word)| > 0 then Listing(search(word)) else noResult)
    ensures cursorClosed <==> |search(word)| > 0
  {
    searchResult := "Result for " + word + ":\n\n";
    var cursor := search(word);
    var position := 0;
    cursorClosed := false;
    if |cursor| > 0 {
      var more := true;
      while more
        invariant 0 <= position < |cursor|
        invariant more ==> searchResult == Header(word) + Listing(cursor[..position])
        invariant !more ==> position == |cursor| - 1 && searchResult == Header(word) + Listing(cursor)
        decreases |cursor| - position, more
      {
        var result := cursor[position];
        ListingAppend(cursor[..position], result);
        assert cursor[..position] + [result] == cursor[..position + 1];
        searchResult := searchResult + (result + "\n");
        // cursor.moveToNext()
        if position + 1 < |cursor| {
          position := position + 1;
        } else {
          more := false;
          assert cursor[..position + 1] == cursor;
        }
      }
      cursorClosed := true;
    } else {
      searchResult := searchResult + noResult;
    }
  }
}
