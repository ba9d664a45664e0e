/**
 * RecyclerView: a list of generated words that MainActivity fills and extends
 * and that WordListAdapter shows. Both hold the same LinkedList, so the
 * adapter sees every word the activity appends.
 */
module RecyclerView {
  import opened Decimal

  /** The `LinkedList<String>` shared by the activity and the adapter. */
  class WordList {
    var items: seq<string>

    constructor ()
      ensures items == []
    {
      items := [];
    }

    method AddLast(word: string)
      modifies this
      ensures items == old(items) + [word]
    {
      items := items + [word];
    }
  }

  /** The word onCreate puts at index `i`. */
  function InitialWord(i: int): string
  {
    "Word " + IntToString(i)
  }

  /** The word a fab press adds when the list holds `size` words. */
  function AddedWord(size: int): string
  {
    "+ Word " + IntToString(size)
  }

  /** The twenty words onCreate puts in the list: "Word 0" to "Word 19". */
  function InitialWords(): seq<string>
  {
    seq(20, InitialWord)
  }

  /** The list after onCreate and `clicks` presses of the fab. */
  function WordsAfterClicks(clicks: nat): seq<string>
  {
    if clicks == 0 then InitialWords()
    else WordsAfterClicks(clicks - 1) + [AddedWord(19 + clicks)]
  }

  /**
   * After k presses the list holds 20 + k words: the twenty initial ones, then
   * "+ Word n" at every index n from 20 on.
   */
  lemma {:induction false} WordsAfterClicksShape(clicks: nat)
    ensures |WordsAfterClicks(clicks)| == 20 + clicks
    ensures forall i :: 0 <= i < 20 ==> WordsAfterClicks(clicks)[i] == InitialWord(i)
    ensures forall i :: 20 <= i < 20 + clicks ==> WordsAfterClicks(clicks)[i] == AddedWord(i)
  {
    if clicks > 0 {
      var p := WordsAfterClicks(clicks - 1);
      WordsAfterClicksShape(clicks - 1);
      var w := WordsAfterClicks(clicks);
      assert w == p + [AddedWord(19 + clicks)];
      forall i | 0 <= i < 20
        ensures w[i] == InitialWord(i)
      {
        assert w[i] == p[i];
      }
      forall i | 20 <= i < 20 + clicks
        ensures w[i] == AddedWord(i)
      {
        if i < 19 + clicks {
          assert w[i] == p[i];
        }
      }
    }
  }

  /** "Clicked! " put in front of a text `k` times. */
  function ClickedTimes(k: nat, text: string): string
  {
    if k == 0 then text else "Clicked! " + ClickedTimes(k - 1, text)
  }

  /** k clicks give k prefixes of nine characters each, ahead of the bound text. */
  lemma {:induction false} ClickedTimesShape(k: nat, text: string)
    ensures |ClickedTimes(k, text)| == 9 * k + |text|
    ensures ClickedTimes(k, text)[9 * k..] == text
    ensures forall j :: 0 <= j < k ==> ClickedTimes(k, text)[9 * j..9 * j + 9] == "Clicked! "
  {
    if k > 0 {
      ClickedTimesShape(k - 1, text);
      var r := ClickedTimes(k, text);
      var inner := ClickedTimes(k - 1, text);
      assert r == "Clicked! " + inner;
      forall j | 0 <= j < k
        ensures r[9 * j..9 * j + 9] == "Clicked! "
      {
        if j > 0 {
          assert r[9 * j..9 * j + 9] == inner[9 * (j - 1)..9 * (j - 1) + 9];
        }
      }
    }
  }

  /** One list item's view holder: its TextView text. */
  class WordViewHolder {
    var wordItemView: string
    /** The text last bound to the holder, and the clicks on it since. */
    ghost var boundText: string
    ghost var clicks: nat

    ghost predicate Valid()
      reads this
    {
      wordItemView == ClickedTimes(clicks, boundText)
    }

    constructor ()
      ensures Valid() && wordItemView == ""
    {
      wordItemView := "";
      boundText := "";
      clicks := 0;
    }

    /** onClick: prepends "Clicked! " to the shown text; the word list is not touched. */
    method OnClick()
      requires Valid()
      modifies this
      ensures Valid() && boundText == old(boundText) && clicks == old(clicks) + 1
      ensures wordItemView == "Clicked! " + old(wordItemView)
    {
      wordItemView := "Clicked! " + wordItemView;
      clicks := clicks + 1;
    }
  }

  class WordListAdapter {
    const wordList: WordList

    constructor (wordList: WordList)
      ensures this.wordList == wordList
    {
      this.wordList := wordList;
    }

    function GetItemCount(): int
      reads wordList
    {
      |wordList.items|
    }

    /** onBindViewHolder: the holder shows the word at `position`. */
    method OnBindViewHolder(holder: WordViewHolder, position: int)
      requires 0 <= position < |wordList.items|
      modifies holder
      ensures holder.Valid() && holder.wordItemView == wordList.items[position]
      ensures holder.boundText == wordList.items[position] && holder.clicks == 0
    {
      var mCurrent := wordList.items[position];
      holder.wordItemView := mCurrent;
      holder.boundText := mCurrent;
      holder.clicks := 0;
    }
  }

  class MainActivity {
    var wordListAdapter: WordListAdapter?
    const wordList: WordList
    /** Fab presses since onCreate. */
    ghost var clicks: nat

    ghost predicate Valid()
      reads this, wordList
    {
      wordListAdapter != null && wordListAdapter.wordList == wordList
      && wordList.items == WordsAfterClicks(clicks)
    }

    /** Construction and onCreate: the list gets the twenty initial words and is handed to the adapter. */
    constructor OnCreate()
      ensures Valid() && clicks == 0 && fresh(wordList)
      ensures wordList.items == InitialWords()
    {
      var list := new WordList();
      for i := 0 to 20
        invariant list.items == seq(i, InitialWord)
      {
        list.AddLast("Word " + IntToString(i));
        assert seq(i + 1, InitialWord) == seq(i, InitialWord) + [InitialWord(i)];
      }
      wordList := list;
      wordListAdapter := new WordListAdapter(list);
      clicks := 0;
    }

    /**
     * The adapter's item count follows the shared list: 20 after onCreate and
     * one more for every fab press since.
     */
    lemma ItemCountAfterClicks()
      requires Valid()
      ensures wordListAdapter.GetItemCount() == 20 + clicks
    {
      WordsAfterClicksShape(clicks);
    }

    /**
     * The fab handler: appends "+ Word n", n being the size before the press,
     * leaves the earlier words alone, and notifies and scrolls to index n; the
     * adapter's item count grows by one.
     */
    method OnFabClick() returns (notifiedPosition: int, scrollPosition: int)
      requires Valid()
      modifies this, wordList
      ensures Valid() && wordListAdapter == old(wordListAdapter) && clicks == old(clicks) + 1
      ensures wordList.items == old(wordList.items) + ["+ Word " + IntToString(|old(wordList.items)|)]
      ensures old(wordList.items) <= wordList.items
      ensures notifiedPosition == |old(wordList.items)| && scrollPosition == |old(wordList.items)|
      ensures wordListAdapter.GetItemCount() == old(wordListAdapter.GetItemCount()) + 1
    {
      var wordListSize := |wordList.items|;
      WordsAfterClicksShape(clicks);
      wordList.AddLast("+ Word " + IntToString(wordListSize));
      clicks := clicks + 1;
      notifiedPosition := wordListSize;
      scrollPosition := wordListSize;
    }
  }
}
