/**
 * The post history of src/hooks/useAutoPost.ts: newest entry first, at most
 * one hundred entries, loaded once from storage when the hook starts.
 */
module History {
  import opened Wrappers

  /** One successfully posted group. */
  datatype HistoryItem = HistoryItem(
    id: string,           // the remote post id
    text: string,         // the exact text that was posted
    timestamp: string,    // the capture instant, ISO-8601
    postUrl: string,
    thumbnail: string)

  const MaxHistory: nat := 100

  /** `addToHistory`: `[item, ...prev].slice(0, MAX_HISTORY)`. */
  function Added(prev: seq<HistoryItem>, item: HistoryItem): (h: seq<HistoryItem>)
    ensures |h| == Min(|prev| + 1, MaxHistory)
    ensures h[0] == item
    ensures h[1..] == prev[..|h| - 1]
  {
    var newHistory := [item] + prev;
    var h := newHistory[..Min(|newHistory|, MaxHistory)];
    assert h[1..] == newHistory[1..|h|];
    h
  }

  /** `addToHistory` called once per item, in order. */
  function AddedAll(prev: seq<HistoryItem>, items: seq<HistoryItem>): seq<HistoryItem> {
    if items == [] then prev else Added(AddedAll(prev, items[..|items| - 1]), items[|items| - 1])
  }

  function Reversed<T>(s: seq<T>): (r: seq<T>)
    ensures |r| == |s| && forall k :: 0 <= k < |s| ==> r[k] == s[|s| - 1 - k]
  {
    if s == [] then [] else [s[|s| - 1]] + Reversed(s[..|s| - 1])
  }

  /** Adding items one by one keeps the newest hundred entries, newest first. */
  lemma {:induction false} AddedAllKeepsNewest(prev: seq<HistoryItem>, items: seq<HistoryItem>)
    requires items != []
    ensures AddedAll(prev, items) == (Reversed(items) + prev)[..Min(|items| + |prev|, MaxHistory)]
  {
    var last, init := items[|items| - 1], items[..|items| - 1];
    assert Reversed(items) == [last] + Reversed(init);
    if init == [] {
      assert Reversed(init) + prev == prev;
      assert Reversed(items) + prev == [last] + prev;
    } else {
      AddedAllKeepsNewest(prev, init);
      var all := Reversed(init) + prev;
      AddedToTruncated(all, last);
      assert [last] + all == Reversed(items) + prev;
    }
  }

  /** Adding to a truncated log is truncating the log with the entry added. */
  lemma AddedToTruncated(all: seq<HistoryItem>, item: HistoryItem)
    ensures Added(all[..Min(|all|, MaxHistory)], item) == ([item] + all)[..Min(|all| + 1, MaxHistory)]
  {
    var lhs := Added(all[..Min(|all|, MaxHistory)], item);
    var rhs := ([item] + all)[..Min(|all| + 1, MaxHistory)];
    assert |lhs| == |rhs|;
    forall k | 0 <= k < |lhs| ensures lhs[k] == rhs[k] {
      if k > 0 {
        assert lhs[k] == lhs[1..][k - 1];
      }
    }
  }

  /** At least a hundred additions leave exactly the newest hundred, whatever was there before. */
  lemma AddedManyForgetsOlder(prev: seq<HistoryItem>, items: seq<HistoryItem>)
    requires |items| >= MaxHistory
    ensures AddedAll(prev, items) == Reversed(items)[..MaxHistory]
  {
    AddedAllKeepsNewest(prev, items);
    assert (Reversed(items) + prev)[..MaxHistory] == Reversed(items)[..MaxHistory];
  }

  /** `deleteHistory`: `prev.filter(item => item.id !== id)`. */
  function Deleted(prev: seq<HistoryItem>, id: string): (h: seq<HistoryItem>)
    ensures |h| <= |prev|
    ensures forall k :: 0 <= k < |h| ==> h[k].id != id && h[k] in prev
  {
    if prev == [] then []
    else if prev[0].id == id then Deleted(prev[1..], id)
    else [prev[0]] + Deleted(prev[1..], id)
  }

  /** Deleting distributes over concatenation; with the single-entry case this says the order is kept. */
  lemma {:induction false} DeletedAppend(a: seq<HistoryItem>, b: seq<HistoryItem>, id: string)
    ensures Deleted(a + b, id) == Deleted(a, id) + Deleted(b, id)
  {
    if a == [] {
      assert a + b == b;
    } else {
      assert (a + b)[1..] == a[1..] + b;
      DeletedAppend(a[1..], b, id);
    }
  }

  /** Every entry with another id survives the deletion. */
  lemma {:induction false} DeletedKeepsOthers(prev: seq<HistoryItem>, id: string, item: HistoryItem)
    requires item in prev && item.id != id
    ensures item in Deleted(prev, id)
  {
    if prev[0] != item {
      DeletedKeepsOthers(prev[1..], id, item);
    }
  }

  /** An id that is not in the log leaves the log as it was. */
  lemma {:induction false} DeletedAbsent(prev: seq<HistoryItem>, id: string)
    requires forall k :: 0 <= k < |prev| ==> prev[k].id != id
    ensures Deleted(prev, id) == prev
  {
    if prev != [] {
      DeletedAbsent(prev[1..], id);
    }
  }

  /** Deleting the same id twice is deleting it once. */
  lemma DeletedIdempotent(prev: seq<HistoryItem>, id: string)
    ensures Deleted(Deleted(prev, id), id) == Deleted(prev, id)
  {
    DeletedAbsent(Deleted(prev, id), id);
  }

  /** `clearHistory`. */
  function Cleared(): (h: seq<HistoryItem>)
    ensures |h| == 0
  {
    []
  }

  /**
   * The hook's initial history: the parsed stored value when there is a
   * non-empty stored value that parses, and the empty log otherwise.
   * `parse` stands for `JSON.parse`, `None` for a parse error.
   */
  function Loaded(saved: Option<string>, parse: string -> Option<seq<HistoryItem>>): (h: seq<HistoryItem>)
    ensures (saved == None || saved == Some("")) ==> h == []
    ensures saved.Some? && saved.value != "" && parse(saved.value).Some? ==> h == parse(saved.value).value
    ensures saved.Some? && parse(saved.value) == None ==> h == []
  {
    if saved.Some? && saved.value != "" then
      match parse(saved.value)
      case Some(stored) => stored
      case None => []
    else []
  }
}
