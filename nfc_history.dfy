/**
 * The NFC scan history (utils/nfcHistory.ts): a most-recent-first list of scanned tag
 * ids with timestamps, persisted under one storage key. Scanning an id again moves it
 * to the front with the new time. The clock is a parameter.
 */
module NfcHistory {
  import opened Wrappers

  const HISTORY_KEY: string := "nfc_history"

  datatype NfcHistoryItem = NfcHistoryItem(id: string, timestamp: int)

  /** `items.filter(item => item.id !== id)`. */
  function WithoutId(items: seq<NfcHistoryItem>, id: string): (r: seq<NfcHistoryItem>)
    ensures |r| <= |items|
    ensures forall x | x in r :: x in items && x.id != id
    ensures forall x | x in items && x.id != id :: x in r
  {
    if |items| == 0 then []
    else if items[0].id == id then WithoutId(items[1..], id)
    else [items[0]] + WithoutId(items[1..], id)
  }

  /** How many entries carry `id`. */
  function Occurrences(items: seq<NfcHistoryItem>, id: string): nat
  {
    if |items| == 0 then 0
    else (if items[0].id == id then 1 else 0) + Occurrences(items[1..], id)
  }

  /** No id appears twice. */
  predicate DistinctIds(items: seq<NfcHistoryItem>)
  {
    forall i, j | 0 <= i < j < |items| :: items[i].id != items[j].id
  }

  /** The list `addHistory(id)` writes: `{id, now}` in front of every entry with another id. */
  function Added(items: seq<NfcHistoryItem>, id: string, now: int): seq<NfcHistoryItem>
  {
    [NfcHistoryItem(id, now)] + WithoutId(items, id)
  }

  /** Filtering out `id` removes exactly its occurrences and no other entry. */
  lemma {:induction false} WithoutIdLength(items: seq<NfcHistoryItem>, id: string)
    ensures |WithoutId(items, id)| == |items| - Occurrences(items, id)
    ensures Occurrences(WithoutId(items, id), id) == 0
    ensures forall other | other != id :: Occurrences(WithoutId(items, id), other) == Occurrences(items, other)
    decreases |items|
  {
    if |items| > 0 {
      WithoutIdLength(items[1..], id);
      var rest := WithoutId(items[1..], id);
      if items[0].id != id {
        assert ([items[0]] + rest)[1..] == rest;
      }
    }
  }

  /** Filtering keeps distinct ids distinct. */
  lemma {:induction false} WithoutIdDistinct(items: seq<NfcHistoryItem>, id: string)
    requires DistinctIds(items)
    ensures DistinctIds(WithoutId(items, id))
    decreases |items|
  {
    if |items| > 0 {
      WithoutIdDistinct(items[1..], id);
      var rest := WithoutId(items[1..], id);
      if items[0].id != id {
        forall x | x in rest ensures x.id != items[0].id {
          var k :| 0 <= k < |items[1..]| && items[1..][k] == x;
          assert items[k + 1] == x;
        }
        var r := [items[0]] + rest;
        forall i, j | 0 <= i < j < |r| ensures r[i].id != r[j].id {
          if i == 0 {
            assert r[j] == rest[j - 1] && rest[j - 1] in rest;
          } else {
            assert r[i] == rest[i - 1] && r[j] == rest[j - 1];
          }
        }
      }
    }
  }

  /**
   * After `addHistory(id)` at `now`: the head is `{id, now}`, `id` occurs exactly once, the
   * length is the old length minus the old occurrences of `id` plus one, every other
   * id keeps its number of entries, and distinct ids stay distinct.
   */
  lemma AddedProperties(items: seq<NfcHistoryItem>, id: string, now: int)
    ensures Added(items, id, now)[0] == NfcHistoryItem(id, now)
    ensures Occurrences(Added(items, id, now), id) == 1
    ensures |Added(items, id, now)| == |items| - Occurrences(items, id) + 1
    ensures forall other | other != id :: Occurrences(Added(items, id, now), other) == Occurrences(items, other)
    ensures DistinctIds(items) ==> DistinctIds(Added(items, id, now))
  {
    var r := Added(items, id, now);
    WithoutIdLength(items, id);
    assert r[1..] == WithoutId(items, id);
    if DistinctIds(items) {
      WithoutIdDistinct(items, id);
      forall i, j | 0 <= i < j < |r| ensures r[i].id != r[j].id {
        if i == 0 {
          assert r[j] in WithoutId(items, id);
        } else {
          assert r[i] == r[1..][i - 1] && r[j] == r[1..][j - 1];
        }
      }
    }
  }

  /**
   * Filtering keeps the surviving entries in their original relative order: filtering a list
   * made of two parts gives the survivors of the first part, then those of the second.
   */
  lemma {:induction false} WithoutIdKeepsOrder(a: seq<NfcHistoryItem>, b: seq<NfcHistoryItem>, id: string)
    ensures WithoutId(a + b, id) == WithoutId(a, id) + WithoutId(b, id)
    decreases |a|
  {
    if |a| == 0 {
      assert a + b == b;
    } else {
      assert (a + b)[1..] == a[1..] + b;
      WithoutIdKeepsOrder(a[1..], b, id);
    }
  }

  /** Entries with other ids are all kept: with no entry for `id`, filtering changes nothing. */
  lemma {:induction false} WithoutAbsentId(items: seq<NfcHistoryItem>, id: string)
    requires forall x | x in items :: x.id != id
    ensures WithoutId(items, id) == items
    decreases |items|
  {
    if |items| > 0 {
      assert forall x | x in items[1..] :: x in items;
      WithoutAbsentId(items[1..], id);
      assert [items[0]] + items[1..] == items;
    }
  }

  /** The persisted history: `stored` stands for what the key holds (`None`: never written). */
  class HistoryStore {
    var stored: Option<seq<NfcHistoryItem>>

    /** A device that has never scanned a tag: nothing stored, so the history reads as empty. */
    constructor ()
      ensures stored == None
      ensures GetHistory() == []
    {
      stored := None;
    }

    /** `getHistory()`: the stored list, or `[]` when nothing is stored. */
    function GetHistory(): (items: seq<NfcHistoryItem>)
      reads this
      ensures stored == None ==> items == []
      ensures stored != None ==> items == stored.value
    {
      stored.GetOr([])
    }

    /** `addHistory(id)` at time `now`: drop every entry for `id`, put `{id, now}` in front, write back. */
    method AddHistory(id: string, now: int)
      modifies this
      ensures stored == Some(Added(old(GetHistory()), id, now))
      ensures GetHistory()[0] == NfcHistoryItem(id, now)
      ensures GetHistory()[1..] == WithoutId(old(GetHistory()), id)
    {
      var items := stored.GetOr([]);
      items := WithoutId(items, id);
      items := [NfcHistoryItem(id, now)] + items;
      stored := Some(items);
    }
  }
}
