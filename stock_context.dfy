/**
 * The stock list store (StockContext.tsx): a list of stocks with parent links and a
 * counter that hands out ids. `addStock` appends a record with the next id;
 * `setParent` re-links the records with a given id.
 */
module StockContext {
  import opened Wrappers

  /** A stock; `parentId` is `parent_id`, `None` for `null`. */
  datatype Stock = Stock(id: int, name: string, parentId: Option<int>)

  /** `prev.map(s => s.id === id ? {...s, parent_id} : s)`. */
  function WithParent(stocks: seq<Stock>, id: int, parentId: Option<int>): (r: seq<Stock>)
    ensures |r| == |stocks|
    ensures forall i | 0 <= i < |r| ::
      && r[i].id == stocks[i].id
      && r[i].name == stocks[i].name
      && r[i].parentId == (if stocks[i].id == id then parentId else stocks[i].parentId)
    decreases |stocks|
  {
    if |stocks| == 0 then []
    else
      var s := stocks[0];
      [if s.id == id then s.(parentId := parentId) else s] + WithParent(stocks[1..], id, parentId)
  }

  /** Ids strictly increase along the list, so no two records share one. */
  predicate IdsIncreasing(stocks: seq<Stock>)
  {
    forall i, j | 0 <= i < j < |stocks| :: stocks[i].id < stocks[j].id
  }

  /** Re-linking an id that no record has leaves the list as it was. */
  lemma SetParentUnknownId(stocks: seq<Stock>, id: int, parentId: Option<int>)
    requires forall s | s in stocks :: s.id != id
    ensures WithParent(stocks, id, parentId) == stocks
  {
    var r := WithParent(stocks, id, parentId);
    forall i | 0 <= i < |r| ensures r[i] == stocks[i] {
      assert stocks[i] in stocks;
    }
  }

  /** Re-linking the same id to the same parent twice is the same as doing it once. */
  lemma SetParentIdempotent(stocks: seq<Stock>, id: int, parentId: Option<int>)
    ensures WithParent(WithParent(stocks, id, parentId), id, parentId) == WithParent(stocks, id, parentId)
  {
  }

  /** Re-linking keeps the ids in place, so it keeps them increasing. */
  lemma SetParentKeepsIds(stocks: seq<Stock>, id: int, parentId: Option<int>)
    requires IdsIncreasing(stocks)
    ensures IdsIncreasing(WithParent(stocks, id, parentId))
  {
  }

  /**
   * The provider's `stocks` state together with the module-level `nextId` counter.
   * Every id handed out is below `nextId`, and ids increase along the list.
   */
  class StockStore {
    var stocks: seq<Stock>
    var nextId: int

    ghost predicate Valid()
      reads this
    {
      && nextId >= 1
      && IdsIncreasing(stocks)
      && forall s | s in stocks :: 1 <= s.id < nextId
    }

    /** An empty list, with the counter at its initial value 1. */
    constructor ()
      ensures Valid()
      ensures stocks == [] && nextId == 1
    {
      stocks := [];
      nextId := 1;
    }

    /** `addStock(name, parent_id)`: appends `{id: nextId, name, parent_id}` and advances the counter by one. */
    method AddStock(name: string, parentId: Option<int>)
      requires Valid()
      modifies this
      ensures Valid()
      ensures stocks == old(stocks) + [Stock(old(nextId), name, parentId)]
      ensures nextId == old(nextId) + 1
    {
      stocks := stocks + [Stock(nextId, name, parentId)];
      nextId := nextId + 1;
    }

    /** `setParent(id, parent_id)`: only records with that id change, and only their parent. */
    method SetParent(id: int, parentId: Option<int>)
      requires Valid()
      modifies this
      ensures Valid()
      ensures stocks == WithParent(old(stocks), id, parentId)
      ensures nextId == old(nextId)
    {
      SetParentKeepsIds(stocks, id, parentId);
      stocks := WithParent(stocks, id, parentId);
      forall s | s in stocks ensures 1 <= s.id < nextId {
        var i :| 0 <= i < |stocks| && stocks[i] == s;
        assert old(stocks)[i] in old(stocks);
      }
    }
  }
}
