/**
 * The notification list (screens/Notifications.tsx): marking an item read and
 * counting the unread ones.
 */
module NotificationsScreen {

  datatype NotificationItem = NotificationItem(id: string, message: string, read: bool)

  /** `items.map(n => n.id === id ? {...n, read: true} : n)`. */
  function MarkRead(items: seq<NotificationItem>, id: string): (r: seq<NotificationItem>)
    ensures |r| == |items|
    ensures forall i | 0 <= i < |r| ::
      r[i] == (if items[i].id == id then items[i].(read := true) else items[i])
    decreases |items|
  {
    if |items| == 0 then []
    else
      var n := items[0];
      [if n.id == id then n.(read := true) else n] + MarkRead(items[1..], id)
  }

  /** `items.filter(n => !n.read)`. */
  function UnreadItems(items: seq<NotificationItem>): (r: seq<NotificationItem>)
    ensures forall n | n in r :: n in items && !n.read
    ensures forall n | n in items && !n.read :: n in r
  {
    if |items| == 0 then []
    else (if items[0].read then [] else [items[0]]) + UnreadItems(items[1..])
  }

  /** The positions of the items not read yet. */
  ghost function UnreadPositions(items: seq<NotificationItem>): set<int>
  {
    set i | 0 <= i < |items| && !items[i].read
  }

  /** `unread`: how many items are not read yet, that is, how many positions hold an unread item. */
  function Unread(items: seq<NotificationItem>): (n: nat)
    ensures n == |UnreadPositions(items)|
  {
    UnreadCountsPositions(items);
    |UnreadItems(items)|
  }

  /** The filter keeps the unread items of each part, in order. */
  lemma {:induction false} UnreadItemsConcat(a: seq<NotificationItem>, b: seq<NotificationItem>)
    ensures UnreadItems(a + b) == UnreadItems(a) + UnreadItems(b)
    decreases |a|
  {
    if |a| == 0 {
      assert a + b == b;
    } else {
      assert (a + b)[1..] == a[1..] + b;
      UnreadItemsConcat(a[1..], b);
    }
  }

  lemma {:induction false} UnreadCountsPositions(items: seq<NotificationItem>)
    ensures |UnreadItems(items)| == |UnreadPositions(items)|
    decreases |items|
  {
    if |items| > 0 {
      var p, x := items[..|items| - 1], items[|items| - 1];
      assert items == p + [x];
      UnreadItemsSnoc(p, x);
      UnreadPositionsSnoc(p, x);
      UnreadCountsPositions(p);
    }
  }

  lemma UnreadItemsSnoc(p: seq<NotificationItem>, x: NotificationItem)
    ensures |UnreadItems(p + [x])| == |UnreadItems(p)| + (if x.read then 0 else 1)
  {
    UnreadItemsConcat(p, [x]);
    assert [x][1..] == [];
    assert UnreadItems([x]) == (if x.read then [] else [x]) + UnreadItems([]);
  }

  lemma UnreadPositionsSnoc(p: seq<NotificationItem>, x: NotificationItem)
    ensures |UnreadPositions(p + [x])| == |UnreadPositions(p)| + (if x.read then 0 else 1)
  {
    var items := p + [x];
    var before, after := UnreadPositions(p), UnreadPositions(items);
    var added: set<int> := if x.read then {} else {|p|};
    forall i | i in after ensures i in before + added {
      if i < |p| { assert items[i] == p[i]; }
    }
    forall i | i in before + added ensures i in after {
      if i < |p| { assert items[i] == p[i]; }
    }
    assert after == before + added;
    assert |p| !in before;
  }

  /** After marking `id` read, no item with that id is unread, and every other item is as it was. */
  lemma MarkReadEffect(items: seq<NotificationItem>, id: string)
    ensures forall n | n in MarkRead(items, id) && n.id == id :: n.read
    ensures forall i | 0 <= i < |items| && items[i].id != id :: MarkRead(items, id)[i] == items[i]
  {
  }

  /** Marking the same id read twice is the same as marking it once. */
  lemma MarkReadIdempotent(items: seq<NotificationItem>, id: string)
    ensures MarkRead(MarkRead(items, id), id) == MarkRead(items, id)
  {
  }

  /** Marking an id that no item has changes nothing. */
  lemma MarkReadUnknownId(items: seq<NotificationItem>, id: string)
    requires forall n | n in items :: n.id != id
    ensures MarkRead(items, id) == items
  {
    var r := MarkRead(items, id);
    forall i | 0 <= i < |items| ensures r[i] == items[i] {
      assert items[i] in items;
    }
  }

  /** The unread count goes down by exactly the unread items with that id, so it never grows. */
  lemma {:induction false} MarkReadUnread(items: seq<NotificationItem>, id: string)
    ensures Unread(MarkRead(items, id)) == Unread(items) - UnreadWithId(items, id)
    ensures Unread(MarkRead(items, id)) <= Unread(items)
    decreases |items|
  {
    if |items| > 0 {
      MarkReadUnread(items[1..], id);
      var r := MarkRead(items, id);
      assert r[1..] == MarkRead(items[1..], id);
      assert UnreadItems(r) == (if r[0].read then [] else [r[0]]) + UnreadItems(r[1..]);
    }
  }

  /** How many unread items carry `id`. */
  function UnreadWithId(items: seq<NotificationItem>, id: string): (k: nat)
    ensures k <= Unread(items)
  {
    if |items| == 0 then 0
    else (if items[0].id == id && !items[0].read then 1 else 0) + UnreadWithId(items[1..], id)
  }
}
