/** The items of a list type: runs of units of elements, markers and moves. */
module ListItems {
  import opened Base

  datatype Content = Plain | Mark | Move(target: Id)

  datatype Item = Item(id: Id, len: nat, content: Content, deleted: bool, movedBy: Option<Id>)

  predicate Covers(x: Item, id: Id) {
    x.id.client == id.client && x.id.clock <= id.clock < x.id.clock + x.len
  }

  /** No unit twice; a moved item is one unit wide. */
  ghost predicate ListOk(items: seq<Item>) {
    && (forall i :: 0 <= i < |items| ==> ItemOk(items[i]))
    && (forall i, j :: 0 <= i < j < |items| ==> Apart(items[i], items[j]))
  }

  predicate ItemOk(x: Item) {
    x.len >= 1 && (x.movedBy.Some? ==> x.content.Plain? && x.len == 1)
  }

  predicate Apart(x: Item, y: Item) {
    x.id.client != y.id.client || x.id.clock + x.len <= y.id.clock || y.id.clock + y.len <= x.id.clock
  }

  /** The units of an item. */
  function UnitIds(id: Id, len: nat): seq<Id> {
    seq(len, i requires 0 <= i < len => Id(id.client, id.clock + i))
  }

  function Inserted<T>(s: seq<T>, q: nat, x: T): seq<T>
    requires q <= |s|
  {
    s[..q] + [x] + s[q..]
  }

  function SplitOf(items: seq<Item>, p: nat, k: nat): seq<Item>
    requires p < |items| && 0 < k < items[p].len
  {
    var x := items[p];
    items[..p] + [x.(len := k), x.(id := Id(x.id.client, x.id.clock + k), len := x.len - k)] + items[p + 1..]
  }
}
