/** The order form: editing the list of items, the derived total, the
    checks run before saving, and the record handed to the repository. */
module OrderForm {
  import opened Types
  import opened Seqs
  import opened Text
  import opened Records
  import opened LocalStorage

  // ---- items and their total ----

  /** What one item contributes to the total. */
  function LineTotal(item: OrderItem): int {
    item.price * item.quantity
  }

  /** `orderItems.reduce((sum, item) => sum + item.price * item.quantity, 0)`. */
  function ItemsTotal(items: seq<OrderItem>): int
    decreases |items|
  {
    if items == [] then 0 else ItemsTotal(items[..|items| - 1]) + LineTotal(items[|items| - 1])
  }

  /** The total of two lists joined is the sum of their totals. */
  lemma {:induction false} ItemsTotalConcat(xs: seq<OrderItem>, ys: seq<OrderItem>)
    ensures ItemsTotal(xs + ys) == ItemsTotal(xs) + ItemsTotal(ys)
    decreases |ys|
  {
    if ys != [] {
      var n := |ys| - 1;
      assert (xs + ys)[..|xs + ys| - 1] == xs + ys[..n];
      ItemsTotalConcat(xs, ys[..n]);
    } else {
      assert xs + ys == xs;
    }
  }

  /** The total of a list split around one item. */
  lemma ItemsTotalAround(pre: seq<OrderItem>, x: OrderItem, post: seq<OrderItem>)
    ensures ItemsTotal(pre + [x] + post) == ItemsTotal(pre) + LineTotal(x) + ItemsTotal(post)
  {
    ItemsTotalConcat(pre + [x], post);
    ItemsTotalConcat(pre, [x]);
    assert [x][..0] == [];
  }

  /** The total does not depend on where an item sits: replacing one item
      changes the total by the difference of the two lines. */
  lemma ItemsTotalReplace(items: seq<OrderItem>, index: nat, x: OrderItem)
    requires index < |items|
    ensures ItemsTotal(items[index := x]) == ItemsTotal(items) - LineTotal(items[index]) + LineTotal(x)
  {
    var pre, post := items[..index], items[index + 1..];
    SplitAt(items, index);
    assert items[index := x] == pre + [x] + post;
    ItemsTotalAround(pre, items[index], post);
    ItemsTotalAround(pre, x, post);
  }

  /** Two of a 10-unit item and one of a 5-unit item come to 25. */
  lemma TotalExample()
    ensures ItemsTotal([OrderItem("1", "a", 2, 10, None), OrderItem("2", "b", 1, 5, None)]) == 25
  {
    var items := [OrderItem("1", "a", 2, 10, None), OrderItem("2", "b", 1, 5, None)];
    assert items[..1] == [items[0]] && items[..1][..0] == [];
  }

  /** The blank item `addItem` appends. */
  function NewItem(id: string): OrderItem {
    OrderItem(id, "", 1, 0, Some(""))
  }

  /** `addItem`: one blank item at the end; the existing items stay as they are. */
  function AddItem(items: seq<OrderItem>, id: string): (r: seq<OrderItem>)
    ensures |r| == |items| + 1 && r[..|items|] == items
    ensures r[|items|].name == "" && r[|items|].quantity == 1 && r[|items|].price == 0
  {
    items + [NewItem(id)]
  }

  /** A blank item is worth nothing, so adding one keeps the total. */
  lemma AddItemKeepsTotal(items: seq<OrderItem>, id: string)
    ensures ItemsTotal(AddItem(items, id)) == ItemsTotal(items)
  {
    assert AddItem(items, id)[..|items|] == items;
  }

  /** The fields `updateItem` is called with, and the value written. */
  datatype ItemEdit = SetName(name: string) | SetQuantity(quantity: int) | SetPrice(price: int)
                    | SetDescription(description: string)

  /** `{ ...item, [field]: value }`: the edited field takes the value, the
      others keep theirs. */
  function ApplyEdit(item: OrderItem, e: ItemEdit): (r: OrderItem)
    ensures r.id == item.id
    ensures r.name == (if e.SetName? then e.name else item.name)
    ensures r.quantity == (if e.SetQuantity? then e.quantity else item.quantity)
    ensures r.price == (if e.SetPrice? then e.price else item.price)
    ensures r.description == (if e.SetDescription? then Some(e.description) else item.description)
  {
    match e
    case SetName(v) => item.(name := v)
    case SetQuantity(v) => item.(quantity := v)
    case SetPrice(v) => item.(price := v)
    case SetDescription(v) => item.(description := Some(v))
  }

  /** `updateItem(index, field, value)` on a copy of the list. */
  function UpdateItem(items: seq<OrderItem>, index: nat, e: ItemEdit): (r: seq<OrderItem>)
    requires index < |items|
    ensures |r| == |items|
    ensures r[index] == ApplyEdit(items[index], e)
    ensures forall j :: 0 <= j < |items| && j != index ==> r[j] == items[j]
  {
    items[index := ApplyEdit(items[index], e)]
  }

  /** Editing an item's name or description keeps the total; editing its
      quantity or price moves the total by the change in that line. */
  lemma UpdateItemTotal(items: seq<OrderItem>, index: nat, e: ItemEdit)
    requires index < |items|
    ensures ItemsTotal(UpdateItem(items, index, e)) ==
            ItemsTotal(items) - LineTotal(items[index]) + LineTotal(ApplyEdit(items[index], e))
    ensures (e.SetName? || e.SetDescription?) ==> ItemsTotal(UpdateItem(items, index, e)) == ItemsTotal(items)
  {
    ItemsTotalReplace(items, index, ApplyEdit(items[index], e));
  }

  /** `removeItem(index)`: `splice(index, 1)` on a copy of the list. */
  function RemoveItem(items: seq<OrderItem>, index: nat): (r: seq<OrderItem>)
    ensures index < |items| ==> |r| == |items| - 1 && Subsequence(r, items)
    ensures index < |items| ==> multiset(r) + multiset{items[index]} == multiset(items)
    ensures index < |items| ==> r == items[..index] + items[index + 1..]
    ensures index >= |items| ==> r == items
  {
    if index < |items| then
      RemoveAtSubsequence(items, index);
      RemoveAtMultiset(items, index);
      RemoveAt(items, index)
    else
      RemoveAt(items, index)
  }

  /** Removing an item takes its line off the total. */
  lemma RemoveItemTotal(items: seq<OrderItem>, index: nat)
    requires index < |items|
    ensures ItemsTotal(RemoveItem(items, index)) == ItemsTotal(items) - LineTotal(items[index])
  {
    var pre, post := items[..index], items[index + 1..];
    SplitAt(items, index);
    ItemsTotalConcat(pre, post);
    ItemsTotalAround(pre, items[index], post);
  }

  // ---- validation before saving ----

  datatype OrderError = NoClient | NoItems | EmptyItemName

  /** Some item fails `item.name.trim()`: its name is white space only, which
      by the contract of Trim is exactly when it trims to the empty string. */
  function HasBlankName(items: seq<OrderItem>): (r: bool)
    ensures r <==> exists i :: 0 <= i < |items| && AllSpace(items[i].name)
  {
    if items == [] then false
    else if AllSpace(items[0].name) then true
    else
      assert forall i :: 1 <= i < |items| ==> items[i] == items[1..][i - 1];
      HasBlankName(items[1..])
  }

  /** The first failing check, in the order the checks run: the client,
      then the presence of items, then each item's name. */
  function CheckOrder(clientId: string, items: seq<OrderItem>): (r: Option<OrderError>)
    ensures r == Some(NoClient) <==> clientId == ""
    ensures r == Some(NoItems) <==> clientId != "" && items == []
    ensures r == Some(EmptyItemName) <==>
            clientId != "" && items != [] && exists i :: 0 <= i < |items| && AllSpace(items[i].name)
    ensures r == None <==> clientId != "" && items != [] && forall i :: 0 <= i < |items| ==> !AllSpace(items[i].name)
  {
    if clientId == "" then Some(NoClient)
    else if items == [] then Some(NoItems)
    else if HasBlankName(items) then Some(EmptyItemName)
    else None
  }

  /** The guards of `handleSubmit`, with the loop over the items that returns
      at the first blank name. */
  method ValidateOrder(clientId: string, items: seq<OrderItem>) returns (error: Option<OrderError>)
    ensures error == CheckOrder(clientId, items)
  {
    if clientId == "" {
      return Some(NoClient);
    }
    if |items| == 0 {
      return Some(NoItems);
    }
    for i := 0 to |items|
      invariant forall j :: 0 <= j < i ==> !AllSpace(items[j].name)
    {
      if AllSpace(items[i].name) {
        return Some(EmptyItemName);
      }
    }
    return None;
  }

  // ---- the saved record ----

  /** The form's values apart from the items: every order field but `items`
      (the form's own `total` is replaced by the computed one). */
  datatype OrderDraft = OrderDraft(
    id: string,
    clientId: string,
    orderNumber: string,
    status: OrderStatus,
    notes: Option<string>,
    createdAt: string,
    updatedAt: string,
    customFields: map<string, FieldValue>)

  /** The form's starting values when an existing order is edited. */
  function DraftOf(order: Order): OrderDraft {
    OrderDraft(order.id, order.clientId, order.orderNumber, order.status, order.notes,
               order.createdAt, order.updatedAt, order.customFields)
  }

  /** `ORD-` followed by the last six characters of the clock reading. */
  function NewOrderNumber(millis: string): (r: string)
    ensures |r| >= 4 && r[..4] == "ORD-"
    ensures |r| == 4 + (if |millis| < 6 then |millis| else 6)
    ensures exists k :: 0 <= k <= |millis| && r[4..] == millis[k..]
  {
    var k := if |millis| <= 6 then 0 else |millis| - 6;
    var tail := millis[k..];
    assert ("ORD-" + tail)[4..] == tail;
    "ORD-" + tail
  }

  /** The form's starting values for a new order. */
  function NewDraft(millis: string): OrderDraft {
    OrderDraft("", "", NewOrderNumber(millis), Pending, Some(""), "", "", map[])
  }

  /** The record `handleSubmit` saves: the form's values with the edited items
      and their total; an edit only restamps `updatedAt`, a new order gets a
      fresh id and both timestamps from the same clock reading. */
  function OrderRecord(editing: bool, data: OrderDraft, items: seq<OrderItem>, now: string, newId: string): (r: Order)
    ensures r.items == items && r.total == ItemsTotal(items) && r.updatedAt == now
    ensures r.clientId == data.clientId && r.orderNumber == data.orderNumber && r.status == data.status
    ensures r.notes == data.notes && r.customFields == data.customFields
    ensures editing ==> r.id == data.id && r.createdAt == data.createdAt
    ensures !editing ==> r.id == newId && r.createdAt == now
  {
    if editing then
      Order(data.id, data.clientId, data.orderNumber, data.status, items, ItemsTotal(items), data.notes,
            data.createdAt, now, data.customFields)
    else
      Order(newId, data.clientId, data.orderNumber, data.status, items, ItemsTotal(items), data.notes,
            now, now, data.customFields)
  }

  /** Saving an unchanged form over an existing order gives that order back
      with only its items, total and `updatedAt` replaced. */
  lemma EditChangesOnlyItemsAndStamp(order: Order, items: seq<OrderItem>, now: string, newId: string)
    ensures OrderRecord(true, DraftOf(order), items, now, newId) ==
            order.(items := items, total := ItemsTotal(items), updatedAt := now)
  {
  }

  /** A new order is created and updated at the same instant. */
  lemma NewOrderStamps(data: OrderDraft, items: seq<OrderItem>, now: string, newId: string)
    ensures OrderRecord(false, data, items, now, newId).createdAt == OrderRecord(false, data, items, now, newId).updatedAt
  {
  }

  /** How a submission ended: rejected by a check before any storage call,
      or handed to the repository (`updateOrder`'s answer; adding always
      succeeds). */
  datatype SubmitOutcome = Rejected(error: OrderError) | Saved(success: bool)

  /** `handleSubmit`. */
  method SubmitOrder(svc: LocalStorageService, editing: bool, data: OrderDraft, items: seq<OrderItem>,
                     now: string, newId: string) returns (outcome: SubmitOutcome)
    requires svc.Valid()
    modifies svc
    ensures CheckOrder(data.clientId, items).Some? ==>
              outcome == Rejected(CheckOrder(data.clientId, items).value) && svc.store == old(svc.store)
    ensures CheckOrder(data.clientId, items).None? && editing ==>
              var xs := old(svc.GetOrders());
              var found := exists i :: 0 <= i < |xs| && xs[i].id == data.id;
              && outcome == Saved(found)
              && (found ==> svc.GetOrders() == xs[FindIndex(xs, OrderIdOf, data.id) := OrderRecord(true, data, items, now, newId)])
              && (!found ==> svc.store == old(svc.store))
    ensures CheckOrder(data.clientId, items).None? && !editing ==>
              outcome == Saved(true) && svc.GetOrders() == old(svc.GetOrders()) + [OrderRecord(false, data, items, now, newId)]
    ensures svc.GetUser() == old(svc.GetUser()) && svc.GetClients() == old(svc.GetClients())
    ensures svc.GetCustomFields() == old(svc.GetCustomFields())
  {
    var error := ValidateOrder(data.clientId, items);
    if error.Some? {
      return Rejected(error.value);
    }
    var record := OrderRecord(editing, data, items, now, newId);
    if editing {
      var success := svc.UpdateOrder(record);
      outcome := Saved(success);
    } else {
      svc.AddOrder(record);
      outcome := Saved(true);
    }
  }
}
