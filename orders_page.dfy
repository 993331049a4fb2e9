/** The orders list: each order is shown with its client's name, and a
    search box narrows the list. */
module OrdersPage {
  import opened Types
  import opened Seqs
  import opened Text
  import opened Records

  const UnknownClient: string := "Unknown Client"

  /** `getClientName`: the name of the first client with that id, or the
      fallback text when the order refers to a deleted or unknown client. */
  function GetClientName(clients: seq<Client>, clientId: string): (r: string)
    ensures (forall i :: 0 <= i < |clients| ==> clients[i].id != clientId) ==> r == UnknownClient
    ensures forall k :: 0 <= k < |clients| && clients[k].id == clientId
                        && (forall i :: 0 <= i < k ==> clients[i].id != clientId)
                        ==> r == clients[k].name
  {
    var found := Find(clients, ClientIdOf, clientId);
    assert forall i :: 0 <= i < |clients| ==> (ClientIdOf(clients[i]) != clientId <==> clients[i].id != clientId);
    if found.Some? then found.value.name else UnknownClient
  }

  /** The search test for one order: the lowered term occurs in the
      lowered order number or in the lowered client name. */
  function OrderMatches(clients: seq<Client>, term: string, order: Order): bool {
    Includes(Lower(order.orderNumber), Lower(term)) || Includes(Lower(GetClientName(clients, order.clientId)), Lower(term))
  }

  /** `filteredOrders`. */
  function FilterOrders(orders: seq<Order>, clients: seq<Client>, term: string): seq<Order> {
    Filter(orders, o => OrderMatches(clients, term, o))
  }

  /** The shown orders keep their stored order, and an order is shown
      exactly when the term occurs in its number or its client's name. */
  lemma FilterOrdersCorrect(orders: seq<Order>, clients: seq<Client>, term: string)
    ensures Subsequence(FilterOrders(orders, clients, term), orders)
    ensures forall i :: 0 <= i < |orders| ==>
              (orders[i] in FilterOrders(orders, clients, term) <==>
                 (exists k :: OccursAt(Lower(orders[i].orderNumber), Lower(term), k)) ||
                 (exists k :: OccursAt(Lower(GetClientName(clients, orders[i].clientId)), Lower(term), k)))
  {
    FilterMembers(orders, o => OrderMatches(clients, term, o));
  }

  /** An empty search shows every order. */
  lemma EmptySearchShowsAllOrders(orders: seq<Order>, clients: seq<Client>)
    ensures FilterOrders(orders, clients, "") == orders
  {
    forall i | 0 <= i < |orders| ensures OrderMatches(clients, "", orders[i]) {
      IncludesEmpty(Lower(orders[i].orderNumber));
    }
  }

  /** With the fallback name, an order of an unknown client is found by
      searching for "unknown". */
  lemma DanglingOrderFoundAsUnknown(orders: seq<Order>, clients: seq<Client>, i: nat)
    requires i < |orders|
    requires forall j :: 0 <= j < |clients| ==> clients[j].id != orders[i].clientId
    ensures orders[i] in FilterOrders(orders, clients, "unknown")
  {
    var name := Lower(GetClientName(clients, orders[i].clientId));
    assert name[..7] == Lower("unknown");
    assert OccursAt(name, Lower("unknown"), 0);
    FilterMembers(orders, o => OrderMatches(clients, "unknown", o));
  }
}
