/** The dashboard statistics: totals over all orders, status counts, and the
    five clients with the highest revenue. The grouping of orders by client
    is a loop that fills an insertion-ordered map; the rest is pure. */
module Dashboard {
  import opened Types
  import opened Seqs
  import opened Records

  /** One value of the client-to-totals map, together with its key. The map
      itself is the sequence of these in insertion order, one per key. */
  datatype ClientTally = ClientTally(id: string, name: string, orders: nat, revenue: int)

  function TallyIdOf(t: ClientTally): string { t.id }

  // ---- spec functions ----

  /** The orders with a given client id, in order. */
  function OrdersOf(orders: seq<Order>, clientId: string): seq<Order> {
    WithKey(orders, OrderClientIdOf, clientId)
  }

  /** `orders.reduce((sum, o) => sum + o.total, 0)`. */
  function SumTotals(orders: seq<Order>): int
    decreases |orders|
  {
    if orders == [] then 0 else SumTotals(orders[..|orders| - 1]) + orders[|orders| - 1].total
  }

  /** Position of the first order placed for a client (-1 when none): the
      order in which clients first enter the map. */
  function FirstOrder(orders: seq<Order>, clientId: string): int {
    FindIndex(orders, OrderClientIdOf, clientId)
  }

  /** A client's entry after one more of its orders. */
  function CountOrder(t: ClientTally, order: Order): ClientTally {
    t.(orders := t.orders + 1, revenue := t.revenue + order.total)
  }

  /** One turn of the `forEach`: an order whose client exists adds one order
      and its total to that client's entry, creating the entry at the end
      of the map on the client's first order. */
  function Tally(tallies: seq<ClientTally>, clients: seq<Client>, order: Order): seq<ClientTally> {
    match Find(clients, ClientIdOf, order.clientId)
    case None => tallies
    case Some(c) =>
      var k := FindIndex(tallies, TallyIdOf, c.id);
      if k < 0 then tallies + [CountOrder(ClientTally(c.id, c.name, 0, 0), order)]
      else tallies[k := CountOrder(tallies[k], order)]
  }

  /** The map after the `forEach` over all orders. */
  function Group(clients: seq<Client>, orders: seq<Order>): seq<ClientTally>
    decreases |orders|
  {
    if orders == [] then [] else Tally(Group(clients, orders[..|orders| - 1]), clients, orders[|orders| - 1])
  }

  /** Stable insertion: x goes before the first entry whose revenue is not larger. */
  function Insert(x: ClientTally, sorted: seq<ClientTally>): seq<ClientTally> {
    if sorted == [] || sorted[0].revenue <= x.revenue then [x] + sorted
    else [sorted[0]] + Insert(x, sorted[1..])
  }

  /** `.sort((a, b) => b.revenue - a.revenue)`, a stable sort. */
  function SortByRevenue(tallies: seq<ClientTally>): seq<ClientTally> {
    if tallies == [] then [] else Insert(tallies[0], SortByRevenue(tallies[1..]))
  }

  /** `.slice(0, 5)`. */
  function TakeFive<T>(s: seq<T>): (r: seq<T>)
    ensures |r| == (if |s| < 5 then |s| else 5)
    ensures forall i :: 0 <= i < |r| ==> r[i] == s[i]
  {
    if |s| <= 5 then s else s[..5]
  }

  /** The top clients, keeping each entry's key. */
  function TopTallies(clients: seq<Client>, orders: seq<Order>): seq<ClientTally> {
    TakeFive(SortByRevenue(Group(clients, orders)))
  }

  function IsPendingStatus(s: OrderStatus): bool { s == Pending || s == Processing }

  /** `orders.filter(o => ['pending', 'processing'].includes(o.status)).length`. */
  function CountPending(orders: seq<Order>): nat {
    if orders == [] then 0 else (if IsPendingStatus(orders[0].status) then 1 else 0) + CountPending(orders[1..])
  }

  /** `orders.filter(o => o.status === 'completed').length`. */
  function CountCompleted(orders: seq<Order>): nat {
    if orders == [] then 0 else (if orders[0].status == Completed then 1 else 0) + CountCompleted(orders[1..])
  }

  function ToTopClient(t: ClientTally): TopClient {
    TopClient(t.name, t.orders, t.revenue)
  }

  /** The statistics the dashboard displays. */
  function Stats(clients: seq<Client>, orders: seq<Order>): DashboardStats {
    var top := TopTallies(clients, orders);
    DashboardStats(|clients|, |orders|, SumTotals(orders), CountPending(orders), CountCompleted(orders),
                   seq(|top|, i requires 0 <= i < |top| => ToTopClient(top[i])))
  }

  /** The client ids that appear on some order and belong to an existing client. */
  ghost function MatchedIds(clients: seq<Client>, orders: seq<Order>): set<string> {
    set k | 0 <= k < |orders| && Find(clients, ClientIdOf, orders[k].clientId).Some? :: orders[k].clientId
  }

  // ---- the computation as the source performs it ----

  /** The `forEach` that fills `clientOrderMap`. */
  method GroupOrdersByClient(clients: seq<Client>, orders: seq<Order>) returns (tallies: seq<ClientTally>)
    ensures tallies == Group(clients, orders)
  {
    tallies := [];
    for i := 0 to |orders|
      invariant tallies == Group(clients, orders[..i])
    {
      ghost var before := tallies;
      var order := orders[i];
      var client := Find(clients, ClientIdOf, order.clientId);
      if client.Some? {
        var c := client.value;
        var k := FindIndex(tallies, TallyIdOf, c.id);
        if k == -1 {
          tallies := tallies + [ClientTally(c.id, c.name, 0, 0)];
          k := |tallies| - 1;
        }
        var data := tallies[k];
        var updated := data.(orders := data.orders + 1, revenue := data.revenue + order.total);
        assert updated == CountOrder(data, order);
        tallies := tallies[k := updated];
        if k == |before| {
          AppendThenSet(before, ClientTally(c.id, c.name, 0, 0), updated);
        }
      }
      assert tallies == Tally(before, clients, order);
      GroupStep(clients, orders, i);
    }
    assert orders[..|orders|] == orders;
  }

  /** Setting the entry just appended is appending the new value. */
  lemma AppendThenSet(ts: seq<ClientTally>, e: ClientTally, f: ClientTally)
    ensures (ts + [e])[|ts| := f] == ts + [f]
  {
  }

  /** One more turn of the `forEach`. */
  lemma GroupStep(clients: seq<Client>, orders: seq<Order>, i: nat)
    requires i < |orders|
    ensures Group(clients, orders[..i + 1]) == Tally(Group(clients, orders[..i]), clients, orders[i])
  {
    assert orders[..i + 1][..i] == orders[..i];
  }


  /** The body of the dashboard's effect. */
  method ComputeStats(clients: seq<Client>, orders: seq<Order>) returns (stats: DashboardStats)
    ensures stats == Stats(clients, orders)
  {
    var tallies := GroupOrdersByClient(clients, orders);
    var top := TakeFive(SortByRevenue(tallies));
    stats := DashboardStats(|clients|, |orders|, SumTotals(orders), CountPending(orders), CountCompleted(orders),
                            seq(|top|, i requires 0 <= i < |top| => ToTopClient(top[i])));
  }

  // ---- what the grouping computes ----

  ghost predicate Distinct(ts: seq<ClientTally>) {
    forall i, j :: 0 <= i < j < |ts| ==> ts[i].id != ts[j].id
  }

  /** The entry for t.id is right: an existing client with at least one order,
      its name taken from the first client with that id, its order count and
      revenue summed over exactly that client's orders. */
  ghost predicate Tallied(t: ClientTally, clients: seq<Client>, orders: seq<Order>) {
    && Find(clients, ClientIdOf, t.id).Some?
    && 0 <= FirstOrder(orders, t.id)
    && t.name == Find(clients, ClientIdOf, t.id).value.name
    && t.orders == |OrdersOf(orders, t.id)|
    && t.revenue == SumTotals(OrdersOf(orders, t.id))
  }

  ghost predicate AllTallied(ts: seq<ClientTally>, clients: seq<Client>, orders: seq<Order>) {
    forall i :: 0 <= i < |ts| ==> Tallied(ts[i], clients, orders)
  }

  /** Every order of an existing client has an entry for that client. */
  ghost predicate Complete(ts: seq<ClientTally>, clients: seq<Client>, orders: seq<Order>) {
    forall k :: 0 <= k < |orders| && Find(clients, ClientIdOf, orders[k].clientId).Some? ==>
      0 <= FindIndex(ts, TallyIdOf, orders[k].clientId)
  }

  /** Entries appear in the order of their clients' first orders. */
  ghost predicate InFirstOrder(ts: seq<ClientTally>, orders: seq<Order>) {
    forall i, j :: 0 <= i < j < |ts| ==> FirstOrder(orders, ts[i].id) < FirstOrder(orders, ts[j].id)
  }

  ghost predicate GroupInvariant(ts: seq<ClientTally>, clients: seq<Client>, orders: seq<Order>) {
    Distinct(ts) && AllTallied(ts, clients, orders) && Complete(ts, clients, orders) && InFirstOrder(ts, orders)
  }

  lemma {:induction false} SumTotalsSnoc(orders: seq<Order>, o: Order)
    ensures SumTotals(orders + [o]) == SumTotals(orders) + o.total
  {
    assert (orders + [o])[..|orders|] == orders;
  }

  /** Facts about one appended order that every case of the step uses. */
  lemma {:induction false} SnocFacts(orders: seq<Order>, o: Order, clientId: string)
    ensures OrdersOf(orders + [o], clientId) == OrdersOf(orders, clientId) + (if o.clientId == clientId then [o] else [])
    ensures SumTotals(OrdersOf(orders + [o], clientId)) ==
            SumTotals(OrdersOf(orders, clientId)) + (if o.clientId == clientId then o.total else 0)
    ensures FirstOrder(orders + [o], clientId) ==
            if 0 <= FirstOrder(orders, clientId) then FirstOrder(orders, clientId)
            else if o.clientId == clientId then |orders| else -1
  {
    WithKeySnoc(orders, o, OrderClientIdOf, clientId);
    if o.clientId == clientId {
      SumTotalsSnoc(OrdersOf(orders, clientId), o);
    } else {
      assert OrdersOf(orders, clientId) + [] == OrdersOf(orders, clientId);
    }
    FindIndexSnoc(orders, o, OrderClientIdOf, clientId);
  }

  lemma {:induction false} FindClientId(clients: seq<Client>, id: string)
    requires Find(clients, ClientIdOf, id).Some?
    ensures Find(clients, ClientIdOf, id).value.id == id
  {
  }

  /** An entry of another client is unaffected by the order. */
  lemma {:induction false} TalliedOther(t: ClientTally, clients: seq<Client>, orders: seq<Order>, o: Order)
    requires Tallied(t, clients, orders) && t.id != o.clientId
    ensures Tallied(t, clients, orders + [o])
    ensures FirstOrder(orders + [o], t.id) == FirstOrder(orders, t.id)
  {
    SnocFacts(orders, o, t.id);
  }

  /** The entry of the order's client gains the order. */
  lemma {:induction false} TalliedSame(t: ClientTally, clients: seq<Client>, orders: seq<Order>, o: Order)
    requires Tallied(t, clients, orders) && t.id == o.clientId
    ensures Tallied(CountOrder(t, o), clients, orders + [o])
    ensures FirstOrder(orders + [o], t.id) == FirstOrder(orders, t.id)
  {
    SnocFacts(orders, o, t.id);
  }

  /** A client's first order creates a correct entry. */
  lemma {:induction false} TalliedFirst(c: Client, clients: seq<Client>, orders: seq<Order>, o: Order)
    requires Find(clients, ClientIdOf, o.clientId) == Some(c)
    requires FirstOrder(orders, o.clientId) < 0
    ensures c.id == o.clientId
    ensures Tallied(CountOrder(ClientTally(c.id, c.name, 0, 0), o), clients, orders + [o])
    ensures FirstOrder(orders + [o], o.clientId) == |orders|
  {
    FindClientId(clients, o.clientId);
    WithKeyMembers(orders, OrderClientIdOf, o.clientId);
    SnocFacts(orders, o, o.clientId);
  }

  /** Entries that keep their keys, plus an entry for the new order's
      client, keep the map complete. */
  lemma {:induction false} CompleteExtend(ts: seq<ClientTally>, r: seq<ClientTally>, clients: seq<Client>,
                                         orders: seq<Order>, o: Order)
    requires Complete(ts, clients, orders)
    requires |ts| <= |r| && forall i :: 0 <= i < |ts| ==> r[i].id == ts[i].id
    requires Find(clients, ClientIdOf, o.clientId).Some? ==> 0 <= FindIndex(r, TallyIdOf, o.clientId)
    ensures Complete(r, clients, orders + [o])
  {
    var os := orders + [o];
    forall m | 0 <= m < |os| && Find(clients, ClientIdOf, os[m].clientId).Some?
      ensures 0 <= FindIndex(r, TallyIdOf, os[m].clientId)
    {
      if m < |orders| {
        assert os[m] == orders[m];
        var p := FindIndex(ts, TallyIdOf, orders[m].clientId);
        assert TallyIdOf(r[p]) == orders[m].clientId;
      }
    }
  }

  /** Entries of other clients stay correct, at the same first-order position. */
  lemma {:induction false} AllTalliedOther(ts: seq<ClientTally>, clients: seq<Client>, orders: seq<Order>, o: Order)
    requires AllTallied(ts, clients, orders)
    requires forall i :: 0 <= i < |ts| ==> ts[i].id != o.clientId
    ensures AllTallied(ts, clients, orders + [o])
    ensures forall i :: 0 <= i < |ts| ==> FirstOrder(orders + [o], ts[i].id) == FirstOrder(orders, ts[i].id) < |orders|
  {
    forall i | 0 <= i < |ts|
      ensures Tallied(ts[i], clients, orders + [o])
      ensures FirstOrder(orders + [o], ts[i].id) == FirstOrder(orders, ts[i].id) < |orders|
    {
      TalliedOther(ts[i], clients, orders, o);
    }
  }

  /** Adding the order to the entry at k keeps every entry correct. */
  lemma {:induction false} AllTalliedExisting(ts: seq<ClientTally>, clients: seq<Client>, orders: seq<Order>,
                                             o: Order, k: nat)
    requires AllTallied(ts, clients, orders)
    requires Distinct(ts)
    requires k < |ts| && ts[k].id == o.clientId
    ensures AllTallied(ts[k := CountOrder(ts[k], o)], clients, orders + [o])
    ensures forall i :: 0 <= i < |ts| ==> FirstOrder(orders + [o], ts[i].id) == FirstOrder(orders, ts[i].id)
  {
    var r := ts[k := CountOrder(ts[k], o)];
    forall i | 0 <= i < |ts|
      ensures Tallied(r[i], clients, orders + [o])
      ensures FirstOrder(orders + [o], ts[i].id) == FirstOrder(orders, ts[i].id)
    {
      if i == k {
        TalliedSame(ts[i], clients, orders, o);
      } else {
        TalliedOther(ts[i], clients, orders, o);
      }
    }
  }

  /** Keys unchanged and first-order positions unchanged keep the map's order. */
  lemma {:induction false} InFirstOrderKeep(ts: seq<ClientTally>, r: seq<ClientTally>, orders: seq<Order>, os: seq<Order>)
    requires InFirstOrder(ts, orders)
    requires |r| == |ts| && forall i :: 0 <= i < |ts| ==> r[i].id == ts[i].id
    requires forall i :: 0 <= i < |ts| ==> FirstOrder(os, ts[i].id) == FirstOrder(orders, ts[i].id)
    ensures InFirstOrder(r, os)
  {
  }

  /** An entry whose first order comes after all others may go at the end. */
  lemma {:induction false} InFirstOrderAppend(ts: seq<ClientTally>, e: ClientTally, orders: seq<Order>, os: seq<Order>)
    requires InFirstOrder(ts, orders)
    requires forall i :: 0 <= i < |ts| ==> FirstOrder(os, ts[i].id) == FirstOrder(orders, ts[i].id) < |orders|
    requires FirstOrder(os, e.id) == |orders|
    ensures InFirstOrder(ts + [e], os)
  {
    var r := ts + [e];
    forall i, j | 0 <= i < j < |r| ensures FirstOrder(os, r[i].id) < FirstOrder(os, r[j].id) {
      assert r[i] == ts[i];
      if j < |ts| {
        assert r[j] == ts[j];
      }
    }
  }

  /** An order of an unknown client leaves the map as it was. */
  lemma {:induction false} StepUnmatched(ts: seq<ClientTally>, clients: seq<Client>, orders: seq<Order>, o: Order)
    requires GroupInvariant(ts, clients, orders)
    requires Find(clients, ClientIdOf, o.clientId).None?
    ensures GroupInvariant(Tally(ts, clients, o), clients, orders + [o])
  {
    assert Tally(ts, clients, o) == ts;
    forall i | 0 <= i < |ts| ensures ts[i].id != o.clientId {
      assert Find(clients, ClientIdOf, ts[i].id).Some?;
    }
    AllTalliedOther(ts, clients, orders, o);
    CompleteExtend(ts, ts, clients, orders, o);
    InFirstOrderKeep(ts, ts, orders, orders + [o]);
  }

  /** Replacing an entry by one with the same key keeps every key in place. */
  lemma {:induction false} ReplaceKeepsKeys(ts: seq<ClientTally>, k: nat, t: ClientTally)
    requires Distinct(ts)
    requires k < |ts| && t.id == ts[k].id
    ensures |ts[k := t]| == |ts| && forall i :: 0 <= i < |ts| ==> ts[k := t][i].id == ts[i].id
    ensures Distinct(ts[k := t])
    ensures 0 <= FindIndex(ts[k := t], TallyIdOf, t.id)
  {
    assert TallyIdOf(ts[k := t][k]) == t.id;
  }

  /** An order of a client already in the map adds to that entry only. */
  lemma {:induction false} StepExisting(ts: seq<ClientTally>, clients: seq<Client>, orders: seq<Order>, o: Order)
    requires GroupInvariant(ts, clients, orders)
    requires Find(clients, ClientIdOf, o.clientId).Some?
    requires 0 <= FindIndex(ts, TallyIdOf, o.clientId)
    ensures GroupInvariant(Tally(ts, clients, o), clients, orders + [o])
  {
    var k := FindIndex(ts, TallyIdOf, o.clientId);
    var r := ts[k := CountOrder(ts[k], o)];
    assert Tally(ts, clients, o) == r;
    ReplaceKeepsKeys(ts, k, CountOrder(ts[k], o));
    AllTalliedExisting(ts, clients, orders, o, k);
    CompleteExtend(ts, r, clients, orders, o);
    InFirstOrderKeep(ts, r, orders, orders + [o]);
  }

  /** A client of an existing record without an entry has had no order yet. */
  lemma {:induction false} NoEntryNoOrder(ts: seq<ClientTally>, clients: seq<Client>, orders: seq<Order>, o: Order)
    requires Complete(ts, clients, orders)
    requires Find(clients, ClientIdOf, o.clientId).Some?
    requires FindIndex(ts, TallyIdOf, o.clientId) < 0
    ensures FirstOrder(orders, o.clientId) < 0
  {
    forall m | 0 <= m < |orders| ensures orders[m].clientId != o.clientId {
      assert Find(clients, ClientIdOf, orders[m].clientId).Some? ==> 0 <= FindIndex(ts, TallyIdOf, orders[m].clientId);
    }
  }

  /** Appending a correct entry with a new key keeps the entries correct and distinct. */
  lemma {:induction false} AppendEntry(ts: seq<ClientTally>, e: ClientTally, clients: seq<Client>, orders: seq<Order>)
    requires AllTallied(ts, clients, orders) && Distinct(ts)
    requires Tallied(e, clients, orders)
    requires forall i :: 0 <= i < |ts| ==> ts[i].id != e.id
    ensures AllTallied(ts + [e], clients, orders) && Distinct(ts + [e])
  {
    var r := ts + [e];
    forall i | 0 <= i < |r| ensures Tallied(r[i], clients, orders) {
      if i < |ts| { assert r[i] == ts[i]; }
    }
    forall i, j | 0 <= i < j < |r| ensures r[i].id != r[j].id {
      assert r[i] == ts[i];
      if j < |ts| { assert r[j] == ts[j]; }
    }
  }

  /** A client's first order appends a fresh entry at the end of the map. */
  lemma {:induction false} StepNew(ts: seq<ClientTally>, clients: seq<Client>, orders: seq<Order>, o: Order)
    requires GroupInvariant(ts, clients, orders)
    requires Find(clients, ClientIdOf, o.clientId).Some?
    requires FindIndex(ts, TallyIdOf, o.clientId) < 0
    ensures GroupInvariant(Tally(ts, clients, o), clients, orders + [o])
  {
    var c := Find(clients, ClientIdOf, o.clientId).value;
    var entry := CountOrder(ClientTally(c.id, c.name, 0, 0), o);
    var r := ts + [entry];
    assert Tally(ts, clients, o) == r;
    NoEntryNoOrder(ts, clients, orders, o);
    TalliedFirst(c, clients, orders, o);
    AllTalliedOther(ts, clients, orders, o);
    AppendEntry(ts, entry, clients, orders + [o]);
    assert TallyIdOf(r[|ts|]) == o.clientId;
    CompleteExtend(ts, r, clients, orders, o);
    InFirstOrderAppend(ts, entry, orders, orders + [o]);
  }

  /** The grouping loop builds exactly the per-client totals: one entry per
      existing client that has orders, each with the right name, count and
      revenue, in the order of each client's first order. */
  lemma {:induction false} GroupCorrect(clients: seq<Client>, orders: seq<Order>)
    ensures GroupInvariant(Group(clients, orders), clients, orders)
    decreases |orders|
  {
    if orders != [] {
      var os := orders[..|orders| - 1];
      var o := orders[|orders| - 1];
      assert orders == os + [o];
      GroupCorrect(clients, os);
      var ts := Group(clients, os);
      if Find(clients, ClientIdOf, o.clientId).None? {
        StepUnmatched(ts, clients, os, o);
      } else if 0 <= FindIndex(ts, TallyIdOf, o.clientId) {
        StepExisting(ts, clients, os, o);
      } else {
        StepNew(ts, clients, os, o);
      }
    }
  }

  /** The entries' keys are exactly the matched client ids. */
  lemma GroupIds(clients: seq<Client>, orders: seq<Order>)
    ensures forall i :: 0 <= i < |Group(clients, orders)| ==> Group(clients, orders)[i].id in MatchedIds(clients, orders)
    ensures forall c :: c in MatchedIds(clients, orders) ==> 0 <= FindIndex(Group(clients, orders), TallyIdOf, c)
  {
    var ts := Group(clients, orders);
    GroupCorrect(clients, orders);
    forall i | 0 <= i < |ts| ensures ts[i].id in MatchedIds(clients, orders) {
      var k := FirstOrder(orders, ts[i].id);
      assert orders[k].clientId == ts[i].id;
    }
    forall c | c in MatchedIds(clients, orders) ensures 0 <= FindIndex(ts, TallyIdOf, c) {
      var k :| 0 <= k < |orders| && Find(clients, ClientIdOf, orders[k].clientId).Some? && orders[k].clientId == c;
    }
  }

  /** The keys of the map. */
  ghost function Keys(ts: seq<ClientTally>): set<string>
    decreases |ts|
  {
    if ts == [] then {} else Keys(ts[..|ts| - 1]) + {ts[|ts| - 1].id}
  }

  /** A key is in the map exactly when some entry has it. */
  lemma {:induction false} KeysMembers(ts: seq<ClientTally>)
    ensures forall i :: 0 <= i < |ts| ==> ts[i].id in Keys(ts)
    ensures forall c :: c in Keys(ts) ==> exists i :: 0 <= i < |ts| && ts[i].id == c
    decreases |ts|
  {
    if ts != [] {
      var n := |ts| - 1;
      var init := ts[..n];
      KeysMembers(init);
      assert forall i :: 0 <= i < n ==> init[i] == ts[i];
    }
  }

  /** A map with distinct keys has as many keys as entries. */
  lemma {:induction false} DistinctIdsCard(ts: seq<ClientTally>)
    requires Distinct(ts)
    ensures |Keys(ts)| == |ts|
    decreases |ts|
  {
    if ts != [] {
      var n := |ts| - 1;
      var init := ts[..n];
      assert forall i :: 0 <= i < n ==> init[i] == ts[i];
      assert Distinct(init);
      DistinctIdsCard(init);
      KeysMembers(init);
      assert forall i :: 0 <= i < n ==> init[i].id != ts[n].id;
      assert ts[n].id !in Keys(init);
    }
  }

  /** The map has one entry per matched client id. */
  lemma GroupSize(clients: seq<Client>, orders: seq<Order>)
    ensures |Group(clients, orders)| == |MatchedIds(clients, orders)|
  {
    var ts := Group(clients, orders);
    GroupCorrect(clients, orders);
    GroupIds(clients, orders);
    DistinctIdsCard(ts);
    KeysMembers(ts);
    assert Keys(ts) == MatchedIds(clients, orders) by {
      forall c | c in MatchedIds(clients, orders) ensures c in Keys(ts) {
        var k := FindIndex(ts, TallyIdOf, c);
        assert ts[k].id == c;
      }
    }
  }

  // ---- what the sort computes ----

  /** a precedes b in the top-clients list: larger revenue first, and on
      equal revenue the one of smaller rank (the position of the client's
      first order). */
  ghost predicate Before(a: ClientTally, b: ClientTally, rank: ClientTally -> int) {
    a.revenue > b.revenue || (a.revenue == b.revenue && rank(a) < rank(b))
  }

  ghost predicate RevenueOrdered(ts: seq<ClientTally>, rank: ClientTally -> int) {
    forall i, j :: 0 <= i < j < |ts| ==> Before(ts[i], ts[j], rank)
  }

  ghost predicate RankIncreasing(ts: seq<ClientTally>, rank: ClientTally -> int) {
    forall i, j :: 0 <= i < j < |ts| ==> rank(ts[i]) < rank(ts[j])
  }

  /** The rank the map's insertion order follows. */
  ghost function FirstOrderRank(orders: seq<Order>): ClientTally -> int {
    (t: ClientTally) => FirstOrder(orders, t.id)
  }

  lemma {:induction false} InsertMultiset(x: ClientTally, sorted: seq<ClientTally>)
    ensures multiset(Insert(x, sorted)) == multiset(sorted) + multiset{x}
  {
    if sorted != [] && sorted[0].revenue > x.revenue {
      InsertMultiset(x, sorted[1..]);
      assert sorted == [sorted[0]] + sorted[1..];
    }
  }

  /** The sort is a permutation. */
  lemma {:induction false} SortPermutation(ts: seq<ClientTally>)
    ensures multiset(SortByRevenue(ts)) == multiset(ts)
  {
    if ts != [] {
      SortPermutation(ts[1..]);
      InsertMultiset(ts[0], SortByRevenue(ts[1..]));
      assert ts == [ts[0]] + ts[1..];
    }
  }

  /** Inserting at the front keeps the order when x may precede the head. */
  lemma {:induction false} InsertFront(x: ClientTally, sorted: seq<ClientTally>, rank: ClientTally -> int)
    requires RevenueOrdered(sorted, rank)
    requires forall i :: 0 <= i < |sorted| ==> rank(x) < rank(sorted[i])
    requires sorted == [] || sorted[0].revenue <= x.revenue
    ensures RevenueOrdered([x] + sorted, rank)
  {
    var r := [x] + sorted;
    forall i, j | 0 <= i < j < |r| ensures Before(r[i], r[j], rank) {
      assert r[j] == sorted[j - 1];
      if i == 0 {
        if j > 1 { assert Before(sorted[0], sorted[j - 1], rank); }
      } else {
        assert r[i] == sorted[i - 1];
      }
    }
  }

  /** Placing the head in front of an ordered insertion into the tail. */
  lemma {:induction false} InsertBehind(h: ClientTally, x: ClientTally, tail: seq<ClientTally>, rt: seq<ClientTally>,
                                        rank: ClientTally -> int)
    requires RevenueOrdered([h] + tail, rank)
    requires RevenueOrdered(rt, rank)
    requires multiset(rt) == multiset(tail) + multiset{x}
    requires h.revenue > x.revenue
    ensures RevenueOrdered([h] + rt, rank)
  {
    var r := [h] + rt;
    forall j | 1 <= j < |r| ensures Before(h, r[j], rank) {
      assert r[j] == rt[j - 1];
      assert rt[j - 1] in multiset(tail) + multiset{x} by { assert rt[j - 1] in multiset(rt); }
      if rt[j - 1] != x {
        var m :| 0 <= m < |tail| && tail[m] == rt[j - 1];
        assert ([h] + tail)[m + 1] == tail[m];
        assert Before(([h] + tail)[0], ([h] + tail)[m + 1], rank);
      }
    }
    forall i, j | 0 <= i < j < |r| ensures Before(r[i], r[j], rank) {
      if i > 0 { assert r[i] == rt[i - 1] && r[j] == rt[j - 1]; }
    }
  }

  /** Inserting an entry of smaller rank than all others keeps the order. */
  lemma {:induction false} InsertOrdered(x: ClientTally, sorted: seq<ClientTally>, rank: ClientTally -> int)
    requires RevenueOrdered(sorted, rank)
    requires forall i :: 0 <= i < |sorted| ==> rank(x) < rank(sorted[i])
    ensures RevenueOrdered(Insert(x, sorted), rank)
  {
    if sorted == [] || sorted[0].revenue <= x.revenue {
      InsertFront(x, sorted, rank);
    } else {
      var tail := sorted[1..];
      assert sorted == [sorted[0]] + tail;
      assert RevenueOrdered(tail, rank) by {
        forall i, j | 0 <= i < j < |tail| ensures Before(tail[i], tail[j], rank) {
          assert tail[i] == sorted[i + 1] && tail[j] == sorted[j + 1];
        }
      }
      InsertOrdered(x, tail, rank);
      InsertMultiset(x, tail);
      InsertBehind(sorted[0], x, tail, Insert(x, tail), rank);
    }
  }

  /** The sort orders by revenue and keeps ties in their input order. */
  lemma {:induction false} SortOrdered(ts: seq<ClientTally>, rank: ClientTally -> int)
    requires RankIncreasing(ts, rank)
    ensures RevenueOrdered(SortByRevenue(ts), rank)
  {
    if ts != [] {
      var tail := ts[1..];
      SortOrdered(tail, rank);
      var st := SortByRevenue(tail);
      SortPermutation(tail);
      forall i | 0 <= i < |st| ensures rank(ts[0]) < rank(st[i]) {
        assert st[i] in multiset(tail) by { assert st[i] in multiset(st); }
        var m :| 0 <= m < |tail| && tail[m] == st[i];
        assert ts[m + 1] == st[i];
      }
      InsertOrdered(ts[0], st, rank);
    }
  }

  /** The sort keeps every entry and adds none. */
  lemma SortMembers(ts: seq<ClientTally>)
    ensures |SortByRevenue(ts)| == |ts|
    ensures forall p :: 0 <= p < |SortByRevenue(ts)| ==> SortByRevenue(ts)[p] in ts
    ensures forall m :: 0 <= m < |ts| ==> ts[m] in SortByRevenue(ts)
  {
    var st := SortByRevenue(ts);
    SortPermutation(ts);
    assert |st| == |ts| by { assert |multiset(st)| == |multiset(ts)|; }
    forall p | 0 <= p < |st| ensures st[p] in ts {
      assert st[p] in multiset(ts) by { assert st[p] in multiset(st); }
    }
    forall m | 0 <= m < |ts| ensures ts[m] in st {
      assert ts[m] in multiset(st) by { assert ts[m] in multiset(ts); }
    }
  }

  /** Sorting a correct map keeps it correct and complete, and orders it by
      revenue with ties in first-order order. */
  lemma {:induction false} SortedEntries(ts: seq<ClientTally>, ids: set<string>, clients: seq<Client>,
                                        orders: seq<Order>)
    requires AllTallied(ts, clients, orders) && InFirstOrder(ts, orders)
    requires |ts| == |ids| && forall c :: c in ids ==> 0 <= FindIndex(ts, TallyIdOf, c)
    ensures var st := SortByRevenue(ts);
      && |st| == |ids|
      && (forall p :: 0 <= p < |st| ==> Tallied(st[p], clients, orders))
      && RevenueOrdered(st, FirstOrderRank(orders))
      && (forall c :: c in ids ==> exists p :: 0 <= p < |st| && st[p].id == c)
  {
    var st := SortByRevenue(ts);
    var rank := FirstOrderRank(orders);
    assert RankIncreasing(ts, rank);
    SortOrdered(ts, rank);
    SortMembers(ts);
    forall c | c in ids ensures exists p :: 0 <= p < |st| && st[p].id == c {
      var m := FindIndex(ts, TallyIdOf, c);
      assert ts[m] in st;
    }
  }

  /** The sorted map: one entry per matched client, each correct, ordered
      by revenue with ties in first-order order. */
  lemma SortedGroup(clients: seq<Client>, orders: seq<Order>)
    ensures var st := SortByRevenue(Group(clients, orders));
      && |st| == |MatchedIds(clients, orders)|
      && (forall p :: 0 <= p < |st| ==> Tallied(st[p], clients, orders))
      && RevenueOrdered(st, FirstOrderRank(orders))
      && (forall c :: c in MatchedIds(clients, orders) ==> exists p :: 0 <= p < |st| && st[p].id == c)
  {
    GroupCorrect(clients, orders);
    GroupSize(clients, orders);
    GroupIds(clients, orders);
    SortedEntries(Group(clients, orders), MatchedIds(clients, orders), clients, orders);
  }

  /** Correct entries in revenue order have distinct keys: an entry's
      revenue and first-order position are functions of its key. */
  lemma {:induction false} OrderedDistinct(st: seq<ClientTally>, clients: seq<Client>, orders: seq<Order>)
    requires forall p :: 0 <= p < |st| ==> Tallied(st[p], clients, orders)
    requires RevenueOrdered(st, FirstOrderRank(orders))
    ensures Distinct(st)
  {
    forall p, q | 0 <= p < q < |st| ensures st[p].id != st[q].id {
      assert Before(st[p], st[q], FirstOrderRank(orders));
    }
  }

  /** A prefix of an ordered sequence with distinct keys is one too. */
  lemma {:induction false} PrefixOrdered(st: seq<ClientTally>, n: nat, rank: ClientTally -> int)
    requires n <= |st| && RevenueOrdered(st, rank) && Distinct(st)
    ensures RevenueOrdered(st[..n], rank) && Distinct(st[..n])
  {
    assert forall i :: 0 <= i < n ==> st[..n][i] == st[i];
  }

  /** Every entry before position p has at least the revenue of the one at p. */
  lemma {:induction false} LeftOutBelow(st: seq<ClientTally>, n: nat, p: nat, rank: ClientTally -> int)
    requires RevenueOrdered(st, rank) && n <= p < |st|
    ensures forall i :: 0 <= i < n ==> Before(st[i], st[p], rank)
  {
    forall i | 0 <= i < n ensures Before(st[i], st[p], rank) {
      assert 0 <= i < p < |st|;
    }
  }

  /** Entry t precedes client c in the sorted order: more revenue, or the
      same revenue and an earlier first order. */
  ghost predicate Precedes(t: ClientTally, c: string, orders: seq<Order>) {
    || t.revenue > SumTotals(OrdersOf(orders, c))
    || (t.revenue == SumTotals(OrdersOf(orders, c)) && FirstOrder(orders, t.id) < FirstOrder(orders, c))
  }

  /** A prefix of the sorted map keeps its entries correct, distinct and ordered. */
  lemma {:induction false} TopPrefix(st: seq<ClientTally>, n: nat, clients: seq<Client>, orders: seq<Order>)
    requires n <= |st|
    requires forall p :: 0 <= p < |st| ==> Tallied(st[p], clients, orders)
    requires RevenueOrdered(st, FirstOrderRank(orders))
    ensures forall i :: 0 <= i < n ==> Tallied(st[..n][i], clients, orders)
    ensures Distinct(st[..n]) && RevenueOrdered(st[..n], FirstOrderRank(orders))
  {
    OrderedDistinct(st, clients, orders);
    PrefixOrdered(st, n, FirstOrderRank(orders));
    assert forall i :: 0 <= i < n ==> st[..n][i] == st[i];
  }

  /** A matched client missing from a prefix of the sorted map comes after
      every entry in the prefix. */
  lemma {:induction false} TopLeftOut(st: seq<ClientTally>, top: seq<ClientTally>, c: string,
                                     clients: seq<Client>, orders: seq<Order>)
    requires |top| <= |st| && forall i :: 0 <= i < |top| ==> top[i] == st[i]
    requires forall p :: 0 <= p < |st| ==> Tallied(st[p], clients, orders)
    requires RevenueOrdered(st, FirstOrderRank(orders))
    requires exists p :: 0 <= p < |st| && st[p].id == c
    requires forall i :: 0 <= i < |top| ==> top[i].id != c
    ensures forall i :: 0 <= i < |top| ==> Precedes(top[i], c, orders)
  {
    var p :| 0 <= p < |st| && st[p].id == c;
    assert Tallied(st[p], clients, orders);
    assert |top| <= p;
    LeftOutBelow(st, |top|, p, FirstOrderRank(orders));
  }

  /** The first five of a sorted, correct, complete map. */
  lemma {:induction false} TopOfSorted(st: seq<ClientTally>, ids: set<string>, clients: seq<Client>,
                                      orders: seq<Order>)
    requires |st| == |ids|
    requires forall p :: 0 <= p < |st| ==> Tallied(st[p], clients, orders)
    requires RevenueOrdered(st, FirstOrderRank(orders))
    requires forall c :: c in ids ==> exists p :: 0 <= p < |st| && st[p].id == c
    ensures var top := TakeFive(st);
      && |top| == (if |ids| < 5 then |ids| else 5)
      && (forall i :: 0 <= i < |top| ==> Tallied(top[i], clients, orders))
      && Distinct(top)
      && RevenueOrdered(top, FirstOrderRank(orders))
      && (forall c :: c in ids && (forall i :: 0 <= i < |top| ==> top[i].id != c) ==>
            forall i :: 0 <= i < |top| ==> Precedes(top[i], c, orders))
  {
    var top := TakeFive(st);
    var n := if |st| <= 5 then |st| else 5;
    assert top == st[..n];
    TopPrefix(st, n, clients, orders);
    assert forall i :: 0 <= i < |top| ==> top[i] == st[i];
    forall c | c in ids && (forall i :: 0 <= i < |top| ==> top[i].id != c)
      ensures forall i :: 0 <= i < |top| ==> Precedes(top[i], c, orders)
    {
      TopLeftOut(st, top, c, clients, orders);
    }
  }

  /** The top-clients computation: at most five entries, one per matched
      client, each with the right totals, ordered by revenue with ties in
      first-order order, and every entry kept precedes every matched client
      left out: it has more revenue, or as much and an earlier first order. */
  lemma TopClientsCorrect(clients: seq<Client>, orders: seq<Order>)
    ensures var top := TopTallies(clients, orders);
      && |top| == (if |MatchedIds(clients, orders)| < 5 then |MatchedIds(clients, orders)| else 5)
      && (forall i :: 0 <= i < |top| ==> Tallied(top[i], clients, orders))
      && Distinct(top)
      && RevenueOrdered(top, FirstOrderRank(orders))
      && (forall c :: c in MatchedIds(clients, orders) && (forall i :: 0 <= i < |top| ==> top[i].id != c) ==>
            forall i :: 0 <= i < |top| ==> Precedes(top[i], c, orders))
  {
    SortedGroup(clients, orders);
    TopOfSorted(SortByRevenue(Group(clients, orders)), MatchedIds(clients, orders), clients, orders);
  }

  /** The displayed statistics: counts, the revenue over all orders
      (matched or not) and the top clients' displayed fields. */
  lemma StatsCorrect(clients: seq<Client>, orders: seq<Order>)
    ensures var stats := Stats(clients, orders);
      var top := TopTallies(clients, orders);
      && stats.totalClients == |clients|
      && stats.totalOrders == |orders|
      && stats.totalRevenue == SumTotals(orders)
      && stats.pendingOrders + stats.completedOrders <= |orders|
      && |stats.topClients| == |top|
      && forall i :: 0 <= i < |top| ==>
           && Find(clients, ClientIdOf, top[i].id).Some?
           && stats.topClients[i].name == Find(clients, ClientIdOf, top[i].id).value.name
           && stats.topClients[i].orders == |OrdersOf(orders, top[i].id)|
           && stats.topClients[i].revenue == SumTotals(OrdersOf(orders, top[i].id))
  {
    TopClientsCorrect(clients, orders);
    StatusCountsBounded(orders);
  }

  /** No order is both pending and completed. */
  lemma {:induction false} StatusCountsBounded(orders: seq<Order>)
    ensures CountPending(orders) + CountCompleted(orders) <= |orders|
  {
    if orders != [] {
      StatusCountsBounded(orders[1..]);
    }
  }

  // ---- where the revenue goes ----

  /** The revenue summed over the map's entries. */
  function SumRevenue(ts: seq<ClientTally>): int
    decreases |ts|
  {
    if ts == [] then 0 else SumRevenue(ts[..|ts| - 1]) + ts[|ts| - 1].revenue
  }

  lemma {:induction false} SumRevenueConcat(xs: seq<ClientTally>, ys: seq<ClientTally>)
    ensures SumRevenue(xs + ys) == SumRevenue(xs) + SumRevenue(ys)
    decreases |ys|
  {
    if ys != [] {
      var n := |ys| - 1;
      assert (xs + ys)[..|xs + ys| - 1] == xs + ys[..n];
      SumRevenueConcat(xs, ys[..n]);
    } else {
      assert xs + ys == xs;
    }
  }

  lemma SumRevenueReplace(ts: seq<ClientTally>, k: nat, t: ClientTally)
    requires k < |ts|
    ensures SumRevenue(ts[k := t]) == SumRevenue(ts) - ts[k].revenue + t.revenue
  {
    var pre, post := ts[..k], ts[k + 1..];
    SplitAt(ts, k);
    assert ts[k := t] == pre + [t] + post;
    SumRevenueConcat(pre + [ts[k]], post);
    SumRevenueConcat(pre, [ts[k]]);
    SumRevenueConcat(pre + [t], post);
    SumRevenueConcat(pre, [t]);
    assert [t][..0] == [] && [ts[k]][..0] == [];
  }

  lemma {:induction false} SumTotalsConcat(xs: seq<Order>, ys: seq<Order>)
    ensures SumTotals(xs + ys) == SumTotals(xs) + SumTotals(ys)
    decreases |ys|
  {
    if ys != [] {
      var n := |ys| - 1;
      assert (xs + ys)[..|xs + ys| - 1] == xs + ys[..n];
      SumTotalsConcat(xs, ys[..n]);
    } else {
      assert xs + ys == xs;
    }
  }

  /** Whether an order's client exists. */
  predicate HasClient(clients: seq<Client>, o: Order) {
    Find(clients, ClientIdOf, o.clientId).Some?
  }

  /** One turn of the loop adds the order's total to the map's revenue
      exactly when its client exists. */
  lemma TallyRevenue(ts: seq<ClientTally>, clients: seq<Client>, o: Order)
    ensures SumRevenue(Tally(ts, clients, o)) == SumRevenue(ts) + (if HasClient(clients, o) then o.total else 0)
  {
    match Find(clients, ClientIdOf, o.clientId)
    case None =>
    case Some(c) =>
      var k := FindIndex(ts, TallyIdOf, c.id);
      if k < 0 {
        var e := CountOrder(ClientTally(c.id, c.name, 0, 0), o);
        SumRevenueConcat(ts, [e]);
        assert [e][..0] == [];
      } else {
        SumRevenueReplace(ts, k, CountOrder(ts[k], o));
      }
  }

  /** The map's revenue is the total of the orders whose client exists. */
  lemma {:induction false} GroupRevenue(clients: seq<Client>, orders: seq<Order>)
    ensures SumRevenue(Group(clients, orders)) == SumTotals(Filter(orders, o => HasClient(clients, o)))
    decreases |orders|
  {
    if orders != [] {
      var os := orders[..|orders| - 1];
      var o := orders[|orders| - 1];
      assert orders == os + [o];
      GroupRevenue(clients, os);
      TallyRevenue(Group(clients, os), clients, o);
      FilterConcat(os, [o], o => HasClient(clients, o));
      var m := Filter([o], o => HasClient(clients, o));
      assert m == if HasClient(clients, o) then [o] else [] by {
        assert [o][1..] == [];
      }
      SumTotalsConcat(Filter(os, o => HasClient(clients, o)), m);
      assert SumTotals([o]) == o.total by { assert [o][..0] == []; }
    }
  }

  /** Splitting the orders by whether their client exists splits their total. */
  lemma {:induction false} SumTotalsPartition(clients: seq<Client>, orders: seq<Order>)
    ensures SumTotals(orders) == SumTotals(Filter(orders, o => HasClient(clients, o)))
                                 + SumTotals(Filter(orders, o => !HasClient(clients, o)))
    decreases |orders|
  {
    if orders != [] {
      var os := orders[..|orders| - 1];
      var o := orders[|orders| - 1];
      assert orders == os + [o];
      SumTotalsPartition(clients, os);
      FilterConcat(os, [o], o => HasClient(clients, o));
      FilterConcat(os, [o], o => !HasClient(clients, o));
      assert [o][1..] == [];
      SumTotalsConcat(Filter(os, o => HasClient(clients, o)), Filter([o], o => HasClient(clients, o)));
      SumTotalsConcat(Filter(os, o => !HasClient(clients, o)), Filter([o], o => !HasClient(clients, o)));
      assert SumTotals([o]) == o.total by { assert [o][..0] == []; }
    }
  }

  /** `totalRevenue` counts every order: it is the revenue the clients'
      entries account for plus the totals of orders whose client does not
      exist. */
  lemma RevenueSplit(clients: seq<Client>, orders: seq<Order>)
    ensures SumTotals(orders) ==
            SumRevenue(Group(clients, orders)) + SumTotals(Filter(orders, o => !HasClient(clients, o)))
  {
    GroupRevenue(clients, orders);
    SumTotalsPartition(clients, orders);
  }

  /** An order whose client does not exist leaves the map as it was. */
  lemma {:induction false} UnmatchedOrderIgnored(clients: seq<Client>, orders: seq<Order>, o: Order)
    requires Find(clients, ClientIdOf, o.clientId).None?
    ensures Group(clients, orders + [o]) == Group(clients, orders)
  {
    assert (orders + [o])[..|orders|] == orders;
  }

  // ---- a worked example: clients A and B, orders of 100 and 50 for A and 30 for B ----

  const ClientA: Client := Client("a", "A", "", "", None, None, None, None, None, "", "", map[])
  const ClientB: Client := Client("b", "B", "", "", None, None, None, None, None, "", "", map[])
  const Order1: Order := Order("1", "a", "ORD-1", Pending, [], 100, None, "", "", map[])
  const Order2: Order := Order("2", "a", "ORD-2", Completed, [], 50, None, "", "", map[])
  const Order3: Order := Order("3", "b", "ORD-3", Pending, [], 30, None, "", "", map[])

  /** The map after the three orders: A first, then B. */
  lemma ExampleGroup()
    ensures Group([ClientA, ClientB], [Order1, Order2, Order3])
            == [ClientTally("a", "A", 2, 150), ClientTally("b", "B", 1, 30)]
  {
    var cs := [ClientA, ClientB];
    var orders := [Order1, Order2, Order3];
    assert orders[..2] == [Order1, Order2] && orders[..2][..1] == [Order1] && orders[..2][..1][..0] == [];
    assert FindIndex(cs, ClientIdOf, "a") == 0;
    assert cs[1..] == [ClientB] && FindIndex(cs, ClientIdOf, "b") == 1;
    assert Find(cs, ClientIdOf, "a") == Some(ClientA) && Find(cs, ClientIdOf, "b") == Some(ClientB);
    assert Group(cs, []) == [];
    assert Group(cs, [Order1]) == [ClientTally("a", "A", 1, 100)];
    assert Group(cs, [Order1, Order2]) == [ClientTally("a", "A", 2, 150)];
  }

  /** The example's sorted top clients: A before B. */
  lemma ExampleTop()
    ensures TopTallies([ClientA, ClientB], [Order1, Order2, Order3])
            == [ClientTally("a", "A", 2, 150), ClientTally("b", "B", 1, 30)]
  {
    var ta, tb := ClientTally("a", "A", 2, 150), ClientTally("b", "B", 1, 30);
    ExampleGroup();
    assert [ta, tb][1..] == [tb] && [tb][1..] == [];
    assert SortByRevenue([tb]) == Insert(tb, SortByRevenue([])) == [tb];
    assert SortByRevenue([ta, tb]) == Insert(ta, [tb]) == [ta, tb];
  }

  /** The example's revenue and status counts. */
  lemma ExampleTotals()
    ensures SumTotals([Order1, Order2, Order3]) == 180
    ensures CountPending([Order1, Order2, Order3]) == 2 && CountCompleted([Order1, Order2, Order3]) == 1
  {
    var orders := [Order1, Order2, Order3];
    assert orders[1..] == [Order2, Order3] && orders[1..][1..] == [Order3] && orders[1..][1..][1..] == [];
    assert CountPending([Order3]) == 1 && CountCompleted([Order3]) == 0;
    assert CountPending([Order2, Order3]) == 1 && CountCompleted([Order2, Order3]) == 1;
    assert orders[..2] == [Order1, Order2] && orders[..2][..1] == [Order1] && orders[..2][..1][..0] == [];
    assert SumTotals([Order1]) == 100 && SumTotals([Order1, Order2]) == 150;
  }

  /** The statistics of the example: revenue 180, two open orders and one
      completed, and the top clients A (2 orders, 150) then B (1 order, 30). */
  lemma TwoClientsExample()
    ensures var stats := Stats([ClientA, ClientB], [Order1, Order2, Order3]);
      && stats.totalRevenue == 180
      && stats.pendingOrders == 2 && stats.completedOrders == 1
      && stats.topClients == [TopClient("A", 2, 150), TopClient("B", 1, 30)]
  {
    ExampleTop();
    ExampleTotals();
    var stats := Stats([ClientA, ClientB], [Order1, Order2, Order3]);
    assert stats.topClients == [ToTopClient(ClientTally("a", "A", 2, 150)), ToTopClient(ClientTally("b", "B", 1, 30))];
  }
}
