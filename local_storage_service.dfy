/** The encrypted key/value repository: four buckets of the browser's local
    storage, each holding one encrypted JSON document (the user record, or the
    whole array of clients, orders or custom fields). Every operation re-reads
    its bucket, changes the array in memory and writes the whole array back. */
module LocalStorage {
  import opened Types
  import opened Seqs
  import opened Records

  const UserKey: string := "secure_user_data"
  const ClientsKey: string := "secure_clients_data"
  const OrdersKey: string := "secure_orders_data"
  const CustomFieldsKey: string := "secure_custom_fields"

  /** The four buckets are four different entries of local storage. */
  lemma BucketsDistinct()
    ensures UserKey != ClientsKey && UserKey != OrdersKey && UserKey != CustomFieldsKey
    ensures ClientsKey != OrdersKey && ClientsKey != CustomFieldsKey && OrdersKey != CustomFieldsKey
  {
    assert UserKey[7] != ClientsKey[7] && UserKey[7] != OrdersKey[7] && UserKey[7] != CustomFieldsKey[7];
    assert ClientsKey[7] != OrdersKey[7] && ClientsKey[8] != CustomFieldsKey[8] && OrdersKey[7] != CustomFieldsKey[7];
  }

  /** Writing one bucket leaves every other bucket reading as before. */
  lemma LoadOther<V>(store: map<string, string>, key: string, s: string, other: string, codec: Codec<V>)
    requires key != other
    ensures Load(store[key := s], other, codec) == Load(store, other, codec)
  {
  }

  /** `encrypt` / `decrypt`: AES over JSON with the embedded key, kept abstract.
      Decoding is partial: foreign or corrupted text does not decode. */
  datatype Codec<!V> = Codec(encode: V -> string, decode: string -> Option<V>)

  /** What the service relies on: decryption undoes encryption, and a
      ciphertext is never the empty string (which the getters read as
      "missing"). */
  ghost predicate ValidCodec<V(!new)>(c: Codec<V>) {
    forall v :: c.decode(c.encode(v)) == Some(v) && c.encode(v) != ""
  }

  /** Reading one bucket: a missing or empty entry and an entry that does not
      decode both read as None (the `!encrypted` test and the `catch`). */
  function Load<V>(store: map<string, string>, key: string, codec: Codec<V>): Option<V> {
    if key !in store || store[key] == "" then None else codec.decode(store[key])
  }

  /** Reading a collection bucket: an unreadable bucket is the empty array. */
  function Collection<T>(store: map<string, string>, key: string, codec: Codec<seq<T>>): seq<T> {
    Load(store, key, codec).GetOr([])
  }

  /** Writing a value and reading its bucket back gives the value (the
      round trip the getters depend on). */
  lemma SaveThenLoad<V(!new)>(store: map<string, string>, key: string, codec: Codec<V>, v: V)
    requires ValidCodec(codec)
    ensures Load(store[key := codec.encode(v)], key, codec) == Some(v)
  {
  }

  /** A missing, empty or undecodable bucket reads as the empty collection,
      without any failure reaching the caller. */
  lemma UnreadableBucketIsEmpty<T>(store: map<string, string>, key: string, codec: Codec<seq<T>>)
    requires key !in store || store[key] == "" || codec.decode(store[key]).None?
    ensures Collection(store, key, codec) == []
  {
  }

  /** The document `exportData` produces and `importData` consumes. */
  datatype Snapshot = Snapshot(clients: seq<Client>, orders: seq<Order>, customFields: seq<CustomField>)

  class LocalStorageService {
    /** The browser's local storage, shared with anything else on the origin. */
    var store: map<string, string>
    const userCodec: Codec<User>
    const clientsCodec: Codec<seq<Client>>
    const ordersCodec: Codec<seq<Order>>
    const customFieldsCodec: Codec<seq<CustomField>>

    ghost predicate Valid() {
      ValidCodec(userCodec) && ValidCodec(clientsCodec) && ValidCodec(ordersCodec) && ValidCodec(customFieldsCodec)
    }

    constructor (initial: map<string, string>, userCodec: Codec<User>, clientsCodec: Codec<seq<Client>>,
                 ordersCodec: Codec<seq<Order>>, customFieldsCodec: Codec<seq<CustomField>>)
      ensures store == initial
      ensures this.userCodec == userCodec && this.clientsCodec == clientsCodec
      ensures this.ordersCodec == ordersCodec && this.customFieldsCodec == customFieldsCodec
    {
      store := initial;
      this.userCodec := userCodec;
      this.clientsCodec := clientsCodec;
      this.ordersCodec := ordersCodec;
      this.customFieldsCodec := customFieldsCodec;
    }

    // ---- reads ----

    function GetUser(): Option<User>
      reads this
    {
      Load(store, UserKey, userCodec)
    }

    function GetClients(): seq<Client>
      reads this
    {
      Collection(store, ClientsKey, clientsCodec)
    }

    function GetOrders(): seq<Order>
      reads this
    {
      Collection(store, OrdersKey, ordersCodec)
    }

    function GetCustomFields(): seq<CustomField>
      reads this
    {
      Collection(store, CustomFieldsKey, customFieldsCodec)
    }

    /** `getClientOrders`: the stored orders of one client, in stored order. */
    function GetClientOrders(clientId: string): (r: seq<Order>)
      reads this
      ensures Subsequence(r, GetOrders())
      ensures forall i :: 0 <= i < |r| ==> r[i].clientId == clientId
      ensures forall i :: 0 <= i < |GetOrders()| && GetOrders()[i].clientId == clientId ==> GetOrders()[i] in r
      ensures forall o {:trigger multiset(r)[o]} ::
                multiset(r)[o] == if o.clientId == clientId then multiset(GetOrders())[o] else 0
    {
      var r := WithKey(GetOrders(), OrderClientIdOf, clientId);
      WithKeyMembers(GetOrders(), OrderClientIdOf, clientId);
      r
    }

    function ExportData(): (r: Snapshot)
      reads this
      ensures r.clients == GetClients() && r.orders == GetOrders() && r.customFields == GetCustomFields()
    {
      Snapshot(GetClients(), GetOrders(), GetCustomFields())
    }

    // ---- the generic repository, instantiated for each collection below ----

    method Save<V>(key: string, codec: Codec<V>, v: V)
      modifies this
      ensures store == old(store)[key := codec.encode(v)]
    {
      store := store[key := codec.encode(v)];
    }

    /** `push` onto a fresh read of the bucket, then write the bucket back. */
    method Append<T>(key: string, codec: Codec<seq<T>>, x: T)
      modifies this
      ensures store == old(store)[key := codec.encode(Collection(old(store), key, codec) + [x])]
    {
      var xs := Collection(store, key, codec);
      xs := xs + [x];
      Save(key, codec, xs);
    }

    /** `findIndex` by id; when found, assign that index and write back. */
    method Replace<T>(key: string, codec: Codec<seq<T>>, idOf: T -> string, x: T) returns (found: bool)
      modifies this
      ensures var xs := Collection(old(store), key, codec);
              var k := FindIndex(xs, idOf, idOf(x));
              && found == (0 <= k)
              && store == if found then old(store)[key := codec.encode(xs[k := x])] else old(store)
    {
      var xs := Collection(store, key, codec);
      var index := FindIndex(xs, idOf, idOf(x));
      if index != -1 {
        xs := xs[index := x];
        Save(key, codec, xs);
        return true;
      }
      return false;
    }

    /** `filter` out the id; write back only when the length changed. */
    method Remove<T(!new)>(key: string, codec: Codec<seq<T>>, idOf: T -> string, id: string) returns (found: bool)
      modifies this
      ensures var xs := Collection(old(store), key, codec);
              var ys := RemoveId(xs, idOf, id);
              && found == (|ys| != |xs|)
              && store == if found then old(store)[key := codec.encode(ys)] else old(store)
    {
      var xs := Collection(store, key, codec);
      var filtered := RemoveId(xs, idOf, id);
      if |filtered| != |xs| {
        Save(key, codec, filtered);
        return true;
      }
      return false;
    }

    // ---- user ----

    method SaveUser(user: User)
      requires Valid()
      modifies this
      ensures store == old(store)[UserKey := userCodec.encode(user)]
      ensures GetUser() == Some(user)
      ensures GetClients() == old(GetClients()) && GetOrders() == old(GetOrders())
      ensures GetCustomFields() == old(GetCustomFields())
    {
      BucketsDistinct();
      Save(UserKey, userCodec, user);
    }

    method RemoveUser()
      modifies this
      ensures store == old(store) - {UserKey}
      ensures GetUser() == None
      ensures GetClients() == old(GetClients()) && GetOrders() == old(GetOrders())
      ensures GetCustomFields() == old(GetCustomFields())
    {
      BucketsDistinct();
      store := store - {UserKey};
    }

    // ---- clients ----

    method SaveClients(clients: seq<Client>)
      requires Valid()
      modifies this
      ensures store == old(store)[ClientsKey := clientsCodec.encode(clients)]
      ensures GetClients() == clients
      ensures GetUser() == old(GetUser()) && GetOrders() == old(GetOrders())
      ensures GetCustomFields() == old(GetCustomFields())
    {
      BucketsDistinct();
      Save(ClientsKey, clientsCodec, clients);
    }

    method AddClient(client: Client)
      requires Valid()
      modifies this
      ensures store == old(store)[ClientsKey := clientsCodec.encode(old(GetClients()) + [client])]
      ensures GetClients() == old(GetClients()) + [client]
      ensures GetUser() == old(GetUser()) && GetOrders() == old(GetOrders())
      ensures GetCustomFields() == old(GetCustomFields())
    {
      BucketsDistinct();
      Append(ClientsKey, clientsCodec, client);
    }

    method UpdateClient(client: Client) returns (found: bool)
      requires Valid()
      modifies this
      ensures var xs := old(GetClients());
              var k := FindIndex(xs, ClientIdOf, client.id);
              && (found <==> exists i :: 0 <= i < |xs| && xs[i].id == client.id)
              && (found ==> GetClients() == xs[k := client])
              && (!found ==> store == old(store))
      ensures GetUser() == old(GetUser()) && GetOrders() == old(GetOrders())
      ensures GetCustomFields() == old(GetCustomFields())
    {
      BucketsDistinct();
      found := Replace(ClientsKey, clientsCodec, ClientIdOf, client);
    }

    method DeleteClient(clientId: string) returns (found: bool)
      requires Valid()
      modifies this
      ensures found <==> exists i :: 0 <= i < |old(GetClients())| && old(GetClients())[i].id == clientId
      ensures GetClients() == RemoveId(old(GetClients()), ClientIdOf, clientId)
      ensures !found ==> store == old(store)
      ensures GetUser() == old(GetUser()) && GetOrders() == old(GetOrders())
      ensures GetCustomFields() == old(GetCustomFields())
    {
      BucketsDistinct();
      ghost var xs := GetClients();
      ghost var before := store;
      found := Remove(ClientsKey, clientsCodec, ClientIdOf, clientId);
      if found {
        SaveThenLoad(before, ClientsKey, clientsCodec, RemoveId(xs, ClientIdOf, clientId));
        LoadOther(before, ClientsKey, store[ClientsKey], UserKey, userCodec);
        LoadOther(before, ClientsKey, store[ClientsKey], OrdersKey, ordersCodec);
        LoadOther(before, ClientsKey, store[ClientsKey], CustomFieldsKey, customFieldsCodec);
      }
      assert (forall i :: 0 <= i < |xs| ==> ClientIdOf(xs[i]) != clientId) <==> (forall i :: 0 <= i < |xs| ==> xs[i].id != clientId);
    }

    // ---- orders ----

    method SaveOrders(orders: seq<Order>)
      requires Valid()
      modifies this
      ensures store == old(store)[OrdersKey := ordersCodec.encode(orders)]
      ensures GetOrders() == orders
      ensures GetUser() == old(GetUser()) && GetClients() == old(GetClients())
      ensures GetCustomFields() == old(GetCustomFields())
    {
      BucketsDistinct();
      Save(OrdersKey, ordersCodec, orders);
    }

    method AddOrder(order: Order)
      requires Valid()
      modifies this
      ensures store == old(store)[OrdersKey := ordersCodec.encode(old(GetOrders()) + [order])]
      ensures GetOrders() == old(GetOrders()) + [order]
      ensures GetUser() == old(GetUser()) && GetClients() == old(GetClients())
      ensures GetCustomFields() == old(GetCustomFields())
    {
      BucketsDistinct();
      Append(OrdersKey, ordersCodec, order);
    }

    method UpdateOrder(order: Order) returns (found: bool)
      requires Valid()
      modifies this
      ensures var xs := old(GetOrders());
              var k := FindIndex(xs, OrderIdOf, order.id);
              && (found <==> exists i :: 0 <= i < |xs| && xs[i].id == order.id)
              && (found ==> GetOrders() == xs[k := order])
              && (!found ==> store == old(store))
      ensures GetUser() == old(GetUser()) && GetClients() == old(GetClients())
      ensures GetCustomFields() == old(GetCustomFields())
    {
      BucketsDistinct();
      found := Replace(OrdersKey, ordersCodec, OrderIdOf, order);
    }

    method DeleteOrder(orderId: string) returns (found: bool)
      requires Valid()
      modifies this
      ensures found <==> exists i :: 0 <= i < |old(GetOrders())| && old(GetOrders())[i].id == orderId
      ensures GetOrders() == RemoveId(old(GetOrders()), OrderIdOf, orderId)
      ensures !found ==> store == old(store)
      ensures GetUser() == old(GetUser()) && GetClients() == old(GetClients())
      ensures GetCustomFields() == old(GetCustomFields())
    {
      BucketsDistinct();
      ghost var xs := GetOrders();
      ghost var before := store;
      found := Remove(OrdersKey, ordersCodec, OrderIdOf, orderId);
      if found {
        SaveThenLoad(before, OrdersKey, ordersCodec, RemoveId(xs, OrderIdOf, orderId));
        LoadOther(before, OrdersKey, store[OrdersKey], UserKey, userCodec);
        LoadOther(before, OrdersKey, store[OrdersKey], ClientsKey, clientsCodec);
        LoadOther(before, OrdersKey, store[OrdersKey], CustomFieldsKey, customFieldsCodec);
      }
      assert (forall i :: 0 <= i < |xs| ==> OrderIdOf(xs[i]) != orderId) <==> (forall i :: 0 <= i < |xs| ==> xs[i].id != orderId);
    }

    // ---- custom fields ----

    method SaveCustomFields(fields: seq<CustomField>)
      requires Valid()
      modifies this
      ensures store == old(store)[CustomFieldsKey := customFieldsCodec.encode(fields)]
      ensures GetCustomFields() == fields
      ensures GetUser() == old(GetUser()) && GetClients() == old(GetClients())
      ensures GetOrders() == old(GetOrders())
    {
      BucketsDistinct();
      Save(CustomFieldsKey, customFieldsCodec, fields);
    }

    method AddCustomField(field: CustomField)
      requires Valid()
      modifies this
      ensures store == old(store)[CustomFieldsKey := customFieldsCodec.encode(old(GetCustomFields()) + [field])]
      ensures GetCustomFields() == old(GetCustomFields()) + [field]
      ensures GetUser() == old(GetUser()) && GetClients() == old(GetClients())
      ensures GetOrders() == old(GetOrders())
    {
      BucketsDistinct();
      Append(CustomFieldsKey, customFieldsCodec, field);
    }

    method UpdateCustomField(field: CustomField) returns (found: bool)
      requires Valid()
      modifies this
      ensures var xs := old(GetCustomFields());
              var k := FindIndex(xs, CustomFieldIdOf, field.id);
              && (found <==> exists i :: 0 <= i < |xs| && xs[i].id == field.id)
              && (found ==> GetCustomFields() == xs[k := field])
              && (!found ==> store == old(store))
      ensures GetUser() == old(GetUser()) && GetClients() == old(GetClients())
      ensures GetOrders() == old(GetOrders())
    {
      BucketsDistinct();
      found := Replace(CustomFieldsKey, customFieldsCodec, CustomFieldIdOf, field);
    }

    method DeleteCustomField(fieldId: string) returns (found: bool)
      requires Valid()
      modifies this
      ensures found <==> exists i :: 0 <= i < |old(GetCustomFields())| && old(GetCustomFields())[i].id == fieldId
      ensures GetCustomFields() == RemoveId(old(GetCustomFields()), CustomFieldIdOf, fieldId)
      ensures !found ==> store == old(store)
      ensures GetUser() == old(GetUser()) && GetClients() == old(GetClients())
      ensures GetOrders() == old(GetOrders())
    {
      BucketsDistinct();
      ghost var xs := GetCustomFields();
      ghost var before := store;
      found := Remove(CustomFieldsKey, customFieldsCodec, CustomFieldIdOf, fieldId);
      if found {
        SaveThenLoad(before, CustomFieldsKey, customFieldsCodec, RemoveId(xs, CustomFieldIdOf, fieldId));
        LoadOther(before, CustomFieldsKey, store[CustomFieldsKey], UserKey, userCodec);
        LoadOther(before, CustomFieldsKey, store[CustomFieldsKey], ClientsKey, clientsCodec);
        LoadOther(before, CustomFieldsKey, store[CustomFieldsKey], OrdersKey, ordersCodec);
      }
      assert (forall i :: 0 <= i < |xs| ==> CustomFieldIdOf(xs[i]) != fieldId) <==> (forall i :: 0 <= i < |xs| ==> xs[i].id != fieldId);
    }

    // ---- database utilities ----

    method ClearDatabase()
      modifies this
      ensures store == old(store) - {ClientsKey, OrdersKey, CustomFieldsKey}
      ensures GetClients() == [] && GetOrders() == [] && GetCustomFields() == []
      ensures GetUser() == old(GetUser())
    {
      BucketsDistinct();
      store := store - {ClientsKey};
      store := store - {OrdersKey};
      store := store - {CustomFieldsKey};
    }

    method ImportData(data: Snapshot)
      requires Valid()
      modifies this
      ensures store == old(store)[ClientsKey := clientsCodec.encode(data.clients)]
                                 [OrdersKey := ordersCodec.encode(data.orders)]
                                 [CustomFieldsKey := customFieldsCodec.encode(data.customFields)]
      ensures ExportData() == data
      ensures GetUser() == old(GetUser())
    {
      BucketsDistinct();
      SaveClients(data.clients);
      SaveOrders(data.orders);
      SaveCustomFields(data.customFields);
    }

    /** Importing what was just exported leaves all three collections as
        they were, in content and order. */
    method ReimportExport()
      requires Valid()
      modifies this
      ensures ExportData() == old(ExportData())
      ensures GetUser() == old(GetUser())
    {
      var data := ExportData();
      ImportData(data);
    }
  }
}
