/**
 The clients a container keeps for one service it depends on (container/clients.go,
 container/container.go, container/hash_selector.go): building, promoting, looking up.
 A client and the registration it was built from share one meta map.
*/
module Clients {
  import opened Endian

  const KEY_SERVICE_STATE := "service_state"
  const YOUNG := "young"
  const ADULT := "adult"
  const TCP := "tcp"

  class Meta {
    var kv: map<string, string>

    constructor (kv: map<string, string>)
      ensures this.kv == kv
    {
      this.kv := kv;
    }

    /** A key that is not there reads as the empty string. */
    predicate Matches(key: string, value: string)
      reads this
    {
      (if key in kv then kv[key] else "") == value
    }
  }

  class Service {
    const id: string
    const protocol: string
    const meta: Meta

    constructor (id: string, protocol: string, meta: Meta)
      ensures this.id == id && this.protocol == protocol && this.meta == meta
    {
      this.id, this.protocol, this.meta := id, protocol, meta;
    }
  }

  class Client {
    const id: string
    const meta: Meta

    constructor (id: string, meta: Meta)
      ensures this.id == id && this.meta == meta
    {
      this.id, this.meta := id, meta;
    }
  }

  class ClientMap {
    var clients: map<string, Client>

    constructor ()
      ensures clients == map[]
    {
      clients := map[];
    }

    ghost predicate Valid()
      reads this
    {
      forall id | id in clients :: clients[id].id == id
    }

    method Add(client: Client)
      requires Valid()
      modifies this
      ensures Valid() && clients == old(clients)[client.id := client]
    {
      clients := clients[client.id := client];
    }

    method Remove(id: string)
      requires Valid()
      modifies this
      ensures Valid() && clients == old(clients) - {id}
    {
      clients := clients - {id};
    }

    method Get(id: string) returns (r: Option<Client>)
      ensures r == if id in clients then Some(clients[id]) else None
    {
      r := if id in clients then Some(clients[id]) else None;
    }

    /** The clients whose meta has the given value, each once, in no particular order; no filter lists all. */
    method Servicies(kvs: seq<string>) returns (arr: seq<Client>)
      requires Valid()
      ensures |kvs| != 0 && |kvs| != 2 ==> arr == []
      ensures |kvs| == 0 || |kvs| == 2 ==>
        forall c :: c in arr <==>
          c.id in clients && clients[c.id] == c && (|kvs| == 2 ==> c.meta.Matches(kvs[0], kvs[1]))
      ensures forall i, j | 0 <= i < j < |arr| :: arr[i] != arr[j]
    {
      arr := [];
      if |kvs| != 0 && |kvs| != 2 {
        return;
      }
      var todo := clients.Keys;
      while todo != {}
        invariant todo <= clients.Keys
        invariant forall c :: c in arr <==>
          c.id in clients && c.id !in todo && clients[c.id] == c && (|kvs| == 2 ==> c.meta.Matches(kvs[0], kvs[1]))
        invariant forall i, j | 0 <= i < j < |arr| :: arr[i] != arr[j]
        decreases |todo|
      {
        var key :| key in todo;
        todo := todo - {key};
        var ser := clients[key];
        if |kvs| > 0 && !ser.meta.Matches(kvs[0], kvs[1]) {
          continue;
        }
        arr := arr + [ser];
      }
    }
  }

  /** HashSelector: the hash of the request's channel picks one of the services offered. */
  function Select(code: nat, srvs: seq<Client>): (id: string)
    requires srvs != []
    reads {}
  {
    srvs[code % |srvs|].id
  }

  ghost predicate IsAdult(clients: ClientMap, c: Client)
    reads clients, c.meta
  {
    c.id in clients.clients && clients.clients[c.id] == c && c.meta.Matches(KEY_SERVICE_STATE, ADULT)
  }

  /** Finds an adult client exactly when one is registered: of the adult ones the one the hash points at. */
  method Lookup(clients: ClientMap, code: nat) returns (r: Option<Client>, ghost offered: seq<Client>)
    requires clients.Valid()
    ensures r.Some? ==> IsAdult(clients, r.value)
    ensures forall c :: c in offered <==> IsAdult(clients, c)
    ensures forall i, j | 0 <= i < j < |offered| :: offered[i] != offered[j]
    ensures r == if offered == [] then None else Some(offered[code % |offered|])
    ensures r.None? ==> forall id | id in clients.clients :: !IsAdult(clients, clients.clients[id])
  {
    var srvs := clients.Servicies([KEY_SERVICE_STATE, ADULT]);
    if |srvs| == 0 {
      forall id | id in clients.clients ensures !IsAdult(clients, clients.clients[id]) {
        assert clients.clients[id] !in srvs;
      }
      return None, srvs;
    }
    offered := srvs;
    assert srvs[code % |srvs|] in srvs;
    var id := Select(code, srvs);
    r := clients.Get(id);
  }

  /** Never replaces a registered client; a new one shares the registration's meta map. */
  method BuildClient(clients: ClientMap, service: Service, dialer: bool, connects: bool) returns (r: Option<Client>)
    requires clients.Valid()
    modifies clients
    ensures clients.Valid()
    ensures r.Some? <==> service.id !in old(clients.clients) && service.protocol == TCP && dialer && connects
    ensures r.None? ==> clients.clients == old(clients.clients)
    ensures r.Some? ==> r.value.id == service.id && r.value.meta == service.meta
    ensures r.Some? ==> clients.clients == old(clients.clients)[service.id := r.value]
  {
    var registered := clients.Get(service.id);
    if registered.Some? {
      return None;
    }
    if service.protocol != TCP || !dialer || !connects {
      return None;
    }
    var cli := new Client(service.id, service.meta);
    clients.Add(cli);
    r := Some(cli);
  }

  /** The callback for a service newly reported by the naming service, up to its goroutine's sleep. */
  method WatchService(clients: ClientMap, service: Service, dialer: bool, connects: bool) returns (r: Option<Client>)
    requires clients.Valid()
    modifies clients, service.meta
    ensures clients.Valid()
    ensures service.id in old(clients.clients) ==>
      r == None && clients.clients == old(clients.clients) && service.meta.kv == old(service.meta.kv)
    ensures r.Some? <==> service.id !in old(clients.clients) && service.protocol == TCP && dialer && connects
    ensures r.Some? ==> r.value.id == service.id && !IsAdult(clients, r.value)
    ensures r.Some? ==> clients.clients == old(clients.clients)[service.id := r.value]
    ensures r.Some? ==>
      r.value.meta == service.meta && service.meta.kv == old(service.meta.kv)[KEY_SERVICE_STATE := YOUNG]
  {
    var registered := clients.Get(service.id);
    if registered.Some? {
      return None;
    }
    service.meta.kv := service.meta.kv[KEY_SERVICE_STATE := YOUNG];
    r := BuildClient(clients, service, dialer, connects);
  }

  /** The goroutine's wake-up writes the registration's map, and by that the client's. */
  method Promote(service: Service)
    modifies service.meta
    ensures service.meta.kv == old(service.meta.kv)[KEY_SERVICE_STATE := ADULT]
  {
    service.meta.kv := service.meta.kv[KEY_SERVICE_STATE := ADULT];
  }

  /** A watched service's new client is passed over until its promotion and offered after it. */
  method WatchThenPromote(clients: ClientMap, service: Service, connects: bool)
    returns (before: seq<Client>, after: seq<Client>, cli: Option<Client>)
    requires clients.Valid() && service.id !in clients.clients
    modifies clients, service.meta
    ensures cli.Some? ==> cli.value !in before && cli.value in after
    ensures cli.Some? <==> service.protocol == TCP && connects
  {
    cli := WatchService(clients, service, true, connects);
    before := clients.Servicies([KEY_SERVICE_STATE, ADULT]);
    Promote(service);
    after := clients.Servicies([KEY_SERVICE_STATE, ADULT]);
  }
}
