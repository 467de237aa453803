/** The dispatch engine (CommunicatorBase): the capability directory that maps
    contract method names to consecutive addresses, outbound call frames,
    inbound routing on the leading kind byte, the pending-call slots, the
    running-task list and the connection-status switch. Reflection is replaced
    by explicit method descriptors, handler invocation by an oracle, task
    status and elapsed time by inputs, and the transport by a trace of the
    frames handed to it. */
module Dispatch {
  import opened Wire
  import opened Contracts
  import opened ConverterBase
  import opened TripleDes

  /** The leading byte of every contract frame. */
  datatype CommunicationType = Call | CallAsync | CallAsyncReturn

  function KindByte(t: CommunicationType): (r: byte)
    ensures r <= 2
  {
    match t
    case Call => 0
    case CallAsync => 1
    case CallAsyncReturn => 2
  }

  /** The derived contract interface that reflection finds: its name and methods. */
  datatype ContractInterface = ContractInterface(name: string, methods: seq<MethodDesc>)

  /** Addresses are `ushort`: the counter wraps after this many methods. */
  const AddressSpace: nat := 0x1_0000

  /** Position `k` as a 16-bit address. */
  function Addr(k: nat): ushort
  {
    k % AddressSpace
  }

  // ---------------------------------------------------------------------
  // Capability directory
  // ---------------------------------------------------------------------

  predicate NamesDistinct(ms: seq<MethodDesc>)
  {
    forall i, j :: 0 <= i < j < |ms| ==> ms[i].name != ms[j].name
  }

  /** The name-to-address table `GetAddresses` builds: the method enumerated
      at position `i` gets the counter value `i`, wrapped to 16 bits. */
  function AddressMap(ms: seq<MethodDesc>): (r: map<string, ushort>)
    ensures |r| <= |ms|
    ensures |ms| > 0 ==> ms[|ms| - 1].name in r
    decreases |ms|
  {
    if ms == [] then map[]
    else
      AddressMap(ms[..|ms| - 1])[ms[|ms| - 1].name := Addr(|ms| - 1)]
  }

  lemma {:induction false} AddressMapKeys(ms: seq<MethodDesc>, name: string)
    ensures name in AddressMap(ms) <==> exists j :: 0 <= j < |ms| && ms[j].name == name
    decreases |ms|
  {
    if ms != [] {
      var init := ms[..|ms| - 1];
      AddressMapKeys(init, name);
      if name in AddressMap(init) {
        var j :| 0 <= j < |init| && init[j].name == name;
        assert ms[j] == init[j];
      }
      if exists j :: 0 <= j < |ms| && ms[j].name == name {
        var j :| 0 <= j < |ms| && ms[j].name == name;
        if j < |init| { assert init[j] == ms[j]; }
      }
    }
  }

  /** With distinct names, the method at position `k` has address `k` mod 2^16. */
  lemma {:induction false} AddressesConsecutive(ms: seq<MethodDesc>, k: nat)
    requires NamesDistinct(ms) && k < |ms|
    ensures ms[k].name in AddressMap(ms) && AddressMap(ms)[ms[k].name] == Addr(k)
    decreases |ms|
  {
    var init := ms[..|ms| - 1];
    if k < |init| {
      assert NamesDistinct(init) by {
        forall i, j | 0 <= i < j < |init| ensures init[i].name != init[j].name {
          assert init[i] == ms[i] && init[j] == ms[j];
        }
      }
      assert init[k] == ms[k];
      AddressesConsecutive(init, k);
    }
  }

  /** With distinct names the table has one entry per method. */
  lemma {:induction false} AddressMapSize(ms: seq<MethodDesc>)
    requires NamesDistinct(ms)
    ensures |AddressMap(ms)| == |ms|
    decreases |ms|
  {
    if ms != [] {
      var init := ms[..|ms| - 1];
      assert NamesDistinct(init) by {
        forall i, j | 0 <= i < j < |init| ensures init[i].name != init[j].name {
          assert init[i] == ms[i] && init[j] == ms[j];
        }
      }
      AddressMapSize(init);
      forall j | 0 <= j < |init| ensures init[j].name != ms[|ms| - 1].name {
        assert init[j] == ms[j];
      }
      AddressMapKeys(init, ms[|ms| - 1].name);
    }
  }

  /** Up to 2^16 methods with distinct names get distinct addresses. */
  lemma AddressesInjective(ms: seq<MethodDesc>, k: nat, l: nat)
    requires NamesDistinct(ms) && |ms| <= AddressSpace && k < l < |ms|
    ensures ms[k].name in AddressMap(ms) && ms[l].name in AddressMap(ms)
    ensures AddressMap(ms)[ms[k].name] != AddressMap(ms)[ms[l].name]
  {
    AddressesConsecutive(ms, k);
    AddressesConsecutive(ms, l);
    AddrSmall(k);
    AddrSmall(l);
  }

  /** One round of `GetAddresses`' loop: the name is a duplicate exactly when
      it is already in the table; otherwise the table and the counter advance. */
  lemma AddressTableStep(ms: seq<MethodDesc>, i: nat)
    requires i < |ms| && NamesDistinct(ms[..i])
    ensures ms[i].name in AddressMap(ms[..i]) ==> !NamesDistinct(ms)
    ensures ms[i].name !in AddressMap(ms[..i]) ==> NamesDistinct(ms[..i + 1])
    ensures AddressMap(ms[..i + 1]) == AddressMap(ms[..i])[ms[i].name := Addr(i)]
    ensures Addr(i + 1) == if Addr(i) == 0xFFFF then 0 else Addr(i) + 1
  {
    assert ms[..i + 1][..i] == ms[..i];
    AddressMapKeys(ms[..i], ms[i].name);
    if ms[i].name in AddressMap(ms[..i]) {
      var j :| 0 <= j < i && ms[..i][j].name == ms[i].name;
      assert ms[j].name == ms[i].name;
    } else {
      var next := ms[..i + 1];
      forall a, b | 0 <= a < b < |next| ensures next[a].name != next[b].name {
        if b == i {
          assert ms[..i][a] == ms[a];
        } else {
          assert ms[..i][a] == next[a] && ms[..i][b] == next[b];
        }
      }
    }
    AddrNext(i);
  }

  lemma AddrNext(i: nat)
    ensures Addr(i + 1) == if Addr(i) == 0xFFFF then 0 else Addr(i) + 1
  {
    var q := i / AddressSpace;
    assert i == q * AddressSpace + Addr(i);
    if Addr(i) == 0xFFFF {
      assert i + 1 == (q + 1) * AddressSpace;
    } else {
      assert i + 1 == q * AddressSpace + (Addr(i) + 1);
    }
  }

  /** `GetAddresses`' loop: `Add` of each name with the post-incremented counter. */
  method AddressTable(ms: seq<MethodDesc>) returns (r: Result<map<string, ushort>>)
    ensures r.Ok? <==> NamesDistinct(ms)
    ensures r.Err? ==> r.error == DuplicateKey
    ensures r.Ok? ==> r.value == AddressMap(ms)
  {
    var addresses: map<string, ushort> := map[];
    var addressIndexer: ushort := 0;
    var i := 0;
    while i < |ms|
      invariant 0 <= i <= |ms|
      invariant NamesDistinct(ms[..i])
      invariant addresses == AddressMap(ms[..i])
      invariant addressIndexer == Addr(i)
    {
      AddressTableStep(ms, i);
      if ms[i].name in addresses {
        return Err(DuplicateKey);
      }
      addresses := addresses[ms[i].name := addressIndexer];
      addressIndexer := if addressIndexer == 0xFFFF then 0 else addressIndexer + 1;
      i := i + 1;
    }
    assert ms[..i] == ms;
    r := Ok(addresses);
  }

  /** The filter `MapContract` stores for a method: the method and its parameter types. */
  function FilterOf(m: MethodDesc): (r: MessageFilter)
    ensures r.handler == m && r.types == m.params
  {
    MessageFilter(m, m.params)
  }

  /** The address-to-filter table of a contract: the filter for the method
      enumerated at position `a` is stored under address `a`. */
  function FilterTable(ms: seq<MethodDesc>): (r: map<ushort, MessageFilter>)
    requires |ms| <= AddressSpace
  {
    map a: ushort | 0 <= a < |ms| :: FilterOf(ms[a])
  }

  /** Exactly one filter per method, keyed by that method's `GetAddresses`
      address and carrying its parameter types in order. */
  lemma FilterKeyedByAddress(ms: seq<MethodDesc>, k: nat)
    requires NamesDistinct(ms) && |ms| <= AddressSpace && k < |ms|
    ensures ms[k].name in AddressMap(ms)
    ensures AddressMap(ms)[ms[k].name] in FilterTable(ms)
    ensures FilterTable(ms)[AddressMap(ms)[ms[k].name]] == MessageFilter(ms[k], ms[k].params)
  {
    AddressesConsecutive(ms, k);
    AddrSmall(k);
  }

  /** The filter table has no keys besides the contract's addresses. */
  lemma FilterKeysAreAddresses(ms: seq<MethodDesc>)
    requires NamesDistinct(ms) && |ms| <= AddressSpace
    ensures FilterTable(ms).Keys == AddressMap(ms).Values
  {
    var ft := FilterTable(ms);
    var am := AddressMap(ms);
    forall a | a in ft ensures a in am.Values {
      AddressesConsecutive(ms, a);
      AddrSmall(a);
      assert ms[a].name in am && am[ms[a].name] == a;
    }
    forall a | a in am.Values ensures a in ft {
      var n :| n in am && am[n] == a;
      AddressMapKeys(ms, n);
      var j :| 0 <= j < |ms| && ms[j].name == n;
      AddressesConsecutive(ms, j);
      AddrSmall(j);
    }
  }

  lemma AddrSmall(k: nat)
    requires k < AddressSpace
    ensures Addr(k) == k
  {
  }

  /** The order `OrderByDescending` produces: a permutation of the positions. */
  predicate IsPermutation(order: seq<nat>, n: nat)
  {
    && |order| == n
    && (forall x :: 0 <= x < n ==> order[x] < n)
    && (forall x, y :: 0 <= x < y < n ==> order[x] != order[y])
    && (forall k :: 0 <= k < n ==> k in order)
  }

  /** The addresses of the first `j` methods visited in `order`. */
  ghost function Visited(order: seq<nat>, j: nat): set<ushort>
    requires j <= |order|
  {
    if j == 0 then {} else Visited(order, j - 1) + {Addr(order[j - 1])}
  }

  lemma {:induction false} VisitedWitness(order: seq<nat>, j: nat, a: ushort)
    requires j <= |order| && a in Visited(order, j)
    ensures exists x :: 0 <= x < j && Addr(order[x]) == a
  {
    if Addr(order[j - 1]) != a {
      VisitedWitness(order, j - 1, a);
    }
  }

  lemma {:induction false} VisitedContains(order: seq<nat>, j: nat, x: nat)
    requires x < j <= |order|
    ensures Addr(order[x]) in Visited(order, j)
  {
    if x < j - 1 {
      VisitedContains(order, j - 1, x);
    }
  }

  /** `MapContract`'s table after the first `j` methods in `order`: one filter
      under the address of each, and no address taken twice. */
  ghost predicate FiltersSoFar(ms: seq<MethodDesc>, order: seq<nat>, j: nat, filters: map<ushort, MessageFilter>)
    requires j <= |order| && IsPermutation(order, |ms|)
  {
    && filters.Keys == Visited(order, j)
    && (forall x :: 0 <= x < j ==> Addr(order[x]) in filters && filters[Addr(order[x])] == FilterOf(ms[order[x]]))
    && (forall x, y :: 0 <= x < y < j ==> Addr(order[x]) != Addr(order[y]))
  }

  /** One round of `MapContract`'s loop: the next address is taken only when
      there are more than 2^16 methods, and otherwise the table grows by it. */
  lemma FiltersAdvance(ms: seq<MethodDesc>, order: seq<nat>, j: nat, filters: map<ushort, MessageFilter>)
    requires j < |order| && IsPermutation(order, |ms|) && FiltersSoFar(ms, order, j, filters)
    ensures Addr(order[j]) in filters ==> |ms| > AddressSpace
    ensures Addr(order[j]) !in filters ==> FiltersSoFar(ms, order, j + 1, filters[Addr(order[j]) := FilterOf(ms[order[j]])])
  {
    var a := Addr(order[j]);
    if a in filters {
      VisitedWitness(order, j, a);
      var x :| 0 <= x < j && Addr(order[x]) == a;
      if |ms| <= AddressSpace {
        AddrSmall(order[x]);
        AddrSmall(order[j]);
        assert false;
      }
    } else {
      var f := filters[a := FilterOf(ms[order[j]])];
      forall x, y | 0 <= x < y < j + 1 ensures Addr(order[x]) != Addr(order[y]) {
        if y == j {
          VisitedContains(order, j, x);
        }
      }
      assert f.Keys == Visited(order, j + 1);
    }
  }

  /** With at most 2^16 methods every position has been visited once the loop ends. */
  lemma FiltersComplete(ms: seq<MethodDesc>, order: seq<nat>, filters: map<ushort, MessageFilter>)
    requires |ms| <= AddressSpace && IsPermutation(order, |ms|)
    requires FiltersSoFar(ms, order, |order|, filters)
    ensures filters == FilterTable(ms)
  {
    var ft := FilterTable(ms);
    forall a | a in filters ensures a in ft && filters[a] == ft[a] {
      VisitedWitness(order, |order|, a);
      var x :| 0 <= x < |order| && Addr(order[x]) == a;
      AddrSmall(order[x]);
    }
    forall a | a in ft ensures a in filters {
      assert a as nat in order;
      var x :| 0 <= x < |order| && order[x] == a as nat;
      AddrSmall(order[x]);
      VisitedContains(order, |order|, x);
    }
  }

  /** Beyond 2^16 methods, positions 0 and 2^16 share address 0. */
  lemma WrapCollides(ms: seq<MethodDesc>, order: seq<nat>)
    requires |ms| > AddressSpace && IsPermutation(order, |ms|)
    ensures exists x, y :: 0 <= x < y < |order| && Addr(order[x]) == Addr(order[y])
  {
    assert 0 in order && AddressSpace in order;
    var x0 :| 0 <= x0 < |order| && order[x0] == 0;
    var y0 :| 0 <= y0 < |order| && order[y0] == AddressSpace;
    assert Addr(order[x0]) == Addr(order[y0]);
    if x0 > y0 {
      assert 0 <= y0 < x0 < |order| && Addr(order[y0]) == Addr(order[x0]);
    }
  }

  /** `MapContract`'s loop: `Add` of each method's filter under its address,
      visiting the methods in `order`. The result does not depend on `order`. */
  method BuildFilters(ms: seq<MethodDesc>, addresses: map<string, ushort>, order: seq<nat>)
    returns (r: Result<map<ushort, MessageFilter>>)
    requires NamesDistinct(ms) && addresses == AddressMap(ms) && IsPermutation(order, |ms|)
    ensures r.Ok? <==> |ms| <= AddressSpace
    ensures r.Err? ==> r.error == DuplicateKey
    ensures r.Ok? ==> r.value == FilterTable(ms)
  {
    var filters: map<ushort, MessageFilter> := map[];
    var j := 0;
    while j < |order|
      invariant 0 <= j <= |order|
      invariant FiltersSoFar(ms, order, j, filters)
    {
      var m := ms[order[j]];
      AddressesConsecutive(ms, order[j]);
      var a := addresses[m.name];
      FiltersAdvance(ms, order, j, filters);
      if a in filters {
        return Err(DuplicateKey);
      }
      filters := filters[a := FilterOf(m)];
      j := j + 1;
    }
    if |ms| > AddressSpace {
      WrapCollides(ms, order);
      return Err(DuplicateKey);
    }
    FiltersComplete(ms, order, filters);
    r := Ok(filters);
  }

  // ---------------------------------------------------------------------
  // Log and its subscribers
  // ---------------------------------------------------------------------

  /** The objects the core logs. */
  datatype LogItem =
    | AddressCount(count: nat, typeName: string)
    | Exception(error: Error)
    | Status(status: NetConnectionStatus)
    | ServiceStarted(port: nat)
    | TickOverrun(elapsed: int, interval: int)

  /** A logged object with the name of the member that logged it. */
  datatype LogEntry = LogEntry(item: LogItem, caller: string)

  /** A handler attached to `OnLoggedEvent`. */
  type Subscriber = nat

  /** One invocation of a subscriber with a log entry. */
  datatype Delivery = Delivery(subscriber: Subscriber, entry: LogEntry)

  /** Invoking the multicast event: every attached handler, in attachment order. */
  function Fanout(subs: seq<Subscriber>, e: LogEntry): seq<Delivery>
  {
    seq(|subs|, i requires 0 <= i < |subs| => Delivery(subs[i], e))
  }

  /** The invocations caused by logging `es` in order. */
  function FanoutAll(subs: seq<Subscriber>, es: seq<LogEntry>): seq<Delivery>
    decreases |es|
  {
    if es == [] then [] else FanoutAll(subs, es[..|es| - 1]) + Fanout(subs, es[|es| - 1])
  }

  lemma FanoutAllSnoc(subs: seq<Subscriber>, es: seq<LogEntry>, e: LogEntry)
    ensures FanoutAll(subs, es + [e]) == FanoutAll(subs, es) + Fanout(subs, e)
  {
    assert (es + [e])[..|es|] == es;
  }

  lemma OneEntryFanout(subs: seq<Subscriber>, e: LogEntry)
    ensures FanoutAll(subs, [e]) == Fanout(subs, e)
  {
    FanoutAllSnoc(subs, [], e);
    assert [] + [e] == [e];
  }

  lemma {:induction false} FanoutAllAppend(subs: seq<Subscriber>, a: seq<LogEntry>, b: seq<LogEntry>)
    ensures FanoutAll(subs, a + b) == FanoutAll(subs, a) + FanoutAll(subs, b)
    decreases |b|
  {
    if b == [] {
      assert a + b == a;
    } else {
      var init := b[..|b| - 1];
      var e := b[|b| - 1];
      assert b == init + [e];
      assert a + b == (a + init) + [e];
      FanoutAllSnoc(subs, a + init, e);
      FanoutAllSnoc(subs, init, e);
      FanoutAllAppend(subs, a, init);
    }
  }

  /** Logging `more` after `logged`: the log and the deliveries are those of `logged + more`. */
  lemma LogExtended(subs: seq<Subscriber>, log0: seq<LogEntry>, del0: seq<Delivery>, logged: seq<LogEntry>,
                    log1: seq<LogEntry>, del1: seq<Delivery>, more: seq<LogEntry>, log2: seq<LogEntry>, del2: seq<Delivery>)
    requires log1 == log0 + logged && del1 == del0 + FanoutAll(subs, logged)
    requires log2 == log1 + more && del2 == del1 + FanoutAll(subs, more)
    ensures log2 == log0 + (logged + more) && del2 == del0 + FanoutAll(subs, logged + more)
  {
    FanoutAllAppend(subs, logged, more);
  }

  /** The replay a new subscriber receives: the whole log, oldest first. */
  function Replay(s: Subscriber, log: seq<LogEntry>): seq<Delivery>
  {
    seq(|log|, i requires 0 <= i < |log| => Delivery(s, log[i]))
  }

  /** The entries a subscriber has been invoked with, in order. */
  function ReceivedBy(ds: seq<Delivery>, s: Subscriber): seq<LogEntry>
    decreases |ds|
  {
    if ds == [] then []
    else ReceivedBy(ds[..|ds| - 1], s) + (if ds[|ds| - 1].subscriber == s then [ds[|ds| - 1].entry] else [])
  }

  lemma {:induction false} ReceivedByAppend(a: seq<Delivery>, b: seq<Delivery>, s: Subscriber)
    ensures ReceivedBy(a + b, s) == ReceivedBy(a, s) + ReceivedBy(b, s)
    decreases |b|
  {
    if b != [] {
      assert (a + b)[..|a + b| - 1] == a + b[..|b| - 1];
      ReceivedByAppend(a, b[..|b| - 1], s);
    } else {
      assert a + b == a;
    }
  }

  /** The replay delivers exactly the log to the new subscriber and nothing to anyone else. */
  lemma {:induction false} ReplayReceived(s: Subscriber, log: seq<LogEntry>, t: Subscriber)
    ensures ReceivedBy(Replay(s, log), t) == (if t == s then log else [])
    decreases |log|
  {
    if log != [] {
      var init := log[..|log| - 1];
      assert Replay(s, log)[..|log| - 1] == Replay(s, init);
      ReplayReceived(s, init, t);
    }
  }

  /** Number of times `s` is attached. */
  function Occurrences(subs: seq<Subscriber>, s: Subscriber): nat
    decreases |subs|
  {
    if subs == [] then 0
    else Occurrences(subs[..|subs| - 1], s) + (if subs[|subs| - 1] == s then 1 else 0)
  }

  /** Logging one entry reaches each subscriber once per attachment. */
  lemma {:induction false} FanoutReceived(subs: seq<Subscriber>, e: LogEntry, t: Subscriber)
    ensures ReceivedBy(Fanout(subs, e), t) == seq(Occurrences(subs, t), _ => e)
    decreases |subs|
  {
    if subs != [] {
      var init := subs[..|subs| - 1];
      assert Fanout(subs, e)[..|subs| - 1] == Fanout(init, e);
      FanoutReceived(init, e, t);
    }
  }

  /** `-=` on a multicast delegate: the last attachment of `s` is removed. */
  function RemoveLast(subs: seq<Subscriber>, s: Subscriber): (r: seq<Subscriber>)
    ensures Occurrences(r, s) == if Occurrences(subs, s) == 0 then 0 else Occurrences(subs, s) - 1
    ensures forall t :: t != s ==> Occurrences(r, t) == Occurrences(subs, t)
    decreases |subs|
  {
    if subs == [] then []
    else if subs[|subs| - 1] == s then subs[..|subs| - 1]
    else
      var r := RemoveLast(subs[..|subs| - 1], s) + [subs[|subs| - 1]];
      assert r[..|r| - 1] == RemoveLast(subs[..|subs| - 1], s);
      r
  }

  // ---------------------------------------------------------------------
  // Frames, tasks and hooks
  // ---------------------------------------------------------------------

  /** A frame handed to the transport; `to == None` means "to the server". */
  datatype Outbound = Outbound(frame: Bytes, to: Option<Connection>)

  /** A pending call's slot: the expected return type and the reply, once it arrived. */
  datatype AwaitingCallJob = AwaitingCallJob(returnType: TypeName, data: Option<Value>)

  /** A running handler task; `task == None` is a handler that returned null. */
  datatype TaskJob = TaskJob(task: Option<TaskId>, taskType: Option<ReturnKind>, identifier: Option<Bytes>, reciever: Option<Connection>)

  /** The derived class's overridable reactions to a status change. */
  datatype Hook = OnConnected(conn: Option<Connection>) | OnDisconnected(conn: Option<Connection>)

  /** The network peer with its encryptor: a server or a client. */
  datatype Peer = ServerPeer(server: ServerEncryptor) | ClientPeer(client: ClientEncryptor)
  {
    function Objects(): set<object>
    {
      match this
      case ServerPeer(s) => {s}
      case ClientPeer(c) => {c}
    }
  }

  /** What the `Log` calls of `GetAddresses` record. */
  function AddressEntry(c: ContractInterface): LogEntry
  {
    LogEntry(AddressCount(|c.methods|, c.name), "GetAddresses")
  }

  /** A contract that `MapContract` accepts: found, distinct names, at most 2^16 methods. */
  predicate Mappable(c: Option<ContractInterface>)
  {
    c.Some? && NamesDistinct(c.value.methods) && |c.value.methods| <= AddressSpace
  }

  /** The entries `Initialize` logs: one per `GetAddresses` call that gets as far as logging. */
  function InitLog(sendT: ContractType, recvT: ContractType, recvC: Option<ContractInterface>, sendC: Option<ContractInterface>): seq<LogEntry>
  {
    if !sendT.isInterface || !recvT.isInterface || recvC.None? || !NamesDistinct(recvC.value.methods) then []
    else if |recvC.value.methods| > AddressSpace || sendC.None? || !NamesDistinct(sendC.value.methods) then [AddressEntry(recvC.value)]
    else if |sendC.value.methods| > AddressSpace then [AddressEntry(recvC.value), AddressEntry(sendC.value)]
    else [AddressEntry(recvC.value), AddressEntry(sendC.value), AddressEntry(sendC.value)]
  }

  // ---------------------------------------------------------------------
  // Outbound frames
  // ---------------------------------------------------------------------

  /** `[kind][ushort address][serialized call message]`. */
  function CallFrame(kind: CommunicationType, key: ushort, payload: Bytes): Bytes
  {
    [KindByte(kind)] + UInt16Bytes(key) + StringBytes(payload)
  }

  /** The writes of `CreateMessage` into a new outgoing message. */
  method WriteCallFrame(kind: CommunicationType, key: ushort, payload: Bytes) returns (m: NetMessage)
    ensures fresh(m) && m.Valid() && m.data == CallFrame(kind, key, payload)
    ensures m.bitLength == 8 * |m.data| && m.readPos == 0 && m.sender == None
  {
    m := new NetMessage.Outgoing();
    m.WriteByte(KindByte(kind));
    ghost var d1 := m.data;
    m.WriteUInt16(key);
    ghost var d2 := m.data;
    m.WriteString(payload);
    assert d1 == [KindByte(kind)] && d2 == d1 + UInt16Bytes(key) && m.data == d2 + StringBytes(payload);
  }

  /** A null identifier is written as the empty string. */
  function IdBytes(id: Option<Bytes>): Bytes
  {
    if id.None? then [] else id.value
  }

  /** The runtime type of a value (`GetType()`). */
  function TypeOf(v: Value): ParamType
  {
    match v
    case ConnValue(_) => ConnectionType
    case DataValue(t, _) => DataType(t)
  }

  /** `[2][identifier][result serialized under its runtime type]`. */
  function ReplyFrame(cv: Converter, id: Option<Bytes>, v: Value): Bytes
  {
    [KindByte(CallAsyncReturn)] + StringBytes(IdBytes(id)) + StringBytes(cv.serializeArgument(v, TypeOf(v)))
  }

  /** `SendAwaitedReturnMessage`: the reply frame goes out unencrypted; a null
      result fails on `GetType()`, and a server needs a connection. */
  function ReplyOutbound(isServer: bool, cv: Converter, id: Option<Bytes>, result: Option<Value>, conn: Option<Connection>): (r: Result<Outbound>)
    ensures r.Ok? <==> result.Some? && (isServer ==> conn.Some?)
    ensures r.Ok? ==> r.value.frame == ReplyFrame(cv, id, result.value) && r.value.to == (if isServer then conn else None)
    ensures r.Err? ==> r.error == (if result.None? then NullReference else ArgumentNull)
  {
    if result.None? then Err(NullReference)
    else
      var f := ReplyFrame(cv, id, result.value);
      if !isServer then Ok(Outbound(f, None))
      else if conn.None? then Err(ArgumentNull)
      else Ok(Outbound(f, conn))
  }

  /** What the peer's encryptor makes of an outgoing message's bytes. */
  function Seal(p: Peer, content: Bytes, recipient: Option<Connection>): (r: Result<Bytes>)
    reads p.Objects()
    ensures r.Err? <==> (p.ServerPeer? && recipient.None?) || (p.ClientPeer? && p.client.provider.None?)
    ensures p.ServerPeer? && recipient.Some? && recipient.value !in p.server.providers ==> r == Ok(content)
    ensures r.Ok? && r.value != content ==> |r.value| >= 4 && UInt32At(r.value, 0) == (8 * |content|) % TwoTo32
  {
    match p
    case ServerPeer(s) =>
      if recipient.None? then Err(ArgumentNull)
      else if recipient.value !in s.providers then Ok(content)
      else Ok(Frame(s.cipher, s.providers[recipient.value], content, 8 * |content|))
    case ClientPeer(c) =>
      if c.provider.None? then Err(NullReference)
      else Ok(Frame(c.cipher, c.provider.value, content, 8 * |content|))
  }

  /** A client sends only when no recipient is given, a server only when one is. */
  predicate Reaches(p: Peer, recipient: Option<Connection>)
  {
    (recipient.None? && p.ClientPeer?) || (recipient.Some? && p.ServerPeer?)
  }

  /** Encrypting and sending a frame: the outcome and what reaches the transport. */
  function Transmission(p: Peer, content: Bytes, recipient: Option<Connection>): (r: (Outcome, seq<Outbound>))
    reads p.Objects()
    ensures |r.1| <= 1
    ensures r.1 != [] ==> r.0 == Pass && Reaches(p, recipient) && r.1[0].to == recipient
  {
    match Seal(p, content, recipient)
    case Err(e) => (Fail(e), [])
    case Ok(f) => (Pass, if Reaches(p, recipient) then [Outbound(f, recipient)] else [])
  }

  /** A server has no key for a null recipient: its encryptor throws. */
  lemma ServerNeedsRecipient(s: ServerEncryptor, content: Bytes)
    ensures Transmission(ServerPeer(s), content, None) == (Fail(ArgumentNull), [])
  {
  }

  /** A keyed server frame unwraps, with the recipient's key, to the original bytes. */
  lemma ServerFrameRoundTrip(s: ServerEncryptor, content: Bytes, to: Connection)
    requires Inverse(s.cipher) && to in s.providers && 8 * |content| < TwoTo31
    ensures Seal(ServerPeer(s), content, Some(to)).Ok?
    ensures var f := Seal(ServerPeer(s), content, Some(to)).value;
      4 <= |f| && Unwrap(s.cipher, s.providers[to], f, f, 0, 4) == Ok((content, 8 * |content|))
  {
    FrameRoundTrip(s.cipher, s.providers[to], content, 8 * |content|);
  }

  /** Writing a message through the peer's encryptor (`NetEncryptor.Encrypt`). */
  method SealMessage(p: Peer, msg: NetMessage, recipient: Option<Connection>) returns (r: Outcome)
    requires msg.Valid() && msg.bitLength == 8 * |msg.data|
    modifies msg`data, msg`bitLength
    ensures msg.Valid() && msg.bitLength == 8 * |msg.data|
    ensures Seal(p, old(msg.data), recipient).Err? ==> r == Fail(Seal(p, old(msg.data), recipient).error) && msg.data == old(msg.data)
    ensures Seal(p, old(msg.data), recipient).Ok? ==> r == Pass && msg.data == Seal(p, old(msg.data), recipient).value
  {
    assert msg.Content() == msg.data;
    match p
    case ServerPeer(s) =>
      r := s.Encrypt(msg, recipient);
    case ClientPeer(c) =>
      r := c.Encrypt(msg, recipient);
  }

  /** One iteration of the awaiting task's poll loop. */
  datatype AwaitStatus = Waiting | Returned(value: Value) | TimedOut(error: Error) | Faulted(error: Error)

  /** `_awaitingCalls.Add(taskKey, new AwaitingCallJob{ReturnType, Data = null})`. */
  function OpenSlot(awaiting: map<Bytes, AwaitingCallJob>, token: Bytes, returnType: TypeName): (r: Result<map<Bytes, AwaitingCallJob>>)
    ensures r.Ok? <==> token !in awaiting
    ensures r.Err? ==> r.error == DuplicateKey
    ensures r.Ok? ==> r.value.Keys == awaiting.Keys + {token} && r.value[token] == AwaitingCallJob(returnType, None)
    ensures r.Ok? ==> forall t :: t in awaiting ==> r.value[t] == awaiting[t]
  {
    if token in awaiting then Err(DuplicateKey) else Ok(awaiting[token := AwaitingCallJob(returnType, None)])
  }

  /** One poll: the time-out is checked first, then the slot's data; both
      endings remove the slot. */
  function Poll(awaiting: map<Bytes, AwaitingCallJob>, timeOut: real, methodName: string, token: Bytes, elapsed: real): (r: (AwaitStatus, map<Bytes, AwaitingCallJob>))
    ensures elapsed >= timeOut ==> r.0 == TimedOut(CommunicationTimeOut(methodName, elapsed))
    ensures r.0.Waiting? <==> elapsed < timeOut && token in awaiting && awaiting[token].data.None?
    ensures r.0.Returned? <==> elapsed < timeOut && token in awaiting && awaiting[token].data.Some?
    ensures r.0.Returned? ==> r.0.value == awaiting[token].data.value
    ensures r.0.Waiting? || r.0.Faulted? ==> r.1 == awaiting
    ensures r.0.Returned? || r.0.TimedOut? ==> r.1 == awaiting - {token}
    ensures r.0.Faulted? ==> r.0.error == KeyNotFound
  {
    if elapsed >= timeOut then (TimedOut(CommunicationTimeOut(methodName, elapsed)), awaiting - {token})
    else if token !in awaiting then (AwaitStatus.Faulted(KeyNotFound), awaiting)
    else if awaiting[token].data.Some? then (Returned(awaiting[token].data.value), awaiting - {token})
    else (Waiting, awaiting)
  }

  // ---------------------------------------------------------------------
  // Inbound routing
  // ---------------------------------------------------------------------

  /** What invoking a handler (`MethodInfo.Invoke`) yields: a task, null,
      some other object, or an exception thrown by the handler. */
  datatype Invocation = ReturnedTask(task: TaskId) | ReturnedNull | ReturnedOther | Threw(error: Error)

  /** The effect of `FilterMessage` on one message: the new slot map, the
      tasks registered, the exception logged, the read position reached and
      whether it returned or threw. */
  datatype Routed = Routed(awaiting: map<Bytes, AwaitingCallJob>, added: seq<TaskJob>, logged: Option<Error>, readPos: nat, outcome: Outcome)

  /** After a Call: a handler declared to return `Task` has its task registered,
      with no type, token or recipient; exceptions are logged. */
  function AfterCall(h: MethodDesc, inv: Invocation): (r: (seq<TaskJob>, Option<Error>))
    ensures |r.0| <= 1 && (r.0 == [] || r.1.None?)
    ensures r.0 != [] <==> h.returnKind == TaskType && (inv.ReturnedTask? || inv.ReturnedNull?)
    ensures r.0 != [] ==> r.0[0].taskType.None? && r.0[0].identifier.None? && r.0[0].reciever.None?
    ensures inv.Threw? ==> r == ([], Some(inv.error))
  {
    match inv
    case Threw(e) => ([], Some(e))
    case ReturnedTask(t) => if h.returnKind == TaskType then ([TaskJob(Some(t), None, None, None)], None) else ([], None)
    case ReturnedNull => if h.returnKind == TaskType then ([TaskJob(None, None, None, None)], None) else ([], None)
    case ReturnedOther => if h.returnKind == TaskType then ([], Some(InvalidCast)) else ([], None)
  }

  /** After a CallAsync: the handler's task is registered with the method's
      return type, the frame's token and the sender; a result that is not a
      task fails the cast, and exceptions are logged. */
  function AfterCallAsync(h: MethodDesc, inv: Invocation, token: Bytes, sender: Option<Connection>): (r: (seq<TaskJob>, Option<Error>))
    ensures |r.0| <= 1 && (r.0 == [] <==> r.1.Some?)
    ensures r.0 != [] ==> r.0[0] == TaskJob(if inv.ReturnedTask? then Some(inv.task) else None, Some(h.returnKind), Some(token), sender)
    ensures inv.Threw? ==> r.1 == Some(inv.error)
    ensures inv.ReturnedOther? ==> r.1 == Some(InvalidCast)
  {
    match inv
    case Threw(e) => ([], Some(e))
    case ReturnedTask(t) => ([TaskJob(Some(t), Some(h.returnKind), Some(token), sender)], None)
    case ReturnedNull => ([TaskJob(None, Some(h.returnKind), Some(token), sender)], None)
    case ReturnedOther => ([], Some(InvalidCast))
  }

  /** `FilterMessage` on the readable bytes `s` of a message whose read position is `p`. */
  function Route(cv: Converter, filters: map<ushort, MessageFilter>, awaiting: map<Bytes, AwaitingCallJob>,
                 s: Bytes, p: nat, sender: Option<Connection>, invoke: (MethodDesc, seq<Value>) -> Invocation): (r: Routed)
    ensures r.awaiting.Keys == awaiting.Keys
    ensures forall t :: t in awaiting ==> r.awaiting[t].returnType == awaiting[t].returnType
    ensures r.awaiting != awaiting ==> p < |s| && s[p] == KindByte(CallAsyncReturn) && r.added == [] && r.logged.None?
    ensures r.added != [] ==> p < |s| && s[p] <= 1 && |r.added| == 1
    ensures r.outcome.Fail? ==> r.added == [] && r.logged.None?
    ensures r.logged.Some? ==> r.added == []
    ensures p < |s| && s[p] > KindByte(CallAsyncReturn) ==> r.outcome.Fail? && r.awaiting == awaiting
  {
    if p + 1 > |s| then Routed(awaiting, [], None, p, Fail(ReadPastEnd))
    else if s[p] == KindByte(CallAsyncReturn) then RouteReply(cv, awaiting, s, p + 1)
    else RouteCall(cv, filters, awaiting, s, p + 1, s[p], sender, invoke)
  }

  lemma RouteSplit(cv: Converter, filters: map<ushort, MessageFilter>, awaiting: map<Bytes, AwaitingCallJob>,
                   s: Bytes, p: nat, sender: Option<Connection>, invoke: (MethodDesc, seq<Value>) -> Invocation)
    requires p < |s|
    ensures s[p] == KindByte(CallAsyncReturn) ==> Route(cv, filters, awaiting, s, p, sender, invoke) == RouteReply(cv, awaiting, s, p + 1)
    ensures s[p] != KindByte(CallAsyncReturn) ==>
      Route(cv, filters, awaiting, s, p, sender, invoke) == RouteCall(cv, filters, awaiting, s, p + 1, s[p], sender, invoke)
  {
  }

  /** The CallAsyncReturn branch of `FilterMessage`, from the read position `p`
      after the kind byte: the token, then the payload, fill the pending slot. */
  function RouteReply(cv: Converter, awaiting: map<Bytes, AwaitingCallJob>, s: Bytes, p: nat): (r: Routed)
    ensures r.awaiting.Keys == awaiting.Keys && r.added == [] && r.logged.None?
    ensures forall t :: t in awaiting ==> r.awaiting[t].returnType == awaiting[t].returnType
  {
    match StringAt(s, p)
    case None => Routed(awaiting, [], None, p, Fail(ReadPastEnd))
    case Some((identifier, q)) =>
      if identifier !in awaiting then Routed(awaiting, [], None, q, Fail(KeyNotFound))
      else match StringAt(s, q)
        case None => Routed(awaiting, [], None, q, Fail(ReadPastEnd))
        case Some((payload, q2)) =>
          var job := awaiting[identifier];
          Routed(awaiting[identifier := job.(data := Some(cv.deserializeArgument(payload, DataType(job.returnType))))], [], None, q2, Pass)
  }

  /** The Call and CallAsync branches of `FilterMessage`, from the read position
      `p` after the kind byte `kind`: the address, the envelope, and for
      CallAsync the token, then the handler's invocation. */
  function RouteCall(cv: Converter, filters: map<ushort, MessageFilter>, awaiting: map<Bytes, AwaitingCallJob>,
                     s: Bytes, p: nat, kind: byte, sender: Option<Connection>, invoke: (MethodDesc, seq<Value>) -> Invocation): (r: Routed)
    ensures r.awaiting == awaiting
    ensures r.added != [] ==> kind <= 1 && |r.added| == 1
    ensures r.outcome.Fail? ==> r.added == [] && r.logged.None?
    ensures r.logged.Some? ==> r.added == []
    ensures kind > KindByte(CallAsyncReturn) ==> r.outcome.Fail?
  {
    if p + 2 > |s| then Routed(awaiting, [], None, p, Fail(ReadPastEnd))
    else
      var key := UInt16At(s, p);
      if key !in filters then Routed(awaiting, [], None, p + 2, Fail(KeyNotFound))
      else match StringAt(s, p + 2)
        case None => Routed(awaiting, [], None, p + 2, Fail(ReadPastEnd))
        case Some((payload, q)) =>
          var pointer := filters[key];
          match Decoded(cv, payload, pointer.types, sender)
          case Err(e) => Routed(awaiting, [], None, q, Fail(e))
          case Ok(args) => RouteInvoke(awaiting, s, q, kind, pointer.handler, args, sender, invoke)
  }

  /** The end of a Call or CallAsync frame, from the read position `q` after the
      envelope: the handler `h` is invoked with the decoded arguments. */
  function RouteInvoke(awaiting: map<Bytes, AwaitingCallJob>, s: Bytes, q: nat, kind: byte, h: MethodDesc, args: seq<Value>,
                       sender: Option<Connection>, invoke: (MethodDesc, seq<Value>) -> Invocation): (r: Routed)
    ensures r.awaiting == awaiting
    ensures r.added != [] ==> kind <= 1 && |r.added| == 1
    ensures r.outcome.Fail? ==> r.added == [] && r.logged.None?
    ensures r.logged.Some? ==> r.added == []
    ensures kind > KindByte(CallAsyncReturn) ==> r.outcome.Fail?
  {
    if kind == KindByte(Call) then
      var o := AfterCall(h, invoke(h, args));
      Routed(awaiting, o.0, o.1, q, Pass)
    else if kind == KindByte(CallAsync) then
      match StringAt(s, q)
      case None => Routed(awaiting, [], Some(ReadPastEnd), q, Pass)
      case Some((token, q2)) =>
        var o := AfterCallAsync(h, invoke(h, args), token, sender);
        Routed(awaiting, o.0, o.1, q2, Pass)
    else Routed(awaiting, [], None, q, Fail(ArgumentOutOfRange))
  }

  /** A reply frame for a pending token fills that slot with the result,
      deserialized under the slot's return type, and registers nothing. */
  lemma ReplyFillsSlot(cv: Converter, filters: map<ushort, MessageFilter>, awaiting: map<Bytes, AwaitingCallJob>,
                       id: Bytes, v: Value, sender: Option<Connection>, invoke: (MethodDesc, seq<Value>) -> Invocation)
    requires Lawful(cv) && id in awaiting && TypeOf(v) == DataType(awaiting[id].returnType)
    ensures Route(cv, filters, awaiting, ReplyFrame(cv, Some(id), v), 0, sender, invoke)
      == Routed(awaiting[id := awaiting[id].(data := Some(v))], [], None, |ReplyFrame(cv, Some(id), v)|, Pass)
  {
    var payload := cv.serializeArgument(v, TypeOf(v));
    StringAfter([KindByte(CallAsyncReturn)], id, StringBytes(payload));
    StringAfter([KindByte(CallAsyncReturn)] + StringBytes(id), payload, []);
    assert [KindByte(CallAsyncReturn)] + StringBytes(id) + StringBytes(payload) + [] == ReplyFrame(cv, Some(id), v);
  }

  /** A reply whose token has no pending slot throws and changes nothing. */
  lemma ReplyForUnknownTokenThrows(cv: Converter, filters: map<ushort, MessageFilter>, awaiting: map<Bytes, AwaitingCallJob>,
                                   id: Option<Bytes>, v: Value, sender: Option<Connection>, invoke: (MethodDesc, seq<Value>) -> Invocation)
    requires IdBytes(id) !in awaiting
    ensures var r := Route(cv, filters, awaiting, ReplyFrame(cv, id, v), 0, sender, invoke);
      r.outcome == Fail(KeyNotFound) && r.awaiting == awaiting && r.added == [] && r.logged.None?
  {
    StringAfter([KindByte(CallAsyncReturn)], IdBytes(id), StringBytes(cv.serializeArgument(v, TypeOf(v))));
  }

  /** The awaiting side of a reply: once the reply frame is routed, the next
      poll before the time-out returns the replied value and clears the slot. */
  lemma ReplyCompletesAwait(cv: Converter, filters: map<ushort, MessageFilter>, awaiting: map<Bytes, AwaitingCallJob>,
                            id: Bytes, v: Value, sender: Option<Connection>, invoke: (MethodDesc, seq<Value>) -> Invocation,
                            timeOut: real, methodName: string, elapsed: real)
    requires Lawful(cv) && id in awaiting && TypeOf(v) == DataType(awaiting[id].returnType) && elapsed < timeOut
    ensures var r := Route(cv, filters, awaiting, ReplyFrame(cv, Some(id), v), 0, sender, invoke);
      Poll(r.awaiting, timeOut, methodName, id, elapsed) == (Returned(v), awaiting - {id})
  {
    ReplyFillsSlot(cv, filters, awaiting, id, v, sender, invoke);
    var m := awaiting[id := awaiting[id].(data := Some(v))];
    assert m - {id} == awaiting - {id};
  }

  /** A call frame addressed with a contract's table reaches the method at that
      address with the caller's arguments, and leaves the rest of the frame unread. */
  lemma CallFrameRoutes(cv: Converter, ms: seq<MethodDesc>, k: nat, kind: CommunicationType, args: seq<Value>, tail: Bytes,
                        awaiting: map<Bytes, AwaitingCallJob>, sender: Option<Connection>)
    requires Lawful(cv) && NamesDistinct(ms) && |ms| <= AddressSpace && k < |ms|
    requires TrailingConnections(ms[k].params) && ArgsCoverData(ms[k].params, args)
    ensures ms[k].name in AddressMap(ms)
    ensures var key := AddressMap(ms)[ms[k].name];
      var frame := CallFrame(kind, key, cv.serializeCallMessage(CallMessage(key, SerializedArgs(cv, ms[k].params, args))));
      && key in FilterTable(ms) && FilterTable(ms)[key] == MessageFilter(ms[k], ms[k].params)
      && StringAt(frame + tail, 3) == Some((cv.serializeCallMessage(CallMessage(key, SerializedArgs(cv, ms[k].params, args))), |frame|))
      && Decoded(cv, cv.serializeCallMessage(CallMessage(key, SerializedArgs(cv, ms[k].params, args))), ms[k].params, sender)
         == Ok(Bound(ms[k].params, args, sender))
  {
    FilterKeyedByAddress(ms, k);
    var key := AddressMap(ms)[ms[k].name];
    var payload := cv.serializeCallMessage(CallMessage(key, SerializedArgs(cv, ms[k].params, args)));
    StringAfter([KindByte(kind)] + UInt16Bytes(key), payload, tail);
    CallRoundTrip(cv, key, ms[k].params, args, sender);
  }

  /** End to end: a Call frame built from a contract's address table and
      routed through the same contract's filter table invokes the addressed
      method with the caller's arguments, the connection slots bound to the sender. */
  lemma CallReachesHandler(cv: Converter, ms: seq<MethodDesc>, k: nat, args: seq<Value>,
                           awaiting: map<Bytes, AwaitingCallJob>, sender: Option<Connection>, invoke: (MethodDesc, seq<Value>) -> Invocation)
    requires Lawful(cv) && NamesDistinct(ms) && |ms| <= AddressSpace && k < |ms|
    requires TrailingConnections(ms[k].params) && ArgsCoverData(ms[k].params, args)
    ensures ms[k].name in AddressMap(ms)
    ensures var key := AddressMap(ms)[ms[k].name];
      var frame := CallFrame(Call, key, cv.serializeCallMessage(CallMessage(key, SerializedArgs(cv, ms[k].params, args))));
      var o := AfterCall(ms[k], invoke(ms[k], Bound(ms[k].params, args, sender)));
      Route(cv, FilterTable(ms), awaiting, frame, 0, sender, invoke) == Routed(awaiting, o.0, o.1, |frame|, Pass)
  {
    var key := AddressMap(ms)[ms[k].name];
    var frame := CallFrame(Call, key, cv.serializeCallMessage(CallMessage(key, SerializedArgs(cv, ms[k].params, args))));
    CallFrameRoutes(cv, ms, k, Call, args, [], awaiting, sender);
    assert frame + [] == frame;
    assert frame[0] == KindByte(Call) && UInt16At(frame, 1) == key;
    RouteSplit(cv, FilterTable(ms), awaiting, frame, 0, sender, invoke);
    assert RouteCall(cv, FilterTable(ms), awaiting, frame, 1, frame[0], sender, invoke)
      == RouteInvoke(awaiting, frame, |frame|, frame[0], ms[k], Bound(ms[k].params, args, sender), sender, invoke);
  }

  /** End to end for CallAsync: the addressed method is invoked and its task is
      registered under the frame's token, replying to the sender. */
  lemma AsyncCallReachesHandler(cv: Converter, ms: seq<MethodDesc>, k: nat, args: seq<Value>, token: Bytes,
                                awaiting: map<Bytes, AwaitingCallJob>, sender: Option<Connection>, invoke: (MethodDesc, seq<Value>) -> Invocation)
    requires Lawful(cv) && NamesDistinct(ms) && |ms| <= AddressSpace && k < |ms|
    requires TrailingConnections(ms[k].params) && ArgsCoverData(ms[k].params, args)
    ensures ms[k].name in AddressMap(ms)
    ensures var key := AddressMap(ms)[ms[k].name];
      var frame := CallFrame(CallAsync, key, cv.serializeCallMessage(CallMessage(key, SerializedArgs(cv, ms[k].params, args)))) + StringBytes(token);
      var o := AfterCallAsync(ms[k], invoke(ms[k], Bound(ms[k].params, args, sender)), token, sender);
      Route(cv, FilterTable(ms), awaiting, frame, 0, sender, invoke) == Routed(awaiting, o.0, o.1, |frame|, Pass)
  {
    var key := AddressMap(ms)[ms[k].name];
    var call := CallFrame(CallAsync, key, cv.serializeCallMessage(CallMessage(key, SerializedArgs(cv, ms[k].params, args))));
    var frame := call + StringBytes(token);
    CallFrameRoutes(cv, ms, k, CallAsync, args, StringBytes(token), awaiting, sender);
    StringAfter(call, token, []);
    assert call + StringBytes(token) + [] == frame;
    assert frame[0] == KindByte(CallAsync) && UInt16At(frame, 1) == key;
    RouteSplit(cv, FilterTable(ms), awaiting, frame, 0, sender, invoke);
    assert RouteCall(cv, FilterTable(ms), awaiting, frame, 1, frame[0], sender, invoke)
      == RouteInvoke(awaiting, frame, |call|, frame[0], ms[k], Bound(ms[k].params, args, sender), sender, invoke);
  }

  /** The entries `FilterMessage` logs for a caught exception. */
  function FilterLog(e: Option<Error>): seq<LogEntry>
  {
    if e.None? then [] else [LogEntry(Exception(e.value), "FilterMessage")]
  }

  // ---------------------------------------------------------------------
  // Running tasks
  // ---------------------------------------------------------------------

  /** `System.Threading.Tasks.TaskStatus` as observed when the sweep reaches a
      job; a completed task carries its `Result` (`None` for null or for a
      task without one), a canceled or faulted one its `Exception`. */
  datatype TaskStatus =
    | Created | WaitingForActivation | WaitingToRun | Running | WaitingForChildrenToComplete
    | RanToCompletion(result: Option<Value>)
    | Canceled(cancellation: Option<Error>)
    | Faulted(fault: Option<Error>)
  {
    predicate Pending()
    {
      Created? || WaitingForActivation? || WaitingToRun? || Running? || WaitingForChildrenToComplete?
    }
  }

  /** What the sweep does with one job: keep it, drop it (with the reply it
      sent and the exception it recorded), or stop with an exception, the job
      already removed or not. */
  datatype Visit = Keep | Drop(reply: seq<Outbound>, caught: seq<Error>) | Abort(removed: bool, error: Error)

  function OptionToSeq<T>(o: Option<T>): (r: seq<T>)
    ensures |r| <= 1
  {
    if o.None? then [] else [o.value]
  }

  /** One job of the sweep. A job whose task is null throws on `Status`; a
      completed job typed other than `Task` sends its result back to the caller. */
  function Step(isServer: bool, cv: Converter, job: TaskJob, observe: TaskId -> TaskStatus): (r: Visit)
    ensures r.Keep? <==> job.task.Some? && observe(job.task.value).Pending()
    ensures r.Abort? && !r.removed ==> job.task.None? && r.error == NullReference
    ensures r.Drop? ==> |r.reply| <= 1 && |r.caught| <= 1
  {
    if job.task.None? then Abort(false, NullReference)
    else match observe(job.task.value)
      case RanToCompletion(result) =>
        if job.taskType.None? || job.taskType == Some(TaskType) then Drop([], [])
        else
          (match ReplyOutbound(isServer, cv, job.identifier, result, job.reciever)
           case Err(e) => Abort(true, e)
           case Ok(o) => Drop([o], []))
      case Canceled(e) => Drop([], OptionToSeq(e))
      case Faulted(e) => Drop([], OptionToSeq(e))
      case _ => Keep
  }

  /** The outcome of a sweep: the jobs left, the replies sent, the exceptions
      recorded and the exception that stopped it, if any. */
  datatype Sweep = Sweep(kept: seq<TaskJob>, replies: seq<Outbound>, caught: seq<Error>, error: Option<Error>)

  /** `RunTasks` over `jobs`: the list is visited from the last job to the
      first, and an exception stops the sweep, leaving the jobs not yet visited. */
  function Reconcile(isServer: bool, cv: Converter, jobs: seq<TaskJob>, observe: TaskId -> TaskStatus): (r: Sweep)
    ensures |r.kept| <= |jobs|
    decreases |jobs|
  {
    if jobs == [] then Sweep([], [], [], None)
    else Combine(jobs[0], Step(isServer, cv, jobs[0], observe), Reconcile(isServer, cv, jobs[1..], observe))
  }

  /** Visiting `job` after the jobs behind it were swept with outcome `rest`. */
  function Combine(job: TaskJob, v: Visit, rest: Sweep): (r: Sweep)
    ensures |r.kept| <= 1 + |rest.kept|
  {
    if rest.error.Some? then Sweep([job] + rest.kept, rest.replies, rest.caught, rest.error)
    else match v
      case Keep => Sweep([job] + rest.kept, rest.replies, rest.caught, None)
      case Drop(o, c) => Sweep(rest.kept, rest.replies + o, rest.caught + c, None)
      case Abort(removed, e) => Sweep(if removed then rest.kept else [job] + rest.kept, rest.replies, rest.caught, Some(e))
  }

  /** Once the sweep of a suffix stops, the jobs in front of it stay and nothing more happens. */
  lemma {:induction false} ReconcileStopped(isServer: bool, cv: Converter, jobs: seq<TaskJob>, observe: TaskId -> TaskStatus, i: nat)
    requires i <= |jobs| && Reconcile(isServer, cv, jobs[i..], observe).error.Some?
    ensures var w := Reconcile(isServer, cv, jobs[i..], observe);
      Reconcile(isServer, cv, jobs, observe) == Sweep(jobs[..i] + w.kept, w.replies, w.caught, w.error)
    decreases i
  {
    if i == 0 {
      assert jobs[i..] == jobs && jobs[..i] == [];
    } else {
      var tail := jobs[1..];
      assert tail[i - 1..] == jobs[i..];
      ReconcileStopped(isServer, cv, tail, observe, i - 1);
      var w := Reconcile(isServer, cv, jobs[i..], observe);
      ReconcileUnfold(isServer, cv, jobs, observe);
      CombineStopped(jobs[0], Step(isServer, cv, jobs[0], observe), Reconcile(isServer, cv, tail, observe));
      ConsPrefix(jobs, w.kept, i);
    }
  }

  /** One step of the sweep's definition. */
  lemma ReconcileUnfold(isServer: bool, cv: Converter, jobs: seq<TaskJob>, observe: TaskId -> TaskStatus)
    requires jobs != []
    ensures Reconcile(isServer, cv, jobs, observe)
      == Combine(jobs[0], Step(isServer, cv, jobs[0], observe), Reconcile(isServer, cv, jobs[1..], observe))
  {
  }

  /** What visiting job `i` does to the job list, the replies sent and the
      exceptions recorded, given the job's visit. */
  ghost predicate VisitEffect(v: Visit, i: nat, r: Outcome, before: seq<TaskJob>, after: seq<TaskJob>,
                          sentBefore: seq<Outbound>, sentAfter: seq<Outbound>, caughtBefore: seq<Error>, caughtAfter: seq<Error>)
    requires i < |before|
  {
    match v
    case Keep => r == Pass && after == before && sentAfter == sentBefore && caughtAfter == caughtBefore
    case Drop(o, c) =>
      r == Pass && after == before[..i] + before[i + 1..] && sentAfter == sentBefore + o && caughtAfter == caughtBefore + c
    case Abort(removed, e) =>
      r == Fail(e) && sentAfter == sentBefore && caughtAfter == caughtBefore
      && after == (if removed then before[..i] + before[i + 1..] else before)
  }

  /** One visit of the sweep, on a list made of the unvisited jobs, job `i` and
      what the sweep behind it kept: the result is as `Combine` says. */
  lemma Advance(job: TaskJob, v: Visit, rest: Sweep, front: seq<TaskJob>, sentBase: seq<Outbound>, caughtBase: seq<Error>,
                r: Outcome, before: seq<TaskJob>, after: seq<TaskJob>, sentBefore: seq<Outbound>, sentAfter: seq<Outbound>,
                caughtBefore: seq<Error>, caughtAfter: seq<Error>)
    requires rest.error.None? && before == front + ([job] + rest.kept)
    requires sentBefore == sentBase + rest.replies && caughtBefore == caughtBase + rest.caught
    requires VisitEffect(v, |front|, r, before, after, sentBefore, sentAfter, caughtBefore, caughtAfter)
    ensures var w := Combine(job, v, rest);
      && after == front + w.kept && sentAfter == sentBase + w.replies && caughtAfter == caughtBase + w.caught
      && r == (if w.error.None? then Pass else Fail(w.error.value))
  {
    var i := |front|;
    assert before[..i] == front && before[i + 1..] == rest.kept;
  }

  /** The sweep of the suffix from `i`: job `i` visited after the jobs behind it. */
  lemma ReconcileAt(isServer: bool, cv: Converter, jobs: seq<TaskJob>, observe: TaskId -> TaskStatus, i: nat)
    requires i < |jobs|
    ensures Reconcile(isServer, cv, jobs[i..], observe)
      == Combine(jobs[i], Step(isServer, cv, jobs[i], observe), Reconcile(isServer, cv, jobs[i + 1..], observe))
  {
    assert jobs[i..][1..] == jobs[i + 1..] && jobs[i..][0] == jobs[i];
    ReconcileUnfold(isServer, cv, jobs[i..], observe);
  }

  /** The list in front of the sweep's position `i`, with job `i` and then what the sweep kept behind it. */
  lemma RemoveAt(jobs: seq<TaskJob>, kept: seq<TaskJob>, i: nat)
    requires i < |jobs|
    ensures var t := jobs[..i + 1] + kept;
      i < |t| && t[i] == jobs[i] && t == jobs[..i] + ([jobs[i]] + kept)
  {
    assert jobs[..i + 1] == jobs[..i] + [jobs[i]];
  }

  lemma ConsPrefix(jobs: seq<TaskJob>, k: seq<TaskJob>, i: nat)
    requires 0 < i <= |jobs|
    ensures [jobs[0]] + (jobs[1..][..i - 1] + k) == jobs[..i] + k
  {
    assert [jobs[0]] + jobs[1..][..i - 1] == jobs[..i];
  }

  /** A visit after the sweep behind it stopped keeps the job and changes nothing else. */
  lemma CombineStopped(job: TaskJob, v: Visit, rest: Sweep)
    requires rest.error.Some?
    ensures Combine(job, v, rest) == Sweep([job] + rest.kept, rest.replies, rest.caught, rest.error)
  {
  }

  /** The jobs whose tasks are still pending, in list order. */
  function PendingJobs(jobs: seq<TaskJob>, observe: TaskId -> TaskStatus): seq<TaskJob>
    decreases |jobs|
  {
    if jobs == [] then []
    else (if jobs[0].task.Some? && observe(jobs[0].task.value).Pending() then [jobs[0]] else []) + PendingJobs(jobs[1..], observe)
  }

  /** A sweep stops exactly when some job's visit throws. */
  lemma {:induction false} ReconcileFailsIff(isServer: bool, cv: Converter, jobs: seq<TaskJob>, observe: TaskId -> TaskStatus)
    ensures Reconcile(isServer, cv, jobs, observe).error.Some? <==>
      exists i :: 0 <= i < |jobs| && Step(isServer, cv, jobs[i], observe).Abort?
    decreases |jobs|
  {
    if jobs != [] {
      ReconcileFailsIff(isServer, cv, jobs[1..], observe);
      if exists i :: 0 <= i < |jobs[1..]| && Step(isServer, cv, jobs[1..][i], observe).Abort? {
        var i :| 0 <= i < |jobs[1..]| && Step(isServer, cv, jobs[1..][i], observe).Abort?;
        assert jobs[i + 1] == jobs[1..][i];
      }
      if exists i :: 0 <= i < |jobs| && Step(isServer, cv, jobs[i], observe).Abort? {
        var i :| 0 <= i < |jobs| && Step(isServer, cv, jobs[i], observe).Abort?;
        if i > 0 {
          assert jobs[1..][i - 1] == jobs[i];
        }
      }
    }
  }

  /** A sweep that completes keeps exactly the pending jobs, in order, and
      everything else is removed. */
  lemma {:induction false} ReconcileKeepsPending(isServer: bool, cv: Converter, jobs: seq<TaskJob>, observe: TaskId -> TaskStatus)
    requires Reconcile(isServer, cv, jobs, observe).error.None?
    ensures Reconcile(isServer, cv, jobs, observe).kept == PendingJobs(jobs, observe)
    decreases |jobs|
  {
    if jobs != [] {
      ReconcileKeepsPending(isServer, cv, jobs[1..], observe);
    }
  }

  /** Every job leaves at most one reply and one recorded exception, and a
      job that leaves either is no longer in the list. */
  lemma {:induction false} ReconcileBounded(isServer: bool, cv: Converter, jobs: seq<TaskJob>, observe: TaskId -> TaskStatus)
    ensures var w := Reconcile(isServer, cv, jobs, observe);
      |w.kept| + |w.replies| <= |jobs| && |w.kept| + |w.caught| <= |jobs|
    decreases |jobs|
  {
    if jobs != [] {
      ReconcileBounded(isServer, cv, jobs[1..], observe);
    }
  }

  /** The hooks a status change calls: `OnConnected` or `OnDisconnected` with the connection. */
  function StatusHooks(status: NetConnectionStatus, connection: Option<Connection>): seq<Hook>
  {
    if status == NetConnectionStatus.Connected then [OnConnected(connection)]
    else if status == NetConnectionStatus.Disconnected then [OnDisconnected(connection)]
    else []
  }

  class Communicator {
    const peer: Peer
    const converter: Converter
    /** `CommunicationSettings.AwaitCallTimeOut`, in seconds. */
    const awaitCallTimeOut: real
    var recieveFilters: map<ushort, MessageFilter>
    var sendFilters: map<ushort, MessageFilter>
    var sendAddresses: map<string, ushort>
    var awaitingCalls: map<Bytes, AwaitingCallJob>
    var runningTasks: seq<TaskJob>
    var connectionStatus: NetConnectionStatus
    var exceptionsCaught: seq<Error>
    var logList: seq<LogEntry>
    var subscribers: seq<Subscriber>
    /** Every invocation of an `OnLoggedEvent` handler so far. */
    var deliveries: seq<Delivery>
    /** Every frame handed to the transport so far. */
    var sent: seq<Outbound>
    /** Every `OnConnectionStatusChangedEvent` invocation so far. */
    var statusEvents: seq<(NetConnectionStatus, NetConnectionResult)>
    /** Every call of the abstract `OnConnected` / `OnDisconnected` so far. */
    var hooks: seq<Hook>

    constructor (p: Peer, cv: Converter, timeOut: real)
      ensures peer == p && converter == cv && awaitCallTimeOut == timeOut
      ensures recieveFilters == map[] && sendFilters == map[] && sendAddresses == map[]
      ensures awaitingCalls == map[] && runningTasks == [] && connectionStatus == NetConnectionStatus.NoStatus
      ensures exceptionsCaught == [] && logList == [] && subscribers == [] && deliveries == []
      ensures sent == [] && statusEvents == [] && hooks == []
    {
      peer, converter, awaitCallTimeOut := p, cv, timeOut;
      recieveFilters, sendFilters, sendAddresses := map[], map[], map[];
      awaitingCalls, runningTasks, connectionStatus := map[], [], NetConnectionStatus.NoStatus;
      exceptionsCaught, logList, subscribers, deliveries := [], [], [], [];
      sent, statusEvents, hooks := [], [], [];
    }

    /** `Log(message, caller)`: the handlers are invoked, then the entry is kept. */
    method Log(item: LogItem, caller: string)
      modifies this`logList, this`deliveries
      ensures logList == old(logList) + [LogEntry(item, caller)]
      ensures deliveries == old(deliveries) + Fanout(subscribers, LogEntry(item, caller))
      ensures forall t :: ReceivedBy(deliveries, t) == old(ReceivedBy(deliveries, t)) + seq(Occurrences(subscribers, t), _ => LogEntry(item, caller))
    {
      var entry := LogEntry(item, caller);
      ghost var before := deliveries;
      deliveries := deliveries + Fanout(subscribers, entry);
      logList := logList + [entry];
      forall t ensures ReceivedBy(deliveries, t) == ReceivedBy(before, t) + seq(Occurrences(subscribers, t), _ => entry) {
        ReceivedByAppend(before, Fanout(subscribers, entry), t);
        FanoutReceived(subscribers, entry, t);
      }
    }

    /** `OnLoggedEvent += s`: attach, then replay every entry logged so far. */
    method Subscribe(s: Subscriber)
      modifies this`subscribers, this`deliveries
      ensures subscribers == old(subscribers) + [s]
      ensures deliveries == old(deliveries) + Replay(s, logList)
      ensures ReceivedBy(deliveries, s) == old(ReceivedBy(deliveries, s)) + logList
      ensures forall t :: t != s ==> ReceivedBy(deliveries, t) == old(ReceivedBy(deliveries, t))
    {
      subscribers := subscribers + [s];
      ghost var before := deliveries;
      var i := 0;
      while i < |logList|
        invariant 0 <= i <= |logList|
        invariant deliveries == before + Replay(s, logList[..i])
        invariant subscribers == old(subscribers) + [s]
      {
        assert Replay(s, logList[..i + 1]) == Replay(s, logList[..i]) + [Delivery(s, logList[i])];
        deliveries := deliveries + [Delivery(s, logList[i])];
        i := i + 1;
      }
      assert logList[..i] == logList;
      assert deliveries == before + Replay(s, logList);
      ReceivedByAppend(before, Replay(s, logList), s);
      ReplayReceived(s, logList, s);
      forall t | t != s ensures ReceivedBy(deliveries, t) == ReceivedBy(before, t) {
        ReceivedByAppend(before, Replay(s, logList), t);
        ReplayReceived(s, logList, t);
        assert ReceivedBy(before, t) + [] == ReceivedBy(before, t);
      }
    }

    /** `OnLoggedEvent -= s`. */
    method Unsubscribe(s: Subscriber)
      modifies this`subscribers
      ensures subscribers == RemoveLast(old(subscribers), s)
    {
      subscribers := RemoveLast(subscribers, s);
    }

    /** `GetAddresses(type)`: the name-to-address table, then one log entry with its size. */
    method GetAddresses(c: ContractInterface) returns (r: Result<map<string, ushort>>)
      modifies this`logList, this`deliveries
      ensures r == if NamesDistinct(c.methods) then Ok(AddressMap(c.methods)) else Err(DuplicateKey)
      ensures logList == old(logList) + (if r.Ok? then [AddressEntry(c)] else [])
      ensures deliveries == old(deliveries) + FanoutAll(subscribers, if r.Ok? then [AddressEntry(c)] else [])
    {
      r := AddressTable(c.methods);
      if r.Err? {
        return;
      }
      AddressMapSize(c.methods);
      Log(AddressCount(|r.value|, c.name), "GetAddresses");
      assert FanoutAll(subscribers, [AddressEntry(c)]) == Fanout(subscribers, AddressEntry(c)) by {
        FanoutAllSnoc(subscribers, [], AddressEntry(c));
      }
    }

    /** `MapContract(object, type)`: `c` is the contract interface reflection
        finds on the object (`None` when `First` finds none), `order` the
        descending-name order of its methods. */
    method MapContract(c: Option<ContractInterface>, order: seq<nat>) returns (r: Result<map<ushort, MessageFilter>>)
      requires c.Some? ==> IsPermutation(order, |c.value.methods|)
      modifies this`logList, this`deliveries
      ensures r.Ok? <==> Mappable(c)
      ensures c.None? ==> r == Err(InvalidOperation)
      ensures c.Some? && r.Err? ==> r.error == DuplicateKey
      ensures r.Ok? ==> r.value == FilterTable(c.value.methods)
      ensures var logged := if c.Some? && NamesDistinct(c.value.methods) then [AddressEntry(c.value)] else [];
        logList == old(logList) + logged && deliveries == old(deliveries) + FanoutAll(subscribers, logged)
    {
      if c.None? {
        return Err(InvalidOperation);
      }
      var addresses := GetAddresses(c.value);
      if addresses.Err? {
        return Err(addresses.error);
      }
      r := BuildFilters(c.value.methods, addresses.value, order);
    }

    /** `Initialize(sendContractType, recieveContractType)`. */
    method Initialize(sendT: ContractType, recvT: ContractType,
                      recvC: Option<ContractInterface>, recvOrder: seq<nat>,
                      sendC: Option<ContractInterface>, sendOrder: seq<nat>) returns (r: Outcome)
      requires recvC.Some? ==> IsPermutation(recvOrder, |recvC.value.methods|)
      requires sendC.Some? ==> IsPermutation(sendOrder, |sendC.value.methods|)
      modifies this`recieveFilters, this`sendFilters, this`sendAddresses, this`logList, this`deliveries
      ensures r.Pass? <==> sendT.isInterface && recvT.isInterface && Mappable(recvC) && Mappable(sendC)
      ensures !sendT.isInterface || !recvT.isInterface ==> r == Fail(NotAnInterface)
      ensures r.Pass? ==> sendFilters == FilterTable(sendC.value.methods) && sendAddresses == AddressMap(sendC.value.methods)
      ensures r.Fail? ==> sendFilters == old(sendFilters) && sendAddresses == old(sendAddresses)
      ensures recieveFilters == if sendT.isInterface && recvT.isInterface && Mappable(recvC) then FilterTable(recvC.value.methods) else old(recieveFilters)
      ensures logList == old(logList) + InitLog(sendT, recvT, recvC, sendC)
      ensures deliveries == old(deliveries) + FanoutAll(subscribers, InitLog(sendT, recvT, recvC, sendC))
    {
      if !sendT.isInterface || !recvT.isInterface {
        return Fail(NotAnInterface);
      }
      ghost var log0, del0 := logList, deliveries;
      var recv := MapContract(recvC, recvOrder);
      ghost var logged: seq<LogEntry> := if recvC.Some? && NamesDistinct(recvC.value.methods) then [AddressEntry(recvC.value)] else [];
      if recv.Err? {
        assert InitLog(sendT, recvT, recvC, sendC) == logged;
        return Fail(recv.error);
      }
      recieveFilters := recv.value;
      ghost var log1, del1 := logList, deliveries;
      var send := MapContract(sendC, sendOrder);
      ghost var more: seq<LogEntry> := if sendC.Some? && NamesDistinct(sendC.value.methods) then [AddressEntry(sendC.value)] else [];
      LogExtended(subscribers, log0, del0, logged, log1, del1, more, logList, deliveries);
      if send.Err? {
        assert InitLog(sendT, recvT, recvC, sendC) == logged + more;
        return Fail(send.error);
      }
      sendFilters := send.value;
      ghost var log2, del2 := logList, deliveries;
      var addresses := GetAddresses(sendC.value);
      sendAddresses := addresses.value;
      LogExtended(subscribers, log0, del0, logged + more, log2, del2, [AddressEntry(sendC.value)], logList, deliveries);
      assert InitLog(sendT, recvT, recvC, sendC) == logged + more + [AddressEntry(sendC.value)];
      r := Pass;
    }

    /** The frame `CreateMessage` builds for `info` and `args`, before encryption. */
    function OutgoingCall(kind: CommunicationType, info: MethodDesc, args: seq<Value>): (r: Result<Bytes>)
      reads this
      ensures info.name !in sendAddresses ==> r == Err(KeyNotFound)
      ensures info.name in sendAddresses && !ArgsCoverData(info.params, args) ==> r == Err(IndexOutOfRange)
    {
      if info.name !in sendAddresses then Err(KeyNotFound)
      else if !ArgsCoverData(info.params, args) then Err(IndexOutOfRange)
      else
        var key := sendAddresses[info.name];
        Ok(CallFrame(kind, key, converter.serializeCallMessage(CallMessage(key, SerializedArgs(converter, info.params, args)))))
    }

    /** The CallAsync frame: the call frame followed by the correlation token. */
    function OutgoingAsyncCall(info: MethodDesc, args: seq<Value>, token: Bytes): Result<Bytes>
      reads this
    {
      match OutgoingCall(CallAsync, info, args)
      case Err(e) => Err(e)
      case Ok(f) => Ok(f + StringBytes(token))
    }

    /** A frame built, encrypted and handed to the transport: the outcome and the new trace entries. */
    function Dispatched(frame: Result<Bytes>, recipient: Option<Connection>): (Outcome, seq<Outbound>)
      reads peer.Objects()
    {
      match frame
      case Err(e) => (Fail(e), [])
      case Ok(f) => Transmission(peer, f, recipient)
    }

    /** `CreateMessage(info, type, args)`. */
    method CreateMessage(info: MethodDesc, kind: CommunicationType, args: seq<Value>) returns (r: Result<NetMessage>)
      ensures r.Ok? <==> OutgoingCall(kind, info, args).Ok?
      ensures r.Err? ==> r.error == OutgoingCall(kind, info, args).error
      ensures r.Ok? ==> fresh(r.value) && r.value.Valid() && r.value.data == OutgoingCall(kind, info, args).value
      ensures r.Ok? ==> r.value.bitLength == 8 * |r.value.data| && r.value.readPos == 0 && r.value.sender == None
    {
      if info.name !in sendAddresses {
        return Err(KeyNotFound);
      }
      var callMessage := CreateSendCallMessage(converter, sendAddresses[info.name], info.params, args);
      if callMessage.Err? {
        return Err(callMessage.error);
      }
      var netMessage := WriteCallFrame(kind, callMessage.value.key, converter.serializeCallMessage(callMessage.value));
      r := Ok(netMessage);
    }

    /** The encrypt-and-send step shared by `CreateAndCall` and `CreateAndCallAsync`. */
    method Transmit(msg: NetMessage, recipient: Option<Connection>) returns (r: Outcome)
      requires msg.Valid() && msg.bitLength == 8 * |msg.data|
      modifies msg`data, msg`bitLength, this`sent
      ensures r == Transmission(peer, old(msg.data), recipient).0
      ensures sent == old(sent) + Transmission(peer, old(msg.data), recipient).1
    {
      r := SealMessage(peer, msg, recipient);
      if r.Fail? {
        assert sent + [] == sent;
        return;
      }
      if Reaches(peer, recipient) {
        sent := sent + [Outbound(msg.data, recipient)];
      }
    }

    /** `CreateAndCall(info, args, recipient)`. */
    method CreateAndCall(info: MethodDesc, args: seq<Value>, recipient: Option<Connection>) returns (r: Outcome)
      modifies this`sent
      ensures var d := Dispatched(OutgoingCall(Call, info, args), recipient);
        r == d.0 && sent == old(sent) + d.1
    {
      var netMessage := CreateMessage(info, Call, args);
      if netMessage.Err? {
        return Fail(netMessage.error);
      }
      r := Transmit(netMessage.value, recipient);
    }

    /** The `Call` overloads taking an `Action`: the connection is passed on. */
    method CallAction(info: MethodDesc, args: seq<Value>, connection: Option<Connection>) returns (r: Outcome)
      modifies this`sent
      ensures var d := Dispatched(OutgoingCall(Call, info, args), connection);
        r == d.0 && sent == old(sent) + d.1
    {
      r := CreateAndCall(info, args, connection);
    }

    /** The `Call` overloads taking a `Func<..., Task>`: the connection is dropped,
        so a server's encryptor always refuses the null recipient. */
    method CallTask(info: MethodDesc, args: seq<Value>, connection: Option<Connection>) returns (r: Outcome)
      modifies this`sent
      ensures var d := Dispatched(OutgoingCall(Call, info, args), None);
        r == d.0 && sent == old(sent) + d.1
      ensures peer.ServerPeer? ==> r.Fail? && sent == old(sent)
    {
      r := CreateAndCall(info, args, None);
      if peer.ServerPeer? {
        var f := OutgoingCall(Call, info, args);
        if f.Ok? {
          ServerNeedsRecipient(peer.server, f.value);
          assert Dispatched(f, None) == (Fail(ArgumentNull), []);
        }
        assert Dispatched(f, None).1 == [] && Dispatched(f, None).0.Fail?;
        assert old(sent) + [] == old(sent);
      }
    }

    /** `CreateAndCallAsync(info, args, recipient)` up to the start of the awaiting
        task; `token` stands for the fresh GUID string. */
    method CreateAndCallAsync(info: MethodDesc, args: seq<Value>, recipient: Option<Connection>, token: Bytes) returns (r: Outcome)
      modifies this`sent
      ensures var d := Dispatched(OutgoingAsyncCall(info, args, token), recipient);
        r == d.0 && sent == old(sent) + d.1
    {
      var netMessage := CreateAsyncMessage(info, args, token);
      if netMessage.Err? {
        return Fail(netMessage.error);
      }
      r := Transmit(netMessage.value, recipient);
    }

    /** The message `CreateAndCallAsync` sends: the CallAsync frame, then the token. */
    method CreateAsyncMessage(info: MethodDesc, args: seq<Value>, token: Bytes) returns (r: Result<NetMessage>)
      ensures r.Ok? <==> OutgoingAsyncCall(info, args, token).Ok?
      ensures r.Err? ==> r.error == OutgoingAsyncCall(info, args, token).error
      ensures r.Ok? ==> fresh(r.value) && r.value.Valid() && r.value.data == OutgoingAsyncCall(info, args, token).value
      ensures r.Ok? ==> r.value.bitLength == 8 * |r.value.data|
    {
      var netMessage := CreateMessage(info, CallAsync, args);
      if netMessage.Err? {
        return Err(netMessage.error);
      }
      var m := netMessage.value;
      ghost var f := m.data;
      m.WriteString(token);
      AlignedBits(8 * |f|, |StringBytes(token)|);
      assert m.data == f + StringBytes(token) && m.bitLength == 8 * |m.data|;
      r := Ok(m);
    }

    /** The awaiting task's first step: the slot for the token, with no data yet. */
    method OpenAwaitingCall(token: Bytes, returnType: TypeName) returns (r: Outcome)
      modifies this`awaitingCalls
      ensures var o := OpenSlot(old(awaitingCalls), token, returnType);
        (o.Err? ==> r == Fail(o.error) && awaitingCalls == old(awaitingCalls))
        && (o.Ok? ==> r == Pass && awaitingCalls == o.value)
    {
      if token in awaitingCalls {
        return Fail(DuplicateKey);
      }
      awaitingCalls := awaitingCalls[token := AwaitingCallJob(returnType, None)];
      r := Pass;
    }

    /** One iteration of the awaiting task's loop, `elapsed` seconds after it started. */
    method AwaitStep(methodName: string, token: Bytes, elapsed: real) returns (r: AwaitStatus)
      modifies this`awaitingCalls
      ensures (r, awaitingCalls) == Poll(old(awaitingCalls), awaitCallTimeOut, methodName, token, elapsed)
    {
      if elapsed >= awaitCallTimeOut {
        awaitingCalls := awaitingCalls - {token};
        return TimedOut(CommunicationTimeOut(methodName, elapsed));
      }
      if token !in awaitingCalls {
        return AwaitStatus.Faulted(KeyNotFound);
      }
      if awaitingCalls[token].data.None? {
        return Waiting;
      }
      var data := awaitingCalls[token].data.value;
      awaitingCalls := awaitingCalls - {token};
      r := Returned(data);
    }

    /** `SendAwaitedReturnMessage(identifier, result, connection)`. */
    method SendAwaitedReturnMessage(identifier: Option<Bytes>, result: Option<Value>, connection: Option<Connection>) returns (r: Outcome)
      modifies this`sent
      ensures var o := ReplyOutbound(peer.ServerPeer?, converter, identifier, result, connection);
        (o.Err? ==> r == Fail(o.error) && sent == old(sent))
        && (o.Ok? ==> r == Pass && sent == old(sent) + [o.value])
    {
      var o := ReplyOutbound(peer.ServerPeer?, converter, identifier, result, connection);
      if o.Err? {
        return Fail(o.error);
      }
      sent := sent + [o.value];
      r := Pass;
    }

    /** `AddRunningTask(task, taskType, identifier, reciever)`. */
    method AddRunningTask(task: Option<TaskId>, taskType: Option<ReturnKind>, identifier: Option<Bytes>, reciever: Option<Connection>)
      modifies this`runningTasks
      ensures runningTasks == old(runningTasks) + [TaskJob(task, taskType, identifier, reciever)]
    {
      runningTasks := runningTasks + [TaskJob(task, taskType, identifier, reciever)];
    }

    /** Registers what a handler invocation left behind: at most one task or one logged exception. */
    method Settle(added: seq<TaskJob>, logged: Option<Error>)
      requires |added| <= 1
      modifies this`runningTasks, this`logList, this`deliveries
      ensures runningTasks == old(runningTasks) + added
      ensures logList == old(logList) + FilterLog(logged)
      ensures deliveries == old(deliveries) + FanoutAll(subscribers, FilterLog(logged))
    {
      if added != [] {
        AddRunningTask(added[0].task, added[0].taskType, added[0].identifier, added[0].reciever);
        assert [added[0]] == added;
      }
      if logged.Some? {
        Log(Exception(logged.value), "FilterMessage");
        FanoutAllSnoc(subscribers, [], LogEntry(Exception(logged.value), "FilterMessage"));
      }
    }

    /** `FilterMessage(message)`: routes on the kind byte; `invoke` stands for
        `pointer.Method.Invoke(this, args)`. */
    method FilterMessage(msg: NetMessage, invoke: (MethodDesc, seq<Value>) -> Invocation) returns (r: Outcome)
      requires msg.Valid()
      modifies msg`readPos, this`awaitingCalls, this`runningTasks, this`logList, this`deliveries
      ensures var d := Route(converter, recieveFilters, old(awaitingCalls), msg.Readable(), old(msg.readPos), msg.sender, invoke);
        && r == d.outcome && awaitingCalls == d.awaiting && runningTasks == old(runningTasks) + d.added
        && msg.readPos == d.readPos
        && logList == old(logList) + FilterLog(d.logged)
        && deliveries == old(deliveries) + FanoutAll(subscribers, FilterLog(d.logged))
    {
      ghost var s, p := msg.Readable(), msg.readPos;
      assert FilterLog(None) == [] && FanoutAll(subscribers, []) == [];
      var messageType := msg.ReadByte();
      if messageType.None? {
        return Fail(ReadPastEnd);
      }
      assert msg.Readable() == s && s[p] == messageType.value;
      RouteSplit(converter, recieveFilters, awaitingCalls, s, p, msg.sender, invoke);
      if messageType.value == KindByte(CallAsyncReturn) {
        r := FilterReply(msg);
      } else {
        r := FilterCall(msg, messageType.value, invoke);
      }
    }

    /** The CallAsyncReturn branch of `FilterMessage`, after the kind byte. */
    method FilterReply(msg: NetMessage) returns (r: Outcome)
      requires msg.Valid()
      modifies msg`readPos, this`awaitingCalls
      ensures var d := RouteReply(converter, old(awaitingCalls), msg.Readable(), old(msg.readPos));
        r == d.outcome && awaitingCalls == d.awaiting && msg.readPos == d.readPos
    {
      var identifier := msg.ReadString();
      if identifier.None? {
        return Fail(ReadPastEnd);
      }
      if identifier.value !in awaitingCalls {
        return Fail(KeyNotFound);
      }
      var awaitingCall := awaitingCalls[identifier.value];
      var payload := msg.ReadString();
      if payload.None? {
        return Fail(ReadPastEnd);
      }
      var data := converter.deserializeArgument(payload.value, DataType(awaitingCall.returnType));
      awaitingCalls := awaitingCalls[identifier.value := awaitingCall.(data := Some(data))];
      r := Pass;
    }

    /** The Call and CallAsync branches of `FilterMessage`, after the kind byte `kind`. */
    method FilterCall(msg: NetMessage, kind: byte, invoke: (MethodDesc, seq<Value>) -> Invocation) returns (r: Outcome)
      requires msg.Valid()
      modifies msg`readPos, this`runningTasks, this`logList, this`deliveries
      ensures var d := RouteCall(converter, recieveFilters, awaitingCalls, msg.Readable(), old(msg.readPos), kind, msg.sender, invoke);
        && r == d.outcome && runningTasks == old(runningTasks) + d.added && msg.readPos == d.readPos
        && logList == old(logList) + FilterLog(d.logged)
        && deliveries == old(deliveries) + FanoutAll(subscribers, FilterLog(d.logged))
    {
      var key := msg.ReadUInt16();
      if key.None? {
        return Fail(ReadPastEnd);
      }
      if key.value !in recieveFilters {
        return Fail(KeyNotFound);
      }
      var pointer := recieveFilters[key.value];
      var payload := msg.ReadString();
      if payload.None? {
        return Fail(ReadPastEnd);
      }
      var args := HandleRecieveMessage(converter, payload.value, pointer, msg.sender);
      if args.Err? {
        return Fail(args.error);
      }
      r := InvokeHandler(msg, kind, pointer.handler, args.value, invoke);
    }

    /** The end of `FilterMessage` for a Call or CallAsync frame: the handler's invocation. */
    method InvokeHandler(msg: NetMessage, kind: byte, h: MethodDesc, args: seq<Value>, invoke: (MethodDesc, seq<Value>) -> Invocation)
      returns (r: Outcome)
      requires msg.Valid()
      modifies msg`readPos, this`runningTasks, this`logList, this`deliveries
      ensures var d := RouteInvoke(awaitingCalls, msg.Readable(), old(msg.readPos), kind, h, args, msg.sender, invoke);
        && r == d.outcome && runningTasks == old(runningTasks) + d.added && msg.readPos == d.readPos
        && logList == old(logList) + FilterLog(d.logged)
        && deliveries == old(deliveries) + FanoutAll(subscribers, FilterLog(d.logged))
    {
      if kind == KindByte(Call) {
        var o := AfterCall(h, invoke(h, args));
        Settle(o.0, o.1);
        r := Pass;
      } else if kind == KindByte(CallAsync) {
        var taskKey := msg.ReadString();
        if taskKey.None? {
          Settle([], Some(ReadPastEnd));
          return Pass;
        }
        var o := AfterCallAsync(h, invoke(h, args), taskKey.value, msg.sender);
        Settle(o.0, o.1);
        r := Pass;
      } else {
        r := Fail(ArgumentOutOfRange);
      }
    }

    /** The switch on one job's task status inside `RunTasks`' loop. */
    method VisitTask(i: nat, observe: TaskId -> TaskStatus) returns (r: Outcome)
      requires i < |runningTasks|
      modifies this`runningTasks, this`sent, this`exceptionsCaught
      ensures VisitEffect(Step(peer.ServerPeer?, converter, old(runningTasks[i]), observe), i, r,
                      old(runningTasks), runningTasks, old(sent), sent, old(exceptionsCaught), exceptionsCaught)
    {
      var job := runningTasks[i];
      if job.task.None? {
        return Fail(NullReference);
      }
      r := Pass;
      match observe(job.task.value) {
        case RanToCompletion(result) =>
          runningTasks := runningTasks[..i] + runningTasks[i + 1..];
          if job.taskType.Some? && job.taskType != Some(TaskType) {
            r := SendAwaitedReturnMessage(job.identifier, result, job.reciever);
          } else {
            assert sent + [] == sent && exceptionsCaught + [] == exceptionsCaught;
          }
        case Canceled(e) =>
          runningTasks := runningTasks[..i] + runningTasks[i + 1..];
          exceptionsCaught := exceptionsCaught + OptionToSeq(e);
          assert sent + [] == sent;
        case Faulted(e) =>
          runningTasks := runningTasks[..i] + runningTasks[i + 1..];
          exceptionsCaught := exceptionsCaught + OptionToSeq(e);
          assert sent + [] == sent;
        case _ =>
      }
    }

    /** `RunTasks()`; `observe` gives each task's status when the sweep reaches it. */
    method RunTasks(observe: TaskId -> TaskStatus) returns (r: Outcome)
      modifies this`runningTasks, this`sent, this`exceptionsCaught
      ensures var w := Reconcile(peer.ServerPeer?, converter, old(runningTasks), observe);
        && runningTasks == w.kept && sent == old(sent) + w.replies
        && exceptionsCaught == old(exceptionsCaught) + w.caught
        && r == (if w.error.None? then Pass else Fail(w.error.value))
    {
      ghost var jobs := runningTasks;
      ghost var isServer := peer.ServerPeer?;
      var i := |runningTasks|;
      ghost var w := Reconcile(isServer, converter, jobs[i..], observe);
      while i > 0
        invariant 0 <= i <= |jobs|
        invariant w == Reconcile(isServer, converter, jobs[i..], observe)
        invariant w.error.None?
        invariant runningTasks == jobs[..i] + w.kept
        invariant sent == old(sent) + w.replies
        invariant exceptionsCaught == old(exceptionsCaught) + w.caught
      {
        i := i - 1;
        ghost var rest := w;
        ghost var v := Step(isServer, converter, jobs[i], observe);
        w := Combine(jobs[i], v, rest);
        ReconcileAt(isServer, converter, jobs, observe, i);
        RemoveAt(jobs, rest.kept, i);
        ghost var before, sentBefore, caughtBefore := runningTasks, sent, exceptionsCaught;
        r := VisitTask(i, observe);
        Advance(jobs[i], v, rest, jobs[..i], old(sent), old(exceptionsCaught),
                r, before, runningTasks, sentBefore, sent, caughtBefore, exceptionsCaught);
        if r.Fail? {
          ReconcileStopped(isServer, converter, jobs, observe, i);
          return;
        }
      }
      assert jobs[0..] == jobs;
      r := Pass;
    }

    /** The part of `OnConnectionStatusChanged` before the switch: the status is
        stored and `OnConnectionStatusChangedEvent` raised. */
    method BeginStatusChange(status: NetConnectionStatus, result: NetConnectionResult)
      modifies this`connectionStatus, this`statusEvents
      ensures connectionStatus == status && statusEvents == old(statusEvents) + [(status, result)]
    {
      connectionStatus := status;
      statusEvents := statusEvents + [(status, result)];
    }

    /** The switch of `OnConnectionStatusChanged` after `OnDisconnected_Internal`:
        the hook for the status, then the status is logged; a value outside the
        enumeration throws before anything is logged. */
    method FinishStatusChange(status: NetConnectionStatus, connection: Option<Connection>) returns (r: Outcome)
      modifies this`hooks, this`logList, this`deliveries
      ensures status.Undefined? ==>
        r == Fail(ArgumentOutOfRange) && hooks == old(hooks) && logList == old(logList) && deliveries == old(deliveries)
      ensures !status.Undefined? ==>
        && r == Pass && hooks == old(hooks) + StatusHooks(status, connection)
        && logList == old(logList) + [LogEntry(Status(status), "OnConnectionStatusChanged")]
        && deliveries == old(deliveries) + Fanout(subscribers, LogEntry(Status(status), "OnConnectionStatusChanged"))
    {
      match status {
        case Undefined(_) =>
          return Fail(ArgumentOutOfRange);
        case Connected =>
          hooks := hooks + [OnConnected(connection)];
        case Disconnected =>
          hooks := hooks + [OnDisconnected(connection)];
        case _ =>
      }
      Log(Status(status), "OnConnectionStatusChanged");
      r := Pass;
    }

    /** `OnConnectionStatusChanged(status, result, connection)` of the base
        class, whose `OnDisconnected_Internal` does nothing. */
    method OnConnectionStatusChanged(status: NetConnectionStatus, result: NetConnectionResult, connection: Option<Connection>) returns (r: Outcome)
      modifies this`connectionStatus, this`statusEvents, this`hooks, this`logList, this`deliveries
      ensures connectionStatus == status && statusEvents == old(statusEvents) + [(status, result)]
      ensures r.Pass? <==> !status.Undefined?
      ensures hooks == old(hooks) + (if r.Pass? then StatusHooks(status, connection) else [])
      ensures logList == old(logList) + (if r.Pass? then [LogEntry(Status(status), "OnConnectionStatusChanged")] else [])
      ensures deliveries == old(deliveries) + (if r.Pass? then Fanout(subscribers, LogEntry(Status(status), "OnConnectionStatusChanged")) else [])
    {
      BeginStatusChange(status, result);
      r := FinishStatusChange(status, connection);
    }
  }

  /** A frame one communicator builds from its send contract reaches, on a
      peer whose receive contract is the same interface and that shares its
      converter, the method of the same name with the caller's arguments. */
  lemma AsyncCallBetweenPeers(caller: Communicator, callee: Communicator, ms: seq<MethodDesc>, k: nat, args: seq<Value>,
                              token: Bytes, sender: Option<Connection>, invoke: (MethodDesc, seq<Value>) -> Invocation)
    requires caller.converter == callee.converter && Lawful(caller.converter)
    requires NamesDistinct(ms) && |ms| <= AddressSpace && k < |ms|
    requires TrailingConnections(ms[k].params) && ArgsCoverData(ms[k].params, args)
    requires caller.sendAddresses == AddressMap(ms) && callee.recieveFilters == FilterTable(ms)
    ensures caller.OutgoingAsyncCall(ms[k], args, token).Ok?
    ensures var o := AfterCallAsync(ms[k], invoke(ms[k], Bound(ms[k].params, args, sender)), token, sender);
      var frame := caller.OutgoingAsyncCall(ms[k], args, token).value;
      Route(callee.converter, callee.recieveFilters, callee.awaitingCalls, frame, 0, sender, invoke)
        == Routed(callee.awaitingCalls, o.0, o.1, |frame|, Pass)
  {
    AsyncCallReachesHandler(caller.converter, ms, k, args, token, callee.awaitingCalls, sender, invoke);
  }
}
