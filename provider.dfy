/** The provider's admission state machine (CommunicatorProviderBase): the
    table of pending and logged-in users, the queue of authentication results
    that each tick drains, the data gate, denial and disconnect clean-up,
    `DoForUsers` and the tick's pacing. The provider is a server communicator
    with a per-connection encryptor; transport calls (`Approve`, `Deny`,
    `Start`, `Shutdown`) and the derived class's hooks are recorded in traces. */
module Provider {
  import opened Wire
  import opened Contracts
  import opened ConverterBase
  import opened TripleDes
  import opened Dispatch

  /** A call into the transport. */
  datatype TransportAction =
    | Approve(conn: Connection)
    | Deny(conn: Connection, reason: NetConnectionResult)
    | Start
    | Shutdown(message: Bytes)

  /** A call of one of the provider's overridable hooks. */
  datatype ProviderEvent =
    | AuthenticationApproved(result: AuthenticationResult, user: Bytes)
    | AuthenticationDenied(result: AuthenticationResult, user: Bytes)
    | UserDisconnected(record: CommunicationUser)
    | ApprovalExtras(result: AuthenticationResult)

  /** A queued authentication result and the (lower-cased) user name it is for. */
  type Pending = (AuthenticationResult, Bytes)

  // ---------------------------------------------------------------------
  // Admission
  // ---------------------------------------------------------------------

  /** The transport's refusal reason for an authenticator verdict; a value
      outside the enumeration throws. */
  function DenialReason(s: RequestState): (r: Result<NetConnectionResult>)
    ensures r.Err? <==> s.OtherState?
    ensures r.Err? ==> r.error == ArgumentOutOfRange
    ensures r.Ok? ==> r.value != NetConnectionResult.Connected && r.value != NetConnectionResult.AwaitingApproval
  {
    match s
    case EndpointFailure => Ok(NetConnectionResult.NoResponseFromRemoteHost)
    case Success => Ok(NetConnectionResult.Unknown)
    case UserAlreadyLoggedIn => Ok(NetConnectionResult.UserAlreadyLoggedIn)
    case WrongCredentials => Ok(NetConnectionResult.WrongCredentials)
    case OtherState(_) => Err(ArgumentOutOfRange)
  }

  /** Distinct verdicts are refused with distinct reasons. */
  lemma DenialReasonInjective(s: RequestState, t: RequestState)
    requires DenialReason(s).Ok? && DenialReason(s) == DenialReason(t)
    ensures s == t
  {
  }

  /** Whether some user record already carries `name`. */
  predicate NameTaken(users: map<Connection, CommunicationUser>, name: Bytes)
  {
    exists c :: c in users && users[c].userName == name
  }

  /** The result queued for a second login under a name already in use. */
  function AlreadyLoggedIn(conn: Connection): AuthenticationResult
  {
    AuthenticationResult([], false, [], RequestState.UserAlreadyLoggedIn, conn)
  }

  /** Whether `e` is the hook call answering the queued entry `p`. */
  predicate Answers(e: ProviderEvent, p: Pending)
  {
    (e.AuthenticationApproved? || e.AuthenticationDenied?) && e.result == p.0 && e.user == p.1
  }

  /** The provider's state as the drain changes it; `logged` holds the entries
      logged so far by the drain. */
  datatype Ledger = Ledger(users: map<Connection, CommunicationUser>, transport: seq<TransportAction>,
                           events: seq<ProviderEvent>, logged: seq<LogEntry>)

  /** `OnAuthenticationDenied`: the result's connection loses its record. */
  function Denied(l: Ledger, result: AuthenticationResult, user: Bytes): (r: Ledger)
  {
    l.(users := l.users - {result.connection}, events := l.events + [AuthenticationDenied(result, user)])
  }

  /** The transport call answering a queued entry: an approval for a
      success, otherwise a refusal with the verdict's reason (`Unknown` when
      the verdict has none). */
  function Verdict(p: Pending): (r: TransportAction)
    ensures r.Approve? <==> p.0.success
    ensures (r.Approve? || r.Deny?) && r.conn == p.0.connection
    ensures r.Deny? ==> r.reason != NetConnectionResult.Connected
  {
    if p.0.success then Approve(p.0.connection)
    else Deny(p.0.connection, if DenialReason(p.0.requestState).Ok? then DenialReason(p.0.requestState).value else NetConnectionResult.Unknown)
  }

  /** What the drain logs for a queued entry: the exception of a verdict
      outside the enumeration. */
  function AdmitLog(p: Pending): seq<LogEntry>
  {
    if !p.0.success && p.0.requestState.OtherState? then [LogEntry(Exception(ArgumentOutOfRange), "Tick")] else []
  }

  /** One pass of the drain loop's body for the head entry `p`; `approves`
      is what `Approve()` returns for a connection. */
  function Admit(l: Ledger, p: Pending, approves: Connection -> bool): (r: Ledger)
    ensures |r.events| == |l.events| + 1 && r.events[..|l.events|] == l.events && Answers(r.events[|l.events|], p)
    ensures r.events[|l.events|].AuthenticationApproved? <==> p.0.success && approves(p.0.connection)
    ensures r.events[|l.events|].AuthenticationApproved? ==> r.users == l.users
    ensures r.events[|l.events|].AuthenticationDenied? ==> r.users == l.users - {p.0.connection}
    ensures r.transport == l.transport + [Verdict(p)]
    ensures r.logged == l.logged + AdmitLog(p)
  {
    var (result, user) := p;
    if result.success then
      var l1 := l.(transport := l.transport + [Approve(result.connection)]);
      if approves(result.connection) then l1.(events := l.events + [AuthenticationApproved(result, user)])
      else Denied(l1, result, user)
    else
      match DenialReason(result.requestState)
      case Ok(reason) => Denied(l.(transport := l.transport + [Deny(result.connection, reason)]), result, user)
      case Err(e) =>
        Denied(l.(logged := l.logged + [LogEntry(Exception(e), "Tick")],
                  transport := l.transport + [Deny(result.connection, NetConnectionResult.Unknown)]), result, user)
  }

  /** The drain: the queue processed front first, each head entry removed
      whatever its outcome. */
  function Drain(l: Ledger, queue: seq<Pending>, approves: Connection -> bool): (r: Ledger)
    ensures |r.transport| == |l.transport| + |queue|
    decreases |queue|
  {
    if queue == [] then l else Drain(Admit(l, queue[0], approves), queue[1..], approves)
  }

  lemma DrainUnfold(l: Ledger, queue: seq<Pending>, approves: Connection -> bool)
    requires queue != []
    ensures Drain(l, queue, approves) == Drain(Admit(l, queue[0], approves), queue[1..], approves)
  {
  }

  /** Every queued entry is answered by exactly one hook call, in queue order,
      and earlier hook calls are kept. */
  lemma {:induction false} DrainAnswersInOrder(l: Ledger, queue: seq<Pending>, approves: Connection -> bool)
    ensures var d := Drain(l, queue, approves);
      && |d.events| == |l.events| + |queue| && d.events[..|l.events|] == l.events
      && forall i :: 0 <= i < |queue| ==> Answers(d.events[|l.events| + i], queue[i])
    decreases |queue|
  {
    if queue != [] {
      var a := Admit(l, queue[0], approves);
      DrainAnswersInOrder(a, queue[1..], approves);
      var d := Drain(a, queue[1..], approves);
      assert d.events[..|l.events|] == d.events[..|a.events|][..|l.events|];
      forall i | 0 <= i < |queue| ensures Answers(d.events[|l.events| + i], queue[i]) {
        if i == 0 {
          assert d.events[|l.events|] == d.events[..|a.events|][|l.events|];
        } else {
          assert queue[i] == queue[1..][i - 1];
          assert d.events[|l.events| + i] == d.events[|a.events| + (i - 1)];
        }
      }
    }
  }

  /** Every queued entry produces exactly one transport call, its verdict,
      in queue order. */
  lemma {:induction false} DrainTransportInOrder(l: Ledger, queue: seq<Pending>, approves: Connection -> bool)
    ensures var d := Drain(l, queue, approves);
      && |d.transport| == |l.transport| + |queue| && d.transport[..|l.transport|] == l.transport
      && forall i :: 0 <= i < |queue| ==> d.transport[|l.transport| + i] == Verdict(queue[i])
    decreases |queue|
  {
    if queue != [] {
      var a := Admit(l, queue[0], approves);
      DrainTransportInOrder(a, queue[1..], approves);
      var d := Drain(a, queue[1..], approves);
      assert d.transport[..|l.transport|] == d.transport[..|a.transport|][..|l.transport|];
      forall i | 0 <= i < |queue| ensures d.transport[|l.transport| + i] == Verdict(queue[i]) {
        if i == 0 {
          assert d.transport[|l.transport|] == d.transport[..|a.transport|][|l.transport|];
        } else {
          assert queue[i] == queue[1..][i - 1];
          assert d.transport[|l.transport| + i] == d.transport[|a.transport| + (i - 1)];
        }
      }
    }
  }

  /** The drain only ever removes records. */
  lemma {:induction false} DrainShrinksUsers(l: Ledger, queue: seq<Pending>, approves: Connection -> bool)
    ensures var d := Drain(l, queue, approves);
      d.users.Keys <= l.users.Keys && forall c :: c in d.users ==> d.users[c] == l.users[c]
    decreases |queue|
  {
    if queue != [] {
      DrainShrinksUsers(Admit(l, queue[0], approves), queue[1..], approves);
    }
  }

  /** After the drain, no connection whose entry was refused has a record. */
  lemma {:induction false} DrainRemovesDenied(l: Ledger, queue: seq<Pending>, approves: Connection -> bool, i: nat)
    requires i < |queue| && !(queue[i].0.success && approves(queue[i].0.connection))
    ensures queue[i].0.connection !in Drain(l, queue, approves).users
    decreases |queue|
  {
    var a := Admit(l, queue[0], approves);
    if i == 0 {
      DrainShrinksUsers(a, queue[1..], approves);
    } else {
      assert queue[i] == queue[1..][i - 1];
      DrainRemovesDenied(a, queue[1..], approves, i - 1);
    }
  }

  // ---------------------------------------------------------------------
  // Hail
  // ---------------------------------------------------------------------

  /** What the hail yields: the plaintext token read at `p`, the key fetched
      for it, the credentials frame unwrapped with that key from the position
      after the token, and then the user name and the password. A fetched key
      or IV of the wrong size makes `ImportKeyForConnection` throw before the
      decryption. Any failure is the exception `ConnectionApproval` catches. */
  function Credentials(c: Cipher, getKey: Bytes -> Result<TripleDesInformation>, content: Bytes, readable: Bytes, p: nat): (r: Result<(Bytes, Bytes)>)
    ensures StringAt(readable, p).None? ==> r == Err(ReadPastEnd)
    ensures r.Ok? ==>
      (&& StringAt(readable, p).Some? && getKey(StringAt(readable, p).value.0).Ok?
       && SettersOutcome(getKey(StringAt(readable, p).value.0).value.key, getKey(StringAt(readable, p).value.0).value.iv).Pass?)
  {
    match StringAt(readable, p)
    case None => Err(ReadPastEnd)
    case Some((token, q)) =>
      match getKey(token)
      case Err(e) => Err(e)
      case Ok(info) =>
        if SettersOutcome(info.key, info.iv).Fail? then Err(Cryptographic)
        else Unlocked(c, KeyIv(info.key, info.iv), content, readable, q)
  }

  /** The credentials frame at `q` decrypted under `k` and read as the login;
      the ciphertext starts after the header, or at 0 when the message is
      shorter than that. */
  function Unlocked(c: Cipher, k: KeyIv, content: Bytes, readable: Bytes, q: nat): Result<(Bytes, Bytes)>
  {
    match Unwrap(c, k, content, readable, q, if q + 4 <= |content| then q + 4 else 0)
    case Err(e) => Err(e)
    case Ok((plain, bits)) => Login(plain[..bits / 8])
  }

  /** The user name and password strings read from the start of the decrypted bytes. */
  function Login(s: Bytes): Result<(Bytes, Bytes)>
  {
    match StringAt(s, 0)
    case None => Err(ReadPastEnd)
    case Some((user, q)) =>
      match StringAt(s, q)
      case None => Err(ReadPastEnd)
      case Some((password, _)) => Ok((user, password))
  }

  /** The key a hail installs once the token is read: the one fetched for the
      token, as far as the setters accept it over the new provider's random
      `generated` key and IV. */
  function HailKey(getKey: Bytes -> Result<TripleDesInformation>, readable: Bytes, p: nat, generated: KeyIv): Option<KeyIv>
  {
    match StringAt(readable, p)
    case None => None
    case Some((token, _)) =>
      match getKey(token)
      case Err(_) => None
      case Ok(info) => Some(Installed(info.key, info.iv, generated))
  }

  /** The credentials' bytes read back as the user name and the password. */
  lemma LoginRoundTrip(user: Bytes, password: Bytes)
    ensures Login(StringBytes(user) + StringBytes(password)) == Ok((user, password))
  {
    var su, sp := StringBytes(user), StringBytes(password);
    var s := su + sp;
    assert s[0..|su|] == su;
    StringRoundTrip(user, s, 0);
    assert s[|su|..|su| + |sp|] == sp;
    StringRoundTrip(password, s, |su|);
  }

  /** A hail built by the client encryptor from the user name and password,
      under the key the authenticator returns for its token, yields those
      credentials to the provider (`EncryptHail` against `ConnectionApproval`). */
  lemma HailCarriesCredentials(c: Cipher, k: KeyIv, token: Bytes, user: Bytes, password: Bytes,
                               getKey: Bytes -> Result<TripleDesInformation>, generated: KeyIv)
    requires Inverse(c) && getKey(token) == Ok(TripleDesInformation(k.key, k.iv))
    requires KeySizeValid(k.key) && IvSizeValid(k.iv)
    requires 8 * |StringBytes(user) + StringBytes(password)| < TwoTo31
    ensures var content := StringBytes(user) + StringBytes(password);
      var f := HailFrame(c, k, token, content, 8 * |content|);
      && HailKey(getKey, f, 0, generated) == Some(k)
      && Credentials(c, getKey, f, f, 0) == Ok((user, password))
  {
    var content := StringBytes(user) + StringBytes(password);
    var bits := 8 * |content|;
    assert BytesToHoldBits(bits) == |content| && bits / 8 == |content|;
    var f := HailFrame(c, k, token, content, bits);
    HailRoundTrip(c, k, token, content, bits);
    var t := |StringBytes(token)|;
    CredentialsUnderKey(getKey, f, k, token, t, generated);
    assert content[..bits / 8] == content;
    UnlockedLogin(c, k, f, t, content, bits);
    LoginRoundTrip(user, password);
  }

  /** Once the token at `p` is read and its key fetched, the hail's outcome is
      that of unlocking the rest with the fetched key. */
  lemma CredentialsAfterToken(c: Cipher, getKey: Bytes -> Result<TripleDesInformation>, content: Bytes, readable: Bytes,
                              p: nat, token: Bytes, q: nat, generated: KeyIv)
    requires StringAt(readable, p) == Some((token, q)) && getKey(token).Ok?
    ensures var info := getKey(token).value;
      && HailKey(getKey, readable, p, generated) == Some(Installed(info.key, info.iv, generated))
      && Credentials(c, getKey, content, readable, p)
         == if SettersOutcome(info.key, info.iv).Fail? then Err(Cryptographic)
            else Unlocked(c, KeyIv(info.key, info.iv), content, readable, q)
  {
  }

  /** A frame whose token maps to `k` is unlocked with `k` after the token. */
  lemma CredentialsUnderKey(getKey: Bytes -> Result<TripleDesInformation>, f: Bytes, k: KeyIv, token: Bytes, t: nat, generated: KeyIv)
    requires StringAt(f, 0) == Some((token, t)) && getKey(token) == Ok(TripleDesInformation(k.key, k.iv))
    requires KeySizeValid(k.key) && IvSizeValid(k.iv)
    ensures HailKey(getKey, f, 0, generated) == Some(k)
    ensures forall c: Cipher :: Credentials(c, getKey, f, f, 0) == Unlocked(c, k, f, f, t)
  {
    var info := getKey(token).value;
    assert KeyIv(info.key, info.iv) == k;
  }

  lemma UnlockedLogin(c: Cipher, k: KeyIv, f: Bytes, t: nat, plain: Bytes, bits: nat)
    requires t + 4 <= |f| && Unwrap(c, k, f, f, t, t + 4) == Ok((plain, bits))
    ensures Unlocked(c, k, f, f, t) == Login(plain[..bits / 8])
  {
  }

  // ---------------------------------------------------------------------
  // Users and pacing
  // ---------------------------------------------------------------------

  /** `order` lists the keys of the users map, each once (its enumeration order). */
  ghost predicate Enumerates(order: seq<Connection>, keys: set<Connection>)
  {
    && (forall i, j :: 0 <= i < j < |order| ==> order[i] != order[j])
    && (forall c :: c in keys <==> c in order)
  }

  /** The action calls `DoForUsers` makes: the logged-in records, in
      enumeration order, whose data satisfies the predicate. */
  function Selected(users: map<Connection, CommunicationUser>, order: seq<Connection>, pred: UserData -> bool): (r: seq<(Connection, UserData)>)
    requires forall c :: c in order ==> c in users
    ensures |r| <= |order|
    decreases |order|
  {
    if order == [] then []
    else
      var c := order[|order| - 1];
      Selected(users, order[..|order| - 1], pred)
        + (if users[c].userData.Some? && pred(users[c].userData.value) then [(c, users[c].userData.value)] else [])
  }

  /** `DoForUsers` acts exactly on the logged-in users whose data satisfies the predicate. */
  lemma {:induction false} SelectedExactly(users: map<Connection, CommunicationUser>, order: seq<Connection>, pred: UserData -> bool,
                                           c: Connection, d: UserData)
    requires forall x :: x in order ==> x in users
    ensures (c, d) in Selected(users, order, pred) <==> c in order && users[c].userData == Some(d) && pred(d)
    decreases |order|
  {
    if order != [] {
      var init := order[..|order| - 1];
      assert forall x :: x in init ==> x in order;
      SelectedExactly(users, init, pred, c, d);
      assert order == init + [order[|order| - 1]];
    }
  }

  /** What the end of a tick does: wait the rest of the interval, or log an overrun. */
  datatype Pacing = Delay(ms: int) | Overrun(elapsed: int, interval: int)

  /** C#'s integer division, which truncates toward zero. */
  function Quotient(a: int, b: int): (r: int)
    requires b != 0
    ensures (a >= 0) == (b > 0) || a == 0 ==> r >= 0
    ensures (a >= 0) != (b > 0) ==> r <= 0
  {
    if a >= 0 then (if b > 0 then a / b else -(a / -b))
    else (if b > 0 then -((-a) / b) else (-a) / (-b))
  }

  /** The truncated quotient is the largest magnitude whose multiple does not exceed the dividend. */
  lemma QuotientMagnitude(a: int, b: int)
    requires b != 0
    ensures var q := Quotient(a, b);
      (if q >= 0 then q else -q) * (if b >= 0 then b else -b) <= (if a >= 0 then a else -a)
      < ((if q >= 0 then q else -q) + 1) * (if b >= 0 then b else -b)
  {
    var magA: nat := if a >= 0 then a else -a;
    var magB: nat := if b >= 0 then b else -b;
    QuotientIsMagnitudeQuotient(a, b);
    DivisionBounds(magA, magB);
  }

  /** The truncated quotient's magnitude is the quotient of the magnitudes. */
  lemma QuotientIsMagnitudeQuotient(a: int, b: int)
    requires b != 0
    ensures var q := Quotient(a, b);
      (if q >= 0 then q else -q) == (if a >= 0 then a else -a) / (if b >= 0 then b else -b)
  {
  }

  lemma DivisionBounds(n: nat, d: nat)
    requires d > 0
    ensures (n / d) * d <= n < (n / d + 1) * d
  {
    var m := n / d;
    assert n == m * d + n % d;
    assert (m + 1) * d == m * d + d;
  }

  /** `interval = 1000 / repeatRate`, then the remainder of the interval after
      `elapsed` milliseconds; a zero rate throws. */
  function Pace(repeatRate: int, elapsed: int): (r: Result<Pacing>)
    ensures r.Err? <==> repeatRate == 0
    ensures r.Err? ==> r.error == DivideByZero
    ensures r.Ok? ==> (r.value.Delay? <==> elapsed < Quotient(1000, repeatRate))
    ensures r.Ok? && r.value.Delay? ==> r.value.ms > 0 && r.value.ms + elapsed == Quotient(1000, repeatRate)
    ensures r.Ok? && r.value.Overrun? ==> r.value.elapsed == elapsed && r.value.interval == Quotient(1000, repeatRate)
    ensures repeatRate < 0 && elapsed >= 0 ==> r.Ok? && r.value.Overrun?
    ensures repeatRate > 1000 && elapsed >= 0 ==> r == Ok(Overrun(elapsed, 0))
  {
    if repeatRate == 0 then Err(DivideByZero)
    else
      var interval := Quotient(1000, repeatRate);
      var finalInterval := interval - elapsed;
      if finalInterval > 0 then Ok(Delay(finalInterval)) else Ok(Overrun(elapsed, interval))
  }

  /** The entries a tick's pacing logs: one for an overrun. */
  function PaceLog(p: Result<Pacing>): seq<LogEntry>
  {
    if p.Ok? && p.value.Overrun? then [LogEntry(TickOverrun(p.value.elapsed, p.value.interval), "Tick")] else []
  }

  // ---------------------------------------------------------------------
  // The provider
  // ---------------------------------------------------------------------

  class CommunicatorProvider {
    const comm: Communicator
    const encryptor: ServerEncryptor
    /** `PendingAndLoggedInUsers`. */
    var users: map<Connection, CommunicationUser>
    /** `AuthenticationResults`. */
    var authenticationResults: seq<Pending>
    var isRunning: bool
    var transport: seq<TransportAction>
    var events: seq<ProviderEvent>
    /** Every `Authenticator.Authenticate(user, password)` call. */
    var authenticatorCalls: seq<(Bytes, Bytes)>
    /** Every `Task.Delay(finalInterval)` a tick waited for. */
    var delays: seq<int>

    /** A server communicator over a fresh per-connection encryptor. */
    constructor (c: Cipher, cv: Converter, timeOut: real)
      ensures fresh(comm) && fresh(encryptor) && comm.peer == ServerPeer(encryptor) && encryptor.cipher == c
      ensures encryptor.providers == map[] && comm.converter == cv && comm.runningTasks == [] && comm.logList == []
      ensures users == map[] && authenticationResults == [] && !isRunning
      ensures transport == [] && events == [] && authenticatorCalls == [] && delays == []
    {
      var e := new ServerEncryptor(c);
      encryptor := e;
      comm := new Communicator(ServerPeer(e), cv, timeOut);
      users, authenticationResults, isRunning := map[], [], false;
      transport, events, authenticatorCalls, delays := [], [], [], [];
    }

    /** `AuthorizedForMessage(connection)`: a record exists, pending or not; a
        null connection makes the lookup throw. */
    function AuthorizedForMessage(connection: Option<Connection>): (r: Result<bool>)
      reads this
      ensures r.Err? <==> connection.None?
      ensures r.Ok? ==> (r.value <==> connection.value in users)
    {
      if connection.None? then Err(ArgumentNull) else Ok(connection.value in users)
    }

    /** The `Data` case of `Tick`: decrypt and dispatch, only for a sender with a record. */
    method HandleData(msg: NetMessage, invoke: (MethodDesc, seq<Value>) -> Invocation) returns (r: Outcome)
      requires msg.Valid()
      modifies msg, comm`awaitingCalls, comm`runningTasks, comm`logList, comm`deliveries
      ensures AuthorizedForMessage(msg.sender).Err? ==> r == Fail(ArgumentNull)
      ensures AuthorizedForMessage(msg.sender) != Ok(true) ==>
        && unchanged(msg) && comm.awaitingCalls == old(comm.awaitingCalls) && comm.runningTasks == old(comm.runningTasks)
        && comm.logList == old(comm.logList) && comm.deliveries == old(comm.deliveries)
      ensures AuthorizedForMessage(msg.sender) == Ok(false) ==> r == Pass
      ensures AuthorizedForMessage(msg.sender) == Ok(true) && msg.sender.value !in encryptor.providers ==>
        var d := Route(comm.converter, comm.recieveFilters, old(comm.awaitingCalls), old(msg.Readable()), old(msg.readPos), msg.sender, invoke);
        && r == d.outcome && comm.awaitingCalls == d.awaiting && comm.runningTasks == old(comm.runningTasks) + d.added
        && comm.logList == old(comm.logList) + FilterLog(d.logged)
        && comm.deliveries == old(comm.deliveries) + FanoutAll(comm.subscribers, FilterLog(d.logged))
        && msg.data == old(msg.data) && msg.bitLength == old(msg.bitLength) && msg.readPos == d.readPos
      ensures AuthorizedForMessage(msg.sender) == Ok(true) && msg.sender.value in encryptor.providers ==>
        var cipherFrom := if old(msg.readPos) + 4 <= |old(msg.Content())| then old(msg.readPos) + 4 else 0;
        var u := Unwrap(encryptor.cipher, encryptor.providers[msg.sender.value], old(msg.Content()), old(msg.Readable()), old(msg.readPos), cipherFrom);
        && (u.Err? ==>
              && r == Fail(u.error) && comm.awaitingCalls == old(comm.awaitingCalls) && comm.runningTasks == old(comm.runningTasks)
              && comm.logList == old(comm.logList) && comm.deliveries == old(comm.deliveries)
              && msg.data == old(msg.data) && msg.bitLength == old(msg.bitLength)
              && msg.readPos == old(msg.readPos) + (if u.error == ReadPastEnd then 0 else 4))
        && (u.Ok? ==>
              var d := Route(comm.converter, comm.recieveFilters, old(comm.awaitingCalls), u.value.0[..u.value.1 / 8], 0, msg.sender, invoke);
              && r == d.outcome && comm.awaitingCalls == d.awaiting && comm.runningTasks == old(comm.runningTasks) + d.added
              && comm.logList == old(comm.logList) + FilterLog(d.logged)
              && comm.deliveries == old(comm.deliveries) + FanoutAll(comm.subscribers, FilterLog(d.logged))
              && msg.data == u.value.0 && msg.bitLength == u.value.1 && msg.readPos == d.readPos)
    {
      var authorized := AuthorizedForMessage(msg.sender);
      if authorized.Err? {
        return Fail(authorized.error);
      }
      if !authorized.value {
        return Pass;
      }
      r := encryptor.Decrypt(msg);
      if r.Fail? {
        return;
      }
      r := comm.FilterMessage(msg, invoke);
    }

    /** Logs the exception `ConnectionApproval` caught and refuses the connection. */
    method Reject(connection: Connection, e: Error)
      modifies this`transport, comm`logList, comm`deliveries
      ensures transport == old(transport) + [Deny(connection, NetConnectionResult.Unknown)]
      ensures comm.logList == old(comm.logList) + [LogEntry(Exception(e), "ConnectionApproval")]
      ensures comm.deliveries == old(comm.deliveries) + Fanout(comm.subscribers, LogEntry(Exception(e), "ConnectionApproval"))
    {
      comm.Log(Exception(e), "ConnectionApproval");
      transport := transport + [Deny(connection, NetConnectionResult.Unknown)];
    }

    /** The user name and password read from the start of the decrypted message. */
    method ReadLogin(msg: NetMessage) returns (cr: Result<(Bytes, Bytes)>)
      requires msg.Valid() && msg.readPos == 0
      modifies msg`readPos
      ensures cr == Login(msg.Readable())
    {
      var user := msg.ReadString();
      if user.None? {
        return Err(ReadPastEnd);
      }
      var password := msg.ReadString();
      if password.None? {
        return Err(ReadPastEnd);
      }
      cr := Ok((user.value, password.value));
    }

    /** The reads of `ConnectionApproval`: the plaintext token, the key fetched
        for it and installed for the sender, the decryption, the credentials. */
    method ReadHail(msg: NetMessage, getKey: Bytes -> Result<TripleDesInformation>, generated: KeyIv) returns (cr: Result<(Bytes, Bytes)>)
      requires msg.Valid() && msg.sender.Some?
      modifies msg, encryptor`providers
      ensures cr == Credentials(encryptor.cipher, getKey, old(msg.Content()), old(msg.Readable()), old(msg.readPos))
      ensures var k := HailKey(getKey, old(msg.Readable()), old(msg.readPos), generated);
        encryptor.providers == if k.Some? then old(encryptor.providers)[msg.sender.value := k.value] else old(encryptor.providers)
    {
      var token := msg.ReadString();
      if token.None? {
        return Err(ReadPastEnd);
      }
      var tripleDesInformation := getKey(token.value);
      if tripleDesInformation.Err? {
        return Err(tripleDesInformation.error);
      }
      CredentialsAfterToken(encryptor.cipher, getKey, msg.Content(), msg.Readable(), old(msg.readPos), token.value, msg.readPos, generated);
      var imported := encryptor.ImportKeyForConnection(msg.sender.value, tripleDesInformation.value.key, tripleDesInformation.value.iv, generated);
      if imported.Fail? {
        return Err(imported.error);
      }
      cr := UnlockHail(msg, KeyIv(tripleDesInformation.value.key, tripleDesInformation.value.iv));
    }

    /** The decryption and the reads of the credentials, under the key just installed. */
    method UnlockHail(msg: NetMessage, ghost k: KeyIv) returns (cr: Result<(Bytes, Bytes)>)
      requires msg.Valid() && msg.sender.Some?
      requires msg.sender.value in encryptor.providers && encryptor.providers[msg.sender.value] == k
      modifies msg
      ensures cr == Unlocked(encryptor.cipher, k, old(msg.Content()), old(msg.Readable()), old(msg.readPos))
    {
      var decrypted := encryptor.Decrypt(msg);
      if decrypted.Fail? {
        return Err(decrypted.error);
      }
      cr := ReadLogin(msg);
    }

    /** `ConnectionApproval(msg)` up to the authenticator call: `getKey` is the
        outcome of `GetKeyFromToken`, `generated` the random key and IV of the
        provider it installs, `authTask` the continuation's task. */
    method HailReceived(msg: NetMessage, getKey: Bytes -> Result<TripleDesInformation>, generated: KeyIv, authTask: TaskId) returns (r: Outcome)
      requires msg.Valid() && msg.sender.Some?
      modifies msg, encryptor`providers, this`users, this`authenticationResults, this`transport, this`authenticatorCalls
      modifies comm`logList, comm`deliveries, comm`runningTasks
      ensures var k := HailKey(getKey, old(msg.Readable()), old(msg.readPos), generated);
        encryptor.providers == if k.Some? then old(encryptor.providers)[msg.sender.value := k.value] else old(encryptor.providers)
      ensures var cr := Credentials(encryptor.cipher, getKey, old(msg.Content()), old(msg.Readable()), old(msg.readPos));
        cr.Err? ==>
          && r == Pass && users == old(users) && authenticationResults == old(authenticationResults)
          && transport == old(transport) + [Deny(msg.sender.value, NetConnectionResult.Unknown)]
          && comm.logList == old(comm.logList) + [LogEntry(Exception(cr.error), "ConnectionApproval")]
          && comm.deliveries == old(comm.deliveries) + Fanout(comm.subscribers, LogEntry(Exception(cr.error), "ConnectionApproval"))
          && comm.runningTasks == old(comm.runningTasks) && authenticatorCalls == old(authenticatorCalls)
      ensures var cr := Credentials(encryptor.cipher, getKey, old(msg.Content()), old(msg.Readable()), old(msg.readPos));
        cr.Ok? && NameTaken(old(users), ToLower(cr.value.0)) ==>
          && r == Pass && users == old(users)
          && authenticationResults == old(authenticationResults) + [(AlreadyLoggedIn(msg.sender.value), ToLower(cr.value.0))]
          && transport == old(transport) && comm.logList == old(comm.logList) && comm.deliveries == old(comm.deliveries)
          && comm.runningTasks == old(comm.runningTasks) && authenticatorCalls == old(authenticatorCalls)
      ensures var cr := Credentials(encryptor.cipher, getKey, old(msg.Content()), old(msg.Readable()), old(msg.readPos));
        cr.Ok? && !NameTaken(old(users), ToLower(cr.value.0)) ==>
          && authenticationResults == old(authenticationResults) && transport == old(transport)
          && comm.logList == old(comm.logList) && comm.deliveries == old(comm.deliveries)
          && (msg.sender.value in old(users) ==>
                r == Fail(DuplicateKey) && users == old(users)
                && comm.runningTasks == old(comm.runningTasks) && authenticatorCalls == old(authenticatorCalls))
          && (msg.sender.value !in old(users) ==>
                && r == Pass && users == old(users)[msg.sender.value := CommunicationUser(ToLower(cr.value.0), None, 0)]
                && authenticatorCalls == old(authenticatorCalls) + [(ToLower(cr.value.0), cr.value.1)]
                && comm.runningTasks == old(comm.runningTasks) + [TaskJob(Some(authTask), None, None, None)])
    {
      var connection := msg.sender.value;
      var credentials := ReadHail(msg, getKey, generated);
      if credentials.Err? {
        Reject(connection, credentials.error);
        return Pass;
      }
      var (userRead, password) := credentials.value;
      r := Enrol(connection, ToLower(userRead), password, authTask);
    }

    /** `ConnectionApproval` after the credentials are read: a name already in
        use is queued as denied; otherwise a pending record is added (throwing
        when the connection already has one) and the authenticator is called. */
    method Enrol(connection: Connection, user: Bytes, password: Bytes, authTask: TaskId) returns (r: Outcome)
      modifies this`users, this`authenticationResults, this`authenticatorCalls, comm`runningTasks
      ensures NameTaken(old(users), user) ==>
        && r == Pass && users == old(users)
        && authenticationResults == old(authenticationResults) + [(AlreadyLoggedIn(connection), user)]
        && comm.runningTasks == old(comm.runningTasks) && authenticatorCalls == old(authenticatorCalls)
      ensures !NameTaken(old(users), user) ==>
        && authenticationResults == old(authenticationResults)
        && (connection in old(users) ==>
              r == Fail(DuplicateKey) && users == old(users)
              && comm.runningTasks == old(comm.runningTasks) && authenticatorCalls == old(authenticatorCalls))
        && (connection !in old(users) ==>
              && r == Pass && users == old(users)[connection := CommunicationUser(user, None, 0)]
              && authenticatorCalls == old(authenticatorCalls) + [(user, password)]
              && comm.runningTasks == old(comm.runningTasks) + [TaskJob(Some(authTask), None, None, None)])
    {
      if exists c :: c in users && users[c].userName == user {
        authenticationResults := authenticationResults + [(AlreadyLoggedIn(connection), user)];
        return Pass;
      }
      if connection in users {
        return Fail(DuplicateKey);
      }
      users := users[connection := CommunicationUser(user, None, 0)];
      authenticatorCalls := authenticatorCalls + [(user, password)];
      comm.AddRunningTask(Some(authTask), None, None, None);
      r := Pass;
    }

    /** The continuation of the authenticator call: `fetched` is what `GetUser`
        returns, `now` the login time. */
    method AuthenticationCompleted(connection: Connection, authentication: AuthenticationResult, user: Bytes,
                                   fetched: Option<UserData>, now: nat) returns (r: Outcome)
      modifies this`users, this`authenticationResults, this`events
      ensures var a := authentication.(connection := connection);
        events == old(events) + [ApprovalExtras(a)]
      ensures var a := authentication.(connection := connection);
        a.success && a.userId != [] && connection !in old(users) ==>
          r == Fail(KeyNotFound) && users == old(users) && authenticationResults == old(authenticationResults)
      ensures var a := authentication.(connection := connection);
        a.success && a.userId != [] && connection in old(users) ==>
          && r == Pass && authenticationResults == old(authenticationResults) + [(a, user)]
          && users == old(users)[connection := old(users)[connection].(userData := fetched, loggedInTime := now)]
      ensures var a := authentication.(connection := connection);
        !(a.success && a.userId != []) ==>
          r == Pass && users == old(users) && authenticationResults == old(authenticationResults) + [(a, user)]
    {
      var a := authentication.(connection := connection);
      events := events + [ApprovalExtras(a)];
      if a.success && a.userId != [] {
        if connection !in users {
          return Fail(KeyNotFound);
        }
        users := users[connection := users[connection].(userData := fetched, loggedInTime := now)];
      }
      authenticationResults := authenticationResults + [(a, user)];
      r := Pass;
    }

    /** `OnAuthenticationDenied(result, user)`: the record is removed if present. */
    method OnAuthenticationDenied(result: AuthenticationResult, user: Bytes)
      modifies this`users, this`events
      ensures users == old(users) - {result.connection}
      ensures events == old(events) + [AuthenticationDenied(result, user)]
    {
      events := events + [AuthenticationDenied(result, user)];
      if result.connection in users {
        users := users - {result.connection};
      }
    }

    /** One pass of the drain loop over the head entry `p`; `logged` collects
        what the drain has logged. */
    method AdmitHead(p: Pending, approves: Connection -> bool, ghost logged: seq<LogEntry>)
      modifies this`users, this`transport, this`events, comm`logList, comm`deliveries
      ensures Ledger(users, transport, events, logged + AdmitLog(p))
        == Admit(Ledger(old(users), old(transport), old(events), logged), p, approves)
      ensures comm.logList == old(comm.logList) + AdmitLog(p)
      ensures comm.deliveries == old(comm.deliveries) + FanoutAll(comm.subscribers, AdmitLog(p))
    {
      var (result, user) := p;
      if result.success {
        transport := transport + [Approve(result.connection)];
        if approves(result.connection) {
          events := events + [AuthenticationApproved(result, user)];
        } else {
          OnAuthenticationDenied(result, user);
        }
      } else {
        var reason := DenialReason(result.requestState);
        if reason.Ok? {
          transport := transport + [Deny(result.connection, reason.value)];
        } else {
          comm.Log(Exception(reason.error), "Tick");
          assert FanoutAll(comm.subscribers, [LogEntry(Exception(reason.error), "Tick")])
            == Fanout(comm.subscribers, LogEntry(Exception(reason.error), "Tick"));
          transport := transport + [Deny(result.connection, NetConnectionResult.Unknown)];
        }
        OnAuthenticationDenied(result, user);
      }
    }

    /** The drain loop of `Tick`; `approves` is what `Approve()` returns. */
    method DrainAuthenticationResults(approves: Connection -> bool)
      modifies this`users, this`authenticationResults, this`transport, this`events, comm`logList, comm`deliveries
      ensures authenticationResults == []
      ensures var l := Drain(Ledger(old(users), old(transport), old(events), []), old(authenticationResults), approves);
        && users == l.users && transport == l.transport && events == l.events
        && comm.logList == old(comm.logList) + l.logged
        && comm.deliveries == old(comm.deliveries) + FanoutAll(comm.subscribers, l.logged)
    {
      ghost var logged: seq<LogEntry> := [];
      while |authenticationResults| > 0
        invariant Drain(Ledger(users, transport, events, logged), authenticationResults, approves)
          == Drain(Ledger(old(users), old(transport), old(events), []), old(authenticationResults), approves)
        invariant comm.logList == old(comm.logList) + logged
        invariant comm.deliveries == old(comm.deliveries) + FanoutAll(comm.subscribers, logged)
        decreases |authenticationResults|
      {
        var head := authenticationResults[0];
        DrainUnfold(Ledger(users, transport, events, logged), authenticationResults, approves);
        ghost var log1, del1 := comm.logList, comm.deliveries;
        AdmitHead(head, approves, logged);
        LogExtended(comm.subscribers, old(comm.logList), old(comm.deliveries), logged, log1, del1,
                    AdmitLog(head), comm.logList, comm.deliveries);
        logged := logged + AdmitLog(head);
        authenticationResults := authenticationResults[1..];
      }
    }

    /** `OnDisconnected_Internal(connection)`: the record is reported, then it
        and the connection's key are removed; the lookup throws without a record. */
    method OnDisconnectedInternal(connection: Option<Connection>) returns (r: Outcome)
      modifies this`users, this`events, encryptor`providers
      ensures connection.None? ==> r == Fail(ArgumentNull)
      ensures connection.Some? && connection.value !in old(users) ==> r == Fail(KeyNotFound)
      ensures r.Fail? ==> users == old(users) && events == old(events) && encryptor.providers == old(encryptor.providers)
      ensures connection.Some? && connection.value in old(users) ==>
        && r == Pass && events == old(events) + [UserDisconnected(old(users)[connection.value])]
        && users == old(users) - {connection.value}
        && encryptor.providers == old(encryptor.providers) - {connection.value}
    {
      if connection.None? {
        return Fail(ArgumentNull);
      }
      if connection.value !in users {
        return Fail(KeyNotFound);
      }
      events := events + [UserDisconnected(users[connection.value])];
      users := users - {connection.value};
      encryptor.providers := encryptor.providers - {connection.value};
      r := Pass;
    }

    /** The provider's `OnConnectionStatusChanged`: the base switch with this
        class's `OnDisconnected_Internal` before `OnDisconnected`. */
    method OnConnectionStatusChanged(status: NetConnectionStatus, result: NetConnectionResult, connection: Option<Connection>) returns (r: Outcome)
      modifies comm`connectionStatus, comm`statusEvents, comm`hooks, comm`logList, comm`deliveries
      modifies this`users, this`events, encryptor`providers
      ensures comm.connectionStatus == status && comm.statusEvents == old(comm.statusEvents) + [(status, result)]
      ensures var leaving := status == NetConnectionStatus.Disconnected;
        var known := connection.Some? && connection.value in old(users);
        && (r.Pass? <==> !status.Undefined? && (leaving ==> known))
        && (leaving && known ==> users == old(users) - {connection.value}
                                 && encryptor.providers == old(encryptor.providers) - {connection.value})
        && (!(leaving && known) ==> users == old(users) && encryptor.providers == old(encryptor.providers))
        && events == old(events) + (if leaving && known then [UserDisconnected(old(users)[connection.value])] else [])
        && comm.hooks == old(comm.hooks) + (if r.Pass? then StatusHooks(status, connection) else [])
        && comm.logList == old(comm.logList) + (if r.Pass? then [LogEntry(Status(status), "OnConnectionStatusChanged")] else [])
        && comm.deliveries == old(comm.deliveries)
             + (if r.Pass? then Fanout(comm.subscribers, LogEntry(Status(status), "OnConnectionStatusChanged")) else [])
    {
      comm.BeginStatusChange(status, result);
      if status == NetConnectionStatus.Disconnected {
        r := OnDisconnectedInternal(connection);
        if r.Fail? {
          return;
        }
      }
      r := comm.FinishStatusChange(status, connection);
    }

    /** `DoForUsers(predicate, action)`: the action calls it makes, enumerating
        the users in `order`. */
    method DoForUsers(pred: UserData -> bool, order: seq<Connection>) returns (applied: seq<(Connection, UserData)>)
      requires Enumerates(order, users.Keys)
      ensures applied == Selected(users, order, pred)
      ensures forall c: Connection, d: UserData :: (c, d) in applied <==> c in users && users[c].userData == Some(d) && pred(d)
    {
      applied := [];
      var i := 0;
      while i < |order|
        invariant 0 <= i <= |order|
        invariant applied == Selected(users, order[..i], pred)
      {
        assert order[..i + 1][..i] == order[..i];
        var record := users[order[i]];
        if record.userData.Some? && pred(record.userData.value) {
          applied := applied + [(order[i], record.userData.value)];
        }
        i := i + 1;
      }
      assert order[..i] == order;
      forall c: Connection, d: UserData ensures (c, d) in applied <==> c in users && users[c].userData == Some(d) && pred(d) {
        SelectedExactly(users, order, pred, c, d);
      }
    }

    /** `Tick(repeatRate)` after the message loop: the drain, `RunTasks`, then
        the pacing; `elapsed` is the stopwatch reading in milliseconds. */
    method Tick(repeatRate: int, elapsed: int, approves: Connection -> bool, observe: TaskId -> TaskStatus) returns (r: Outcome)
      modifies this`users, this`authenticationResults, this`transport, this`events, this`delays
      modifies comm`logList, comm`deliveries, comm`runningTasks, comm`sent, comm`exceptionsCaught
      ensures authenticationResults == []
      ensures var l := Drain(Ledger(old(users), old(transport), old(events), []), old(authenticationResults), approves);
        users == l.users && transport == l.transport && events == l.events
      ensures var w := Reconcile(comm.peer.ServerPeer?, comm.converter, old(comm.runningTasks), observe);
        comm.runningTasks == w.kept && comm.sent == old(comm.sent) + w.replies
        && comm.exceptionsCaught == old(comm.exceptionsCaught) + w.caught
      ensures var l := Drain(Ledger(old(users), old(transport), old(events), []), old(authenticationResults), approves);
        var w := Reconcile(comm.peer.ServerPeer?, comm.converter, old(comm.runningTasks), observe);
        var p := Pace(repeatRate, elapsed);
        && (w.error.Some? ==> r == Fail(w.error.value))
        && (w.error.None? && p.Err? ==> r == Fail(p.error))
        && (w.error.None? && p.Ok? ==> r == Pass)
        && delays == old(delays) + (if w.error.None? && p.Ok? && p.value.Delay? then [p.value.ms] else [])
        && comm.logList == old(comm.logList) + l.logged + (if w.error.None? then PaceLog(p) else [])
        && comm.deliveries == old(comm.deliveries) + FanoutAll(comm.subscribers, l.logged)
             + (if w.error.None? then FanoutAll(comm.subscribers, PaceLog(p)) else [])
    {
      DrainAuthenticationResults(approves);
      r := comm.RunTasks(observe);
      if r.Fail? {
        return;
      }
      r := Throttle(repeatRate, elapsed);
    }

    /** The end of `Tick`: the wait until the next tick is due, or the overrun logged. */
    method Throttle(repeatRate: int, elapsed: int) returns (r: Outcome)
      modifies this`delays, comm`logList, comm`deliveries
      ensures var p := Pace(repeatRate, elapsed);
        && r == (if p.Err? then Fail(p.error) else Pass)
        && delays == old(delays) + (if p.Ok? && p.value.Delay? then [p.value.ms] else [])
        && comm.logList == old(comm.logList) + PaceLog(p)
        && comm.deliveries == old(comm.deliveries) + FanoutAll(comm.subscribers, PaceLog(p))
    {
      ghost var subs := comm.subscribers;
      assert FanoutAll(subs, []) == [];
      if repeatRate == 0 {
        return Fail(DivideByZero);
      }
      var interval := Quotient(1000, repeatRate);
      var finalInterval := interval - elapsed;
      if finalInterval > 0 {
        assert Pace(repeatRate, elapsed) == Ok(Delay(finalInterval));
        delays := delays + [finalInterval];
      } else {
        ghost var e := LogEntry(TickOverrun(elapsed, interval), "Tick");
        assert Pace(repeatRate, elapsed) == Ok(Overrun(elapsed, interval)) && PaceLog(Pace(repeatRate, elapsed)) == [e];
        OneEntryFanout(subs, e);
        comm.Log(TickOverrun(elapsed, interval), "Tick");
      }
      r := Pass;
    }

    /** `StartService()`: running, the transport started, the port logged. */
    method StartService(port: nat)
      modifies this`isRunning, this`transport, comm`logList, comm`deliveries
      ensures isRunning && transport == old(transport) + [Start]
      ensures comm.logList == old(comm.logList) + [LogEntry(ServiceStarted(port), "StartService")]
      ensures comm.deliveries == old(comm.deliveries) + Fanout(comm.subscribers, LogEntry(ServiceStarted(port), "StartService"))
    {
      isRunning := true;
      transport := transport + [Start];
      comm.Log(ServiceStarted(port), "StartService");
    }

    /** `StopService(message)`: the transport shut down, no longer running. */
    method StopService(message: Bytes)
      modifies this`isRunning, this`transport
      ensures !isRunning && transport == old(transport) + [Shutdown(message)]
    {
      transport := transport + [Shutdown(message)];
      isRunning := false;
    }
  }
}
