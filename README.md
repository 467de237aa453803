# Contract communication over Lidgren: a Dafny model

This project models the contract-based RPC layer built on the Lidgren UDP
library (xeonixen/lidgren-network-gen3):

- **Capability directory.** Each method of a contract interface gets a 16-bit
  address. An inbound frame addressed that way reaches the method of the same
  name.
- **Dispatch engine** (`CommunicatorBase`):
  - builds Call, CallAsync and reply frames and sends them through the peer's
    encryptor;
  - keeps pending awaited calls as slots keyed by a correlation token, and
    their time-out;
  - routes inbound frames to handlers;
  - keeps the running-task list and sweeps it;
  - keeps the log with its replaying event, and handles status changes.
- **Argument converter** (`ConverterBase`). It builds the call envelope
  without the connection parameters, and rebuilds the argument array with the
  connection slots bound to the sender.
- **Tokenized Triple-DES encryptors.** The server keeps one key per
  connection. The client frames the hail as a plaintext token followed by an
  encrypted frame.
- **Provider's admission state machine** (`CommunicatorProviderBase`):
  - the hail is read, its key installed and its credentials handed to the
    authenticator;
  - the queued authentication results are drained into
    `Approve`/`Deny` calls and hook calls;
  - a data gate admits only connections that have a user record;
  - disconnects clean up the record and the key;
  - `DoForUsers`, and the tick's pacing.

## How the model is built

Modules follow the source files:

| module | models |
|---|---|
| `Wire` | the message buffer and its encodings |
| `Contracts` | the shared declarations |
| `ConverterBase` | the argument converter |
| `TripleDes` | the encryptors |
| `Dispatch` | `CommunicatorBase` |
| `Provider` | `CommunicatorProviderBase` |

Objects whose fields the source updates are classes:

- The message buffer (`NetMessage`), each encryptor, the communicator
  (`Communicator`) and the provider (`CommunicatorProvider`).
- Each of their methods states the new value of every field it changes, in
  terms of pure specification functions. The one exception is the approval
  message after the hail (`HailReceived`, `ReadHail`, `UnlockHail`): its
  bytes, bit length and read position are not stated, because nothing
  reads it afterwards. The specification functions are:
  - `Route` for `FilterMessage`;
  - `Reconcile` for `RunTasks`;
  - `Drain` for the authentication-result loop;
  - `Credentials` for the hail;
  - `Selected` for `DoForUsers`;
  - `Pace` for the pacing.
- The properties are lemmas about those functions.

The provider holds its communicator and its encryptor. `Provider.OnConnectionStatusChanged`
runs the base class's status switch around the override of
`OnDisconnected_Internal`.

Outside effects are recorded as traces:
- frames handed to the transport;
- `Approve`/`Deny`/`Start`/`Shutdown` calls;
- calls of the overridable hooks;
- log-event deliveries;
- authenticator calls;
- delays.

Code the core calls but does not contain becomes parameters:
- the serializer and the cipher are values of function type, and the
  round-trip lemmas require their inverse laws;
- reflection's method lists;
- handler invocation results;
- task states;
- the authenticator's key lookup;
- `Approve()` results;
- the stopwatch.

Behaviour of the code that the model keeps as written:
- A reply frame whose token has no pending slot throws (`ReplyForUnknownTokenThrows`).
- Reply frames bypass the encryptor on both sides (`ReplyOutbound`).
- The `Call` overloads that take a Task-returning delegate drop their
  `connection` argument. On a server every such call therefore fails in the
  encryptor (`CallTask`).
- Decoding indexes the envelope's arguments by parameter position.
  Decoding therefore succeeds only when every connection parameter comes last
  (`CallRoundTrip`, `MisalignedConnectionFails`).
- When the key lookup for a hail fails, the connection is refused with
  `Unknown`, and the exception is logged.

The kind bytes (Call 0, CallAsync 1, CallAsyncReturn 2) follow the
declaration order of the source's `CommunicationType` enumeration, which this
model does not include.

## Model

| member | source | states |
|---|---|---|
| ConverterBase.CreateSendCallMessage | Lidgren.Network.ContractCommunication/ConverterBase.cs:15-25 | Succeeds exactly when every non-connection parameter has an argument; otherwise `IndexOutOfRange`. The envelope carries the key and, in parameter order, one serialized argument per non-connection parameter |
| ConverterBase.CreateSendCallMessageSingle | Lidgren.Network.ContractCommunication/ConverterBase.cs:27-30 | The envelope has the default key 0 and a single argument. Under a lawful converter that argument deserializes back to the object |
| ConverterBase.HandleRecieveMessage | Lidgren.Network.ContractCommunication/ConverterBase.cs:32-49 | One slot per handler parameter. Connection slots hold the sender; data slots hold `Args[i]` deserialized by parameter position. A data slot whose position lies past the envelope's arguments fails with `IndexOutOfRange` |
| ConverterBase.CallRoundTrip | Lidgren.Network.ContractCommunication/ConverterBase.cs:15-49 | With trailing connection parameters, decoding an encoded call returns the caller's arguments, with every connection slot bound to the sender |
| ConverterBase.MisalignedConnectionFails | Lidgren.Network.ContractCommunication/ConverterBase.cs:32-49 | A connection parameter placed before a data parameter makes decoding of a round-tripped call fail with `IndexOutOfRange` |
| TripleDes.Unwrap | Lidgren.Network/Encryption/NetTokenizedTripleDesEncryption.cs:67-89 | The decrypted bytes are exactly as many as the frame's bit-length header needs. A short header, a header of 2^31 or more, and a cipher failure are the three errors |
| TripleDes.FrameRoundTrip | Lidgren.Network/Encryption/NetTokenizedTripleDesEncryption.cs:43-89 | Under the cipher's inverse law, unwrapping an encrypted frame from its start gives back the original bytes and bit length |
| TripleDes.HailRoundTrip | Lidgren.Network/Encryption/NetTokenizedTripleDesEncryption.cs:109-131 | A hail reads back its token in plaintext. Unwrapping from the position after the token gives back the credentials' bytes |
| TripleDes.ServerEncryptor.ImportKeyForConnection | Lidgren.Network/Encryption/NetTokenizedTripleDesEncryption.cs:29-42 | A new provider replaces any earlier one for the connection, and every other connection keeps its own. The setters then install the key and IV; a wrong key size throws `Cryptographic` and leaves the provider's random key, a wrong IV size leaves its random IV |
| TripleDes.ServerEncryptor.Encrypt | Lidgren.Network/Encryption/NetTokenizedTripleDesEncryption.cs:43-65 | A null receiver throws. An unkeyed receiver's message is left as is. A keyed receiver's message becomes the 32-bit bit length followed by the ciphertext under that receiver's key |
| TripleDes.ServerEncryptor.Decrypt | Lidgren.Network/Encryption/NetTokenizedTripleDesEncryption.cs:67-89 | A null sender throws, and an unkeyed sender's message is untouched. A keyed sender's message becomes the unwrapped bytes with their bit length, read from the start. Each failure of the unwrap is reported, with the bytes unchanged |
| TripleDes.ClientEncryptor.ImportRemoteTripleDes | Lidgren.Network/Encryption/NetTokenizedTripleDesEncryption.cs:102-107 | A new provider becomes the client's only one. The received key and IV are installed, or the setters throw `Cryptographic` for a wrong size and leave the random values |
| TripleDes.ClientEncryptor.EncryptHail | Lidgren.Network/Encryption/NetTokenizedTripleDesEncryption.cs:109-131 | Without a key it throws. With one, the message becomes the plaintext token followed by the encrypted frame of its previous contents |
| TripleDes.ClientEncryptor.Encrypt | Lidgren.Network/Encryption/NetTokenizedTripleDesEncryption.cs:133-152 | Without a key it throws. With one, the message becomes the frame of its previous contents |
| TripleDes.ClientEncryptor.Decrypt | Lidgren.Network/Encryption/NetTokenizedTripleDesEncryption.cs:154-172 | The header is read first: too short a message gives `ReadPastEnd`. Without a key it then throws `NullReference`, with the header consumed. With a key, the message becomes the frame unwrapped from byte 4 |
| Dispatch.AddressTable | Lidgren.Network.ContractCommunication/CommunicatorBase.cs:61-72 | The name-to-address table when names are distinct; a repeated name fails with `DuplicateKey` |
| Dispatch.AddressMap | Lidgren.Network.ContractCommunication/CommunicatorBase.cs:61-72 | The address table of the contract's methods: at most one entry per method, and the last method always has one; `AddressMapKeys`, `AddressesConsecutive` and `AddressesInjective` state which names and addresses |
| Dispatch.AddressMapKeys | Lidgren.Network.ContractCommunication/CommunicatorBase.cs:61-72 | A name is in the table exactly when some method of the contract has it |
| Dispatch.AddressesConsecutive | Lidgren.Network.ContractCommunication/CommunicatorBase.cs:61-72 | The method at position k is given address k mod 2^16 |
| Dispatch.AddressMapSize | Lidgren.Network.ContractCommunication/CommunicatorBase.cs:61-72 | With distinct names the table has one entry per method |
| Dispatch.AddressesInjective | Lidgren.Network.ContractCommunication/CommunicatorBase.cs:61-72 | Up to 2^16 methods with distinct names get distinct addresses |
| Dispatch.BuildFilters | Lidgren.Network.ContractCommunication/CommunicatorBase.cs:73-90 | Visiting the methods in any order yields the address-to-filter table of the contract. When two methods share an address the result is `DuplicateKey` |
| Dispatch.FilterKeyedByAddress | Lidgren.Network.ContractCommunication/CommunicatorBase.cs:73-90 | The filter stored under method k's address is that method with its parameter types |
| Dispatch.FilterKeysAreAddresses | Lidgren.Network.ContractCommunication/CommunicatorBase.cs:73-90 | The filter table has no keys besides the contract's addresses |
| Dispatch.FiltersComplete | Lidgren.Network.ContractCommunication/CommunicatorBase.cs:73-90 | With at most 2^16 methods, every method has a filter once the loop ends |
| Dispatch.WrapCollides | Lidgren.Network.ContractCommunication/CommunicatorBase.cs:61-90 | Beyond 2^16 methods, positions 0 and 2^16 share address 0 |
| Dispatch.Communicator.GetAddresses | Lidgren.Network.ContractCommunication/CommunicatorBase.cs:61-72 | Returns the address table and logs its size once; a repeated name throws before anything is logged |
| Dispatch.Communicator.MapContract | Lidgren.Network.ContractCommunication/CommunicatorBase.cs:73-90 | No derived contract interface gives `InvalidOperation`. If the addresses collide the result is `DuplicateKey`. Otherwise the result is the filter table of the derived interface; the logging is that of its `GetAddresses` |
| Dispatch.Communicator.Initialize | Lidgren.Network.ContractCommunication/CommunicatorBase.cs:47-60 | A non-interface type throws before any change. Then the receive filters, send filters and send addresses are set in the source's order, each step only if the earlier ones succeeded. The log holds one entry per `GetAddresses` that got as far as logging |
| Dispatch.Communicator.Log | Lidgren.Network.ContractCommunication/CommunicatorBase.cs:318-322 | The entry is appended to the log. Each attached handler receives it once per attachment |
| Dispatch.FanoutReceived | Lidgren.Network.ContractCommunication/CommunicatorBase.cs:318-322 | Logging one entry delivers it to each subscriber as many times as that subscriber is attached |
| Dispatch.Communicator.Subscribe | Lidgren.Network.ContractCommunication/CommunicatorBase.cs:32-41 | A new handler is attached and receives the whole log so far, oldest first. No other handler receives anything |
| Dispatch.ReplayReceived | Lidgren.Network.ContractCommunication/CommunicatorBase.cs:34-41 | The replay delivers exactly the log to the new subscriber and nothing to anyone else |
| Dispatch.Communicator.Unsubscribe | Lidgren.Network.ContractCommunication/CommunicatorBase.cs:42 | Removes the handler's last attachment, as `-=` on a multicast delegate does |
| Dispatch.RemoveLast | Lidgren.Network.ContractCommunication/CommunicatorBase.cs:42 | Removing a handler that is attached drops exactly one occurrence of it; removing one that is not attached changes nothing |
| Dispatch.Communicator.OutgoingCall | Lidgren.Network.ContractCommunication/CommunicatorBase.cs:153-162 | An unknown method name fails with `KeyNotFound`, and an argument array that is too short with `IndexOutOfRange`. Otherwise the frame is the kind byte, the method's address and the serialized envelope |
| Dispatch.Communicator.CreateMessage | Lidgren.Network.ContractCommunication/CommunicatorBase.cs:153-162 | A fresh byte-aligned message holding exactly that frame, or that frame's error |
| Dispatch.WriteCallFrame | Lidgren.Network.ContractCommunication/CommunicatorBase.cs:157-160 | A fresh message whose bytes are exactly the kind byte, the address and the string-prefixed envelope, byte-aligned and unread |
| Dispatch.Transmission | Lidgren.Network.ContractCommunication/CommunicatorBase.cs:138-152 | The frame is sent only if the peer can reach the recipient and the encryptor succeeds. A server needs a recipient, and an unkeyed one is sent the plaintext; a client sends only to its server |
| Dispatch.Seal | Lidgren.Network.ContractCommunication/CommunicatorBase.cs:141-150 | What the encryptor makes of an outgoing message: a server throws `ArgumentNull` for a null recipient and passes an unkeyed one's frame through as plaintext; a client without a key throws `NullReference`; any other result is a frame whose header is the original bit length |
| Dispatch.SealMessage | Lidgren.Network.ContractCommunication/CommunicatorBase.cs:138-152 | Encrypting a message through the peer's encryptor gives what `Seal` describes |
| Dispatch.ServerNeedsRecipient | Lidgren.Network/Encryption/NetTokenizedTripleDesEncryption.cs:43-65 | A server's encryptor throws for a null recipient |
| Dispatch.ServerFrameRoundTrip | Lidgren.Network/Encryption/NetTokenizedTripleDesEncryption.cs:43-89 | A frame a server sealed for a keyed connection unwraps with that connection's key to the original bytes |
| Dispatch.Communicator.CreateAndCall | Lidgren.Network.ContractCommunication/CommunicatorBase.cs:138-152 | The call frame is built and sealed; the outcome and the new transport entries are those of `Transmission` |
| Dispatch.Communicator.CallAction | Lidgren.Network.ContractCommunication/CommunicatorBase.cs:91-113 | The `Action` overloads send the call frame to the connection given |
| Dispatch.Communicator.CallTask | Lidgren.Network.ContractCommunication/CommunicatorBase.cs:115-124 | The Task-returning overloads send with no recipient, so on a server they always fail and send nothing |
| Dispatch.Communicator.CreateAndCallAsync | Lidgren.Network.ContractCommunication/CommunicatorBase.cs:164-181 | Sends the CallAsync frame, which is the call frame followed by the correlation token |
| Dispatch.Communicator.CreateAsyncMessage | Lidgren.Network.ContractCommunication/CommunicatorBase.cs:167-169 | A fresh byte-aligned message holding the CallAsync frame followed by the token string, or that frame's error |
| Dispatch.AsyncCallBetweenPeers | Lidgren.Network.ContractCommunication/CommunicatorBase.cs:164-181 | A CallAsync frame built from the caller's send addresses reaches the same-named handler on a peer whose receive filters come from the same contract. The handler gets the caller's arguments, and its task is registered with the token and the sender |
| Dispatch.OpenSlot | Lidgren.Network.ContractCommunication/CommunicatorBase.cs:185 | A new token gets an empty slot with its return type; a token already pending fails with `DuplicateKey` |
| Dispatch.Communicator.OpenAwaitingCall | Lidgren.Network.ContractCommunication/CommunicatorBase.cs:185 | The slot map becomes the one `OpenSlot` gives, or stays as it was on failure |
| Dispatch.Poll | Lidgren.Network.ContractCommunication/CommunicatorBase.cs:186-199 | The time-out is checked first; it removes the slot and throws. A missing slot throws `KeyNotFound`. A filled slot returns its data and is removed; an empty one keeps waiting |
| Dispatch.Communicator.AwaitStep | Lidgren.Network.ContractCommunication/CommunicatorBase.cs:186-199 | One iteration of the waiting loop, as `Poll` describes |
| Dispatch.ReplyOutbound | Lidgren.Network.ContractCommunication/CommunicatorBase.cs:203-217 | The reply frame is the kind byte 2, the identifier, and the result serialized under its runtime type. It is sent unencrypted: a server sends it to the connection, a client to its server. A null result throws |
| Dispatch.Communicator.SendAwaitedReturnMessage | Lidgren.Network.ContractCommunication/CommunicatorBase.cs:203-217 | Adds exactly the reply `ReplyOutbound` describes to the sent frames, or nothing on failure |
| Dispatch.AfterCall | Lidgren.Network.ContractCommunication/CommunicatorBase.cs:233-249 | A handler declared to return `Task` has its task (or null) registered without type or token. Any other result of such a handler is a cast failure. A handler exception is logged |
| Dispatch.AfterCallAsync | Lidgren.Network.ContractCommunication/CommunicatorBase.cs:250-260 | The handler's task is registered with the method's return type, the token and the sender; a handler exception is logged |
| Dispatch.Route | Lidgren.Network.ContractCommunication/CommunicatorBase.cs:218-268 | `FilterMessage` on one frame. The awaiting slots keep their keys and return types, and only a reply changes them. At most one task is registered, and only by a call. A failure registers and logs nothing. An unknown kind throws with nothing changed |
| Dispatch.RouteReply | Lidgren.Network.ContractCommunication/CommunicatorBase.cs:221-226 | A reply frame keeps every awaiting slot's key and return type, and registers and logs nothing |
| Dispatch.RouteCall | Lidgren.Network.ContractCommunication/CommunicatorBase.cs:228-267 | A call frame leaves the awaiting slots as they were. At most one task is registered, and only for a Call or CallAsync kind. A failure registers and logs nothing, and a kind past CallAsyncReturn always fails |
| Dispatch.RouteInvoke | Lidgren.Network.ContractCommunication/CommunicatorBase.cs:231-267 | The handler's invocation changes no awaiting slot. At most one task is registered, and only for a Call or CallAsync kind. A failure registers and logs nothing, and a kind past CallAsyncReturn always fails |
| Dispatch.Communicator.FilterMessage | Lidgren.Network.ContractCommunication/CommunicatorBase.cs:218-268 | The new slots, running tasks, log, read position and outcome are exactly those `Route` gives for the message's readable bytes |
| Dispatch.Communicator.FilterReply | Lidgren.Network.ContractCommunication/CommunicatorBase.cs:221-226 | The slots, read position and outcome after the kind byte of a reply are exactly those `RouteReply` gives |
| Dispatch.Communicator.FilterCall | Lidgren.Network.ContractCommunication/CommunicatorBase.cs:228-267 | The running tasks, log, read position and outcome after the kind byte of a call are exactly those `RouteCall` gives |
| Dispatch.Communicator.InvokeHandler | Lidgren.Network.ContractCommunication/CommunicatorBase.cs:231-267 | The running tasks, log, read position and outcome of the handler's invocation are exactly those `RouteInvoke` gives |
| Dispatch.ReplyFillsSlot | Lidgren.Network.ContractCommunication/CommunicatorBase.cs:221-230 | A reply for a pending token fills that slot with the result and changes nothing else |
| Dispatch.ReplyForUnknownTokenThrows | Lidgren.Network.ContractCommunication/CommunicatorBase.cs:222-226 | A reply whose token has no slot throws `KeyNotFound` and changes nothing |
| Dispatch.ReplyCompletesAwait | Lidgren.Network.ContractCommunication/CommunicatorBase.cs:194-198 | Once the reply is routed, the waiting side's next poll returns that result and removes the slot |
| Dispatch.CallReachesHandler | Lidgren.Network.ContractCommunication/CommunicatorBase.cs:233-249 | A Call frame built with a contract's address table and routed with that contract's filter table invokes the method of the same name. The arguments are the caller's, with connection slots bound to the sender |
| Dispatch.AsyncCallReachesHandler | Lidgren.Network.ContractCommunication/CommunicatorBase.cs:250-260 | The same holds for a CallAsync frame, and its token reaches the registered task |
| Dispatch.Communicator.AddRunningTask | Lidgren.Network.ContractCommunication/CommunicatorBase.cs:323-326 | Appends exactly the given job to the running tasks |
| Dispatch.Step | Lidgren.Network.ContractCommunication/CommunicatorBase.cs:276-316 | A pending task is kept. A completed plain task is dropped; a completed CallAsync task sends its reply and is dropped. A canceled or faulted task is dropped with its exception collected. A null task aborts the sweep |
| Dispatch.Communicator.VisitTask | Lidgren.Network.ContractCommunication/CommunicatorBase.cs:276-316 | The state change at one index of the task list is the one `Step` describes |
| Dispatch.Reconcile | Lidgren.Network.ContractCommunication/CommunicatorBase.cs:270-317 | The sweep from the last job to the first, stopping at the first abort. The kept jobs are never more than the jobs there were |
| Dispatch.Communicator.RunTasks | Lidgren.Network.ContractCommunication/CommunicatorBase.cs:270-317 | The remaining tasks, the sent replies, the collected exceptions and the outcome are those `Reconcile` gives |
| Dispatch.ReconcileFailsIff | Lidgren.Network.ContractCommunication/CommunicatorBase.cs:270-317 | The sweep fails if and only if some job's step aborts |
| Dispatch.ReconcileKeepsPending | Lidgren.Network.ContractCommunication/CommunicatorBase.cs:276-287 | A sweep that completes keeps exactly the pending jobs, in their order |
| Dispatch.ReconcileBounded | Lidgren.Network.ContractCommunication/CommunicatorBase.cs:270-317 | Each job is kept, or contributes at most one reply and at most one collected exception |
| Dispatch.Communicator.BeginStatusChange | Lidgren.Network.ContractCommunication/CommunicatorBase.cs:340-341 | Records the status and raises the status event |
| Dispatch.Communicator.FinishStatusChange | Lidgren.Network.ContractCommunication/CommunicatorBase.cs:342-366 | `Connected` and `Disconnected` call their hooks. A value outside the enumeration throws before logging; every other status is logged |
| Dispatch.Communicator.OnConnectionStatusChanged | Lidgren.Network.ContractCommunication/CommunicatorBase.cs:338-367 | The status is recorded and the event raised first. The call succeeds exactly for enumerated statuses, and only then are the hook called, the status logged and the entry delivered to every subscriber |
| Provider.DenialReason | Lidgren.Network.ContractCommunication/CommunicatorProviderBase.cs:132-148 | A verdict outside the enumeration throws `ArgumentOutOfRange`. Every other verdict is mapped to a refusal reason that is neither `Connected` nor `AwaitingApproval` |
| Provider.DenialReasonInjective | Lidgren.Network.ContractCommunication/CommunicatorProviderBase.cs:132-148 | Distinct verdicts are refused with distinct reasons |
| Provider.Verdict | Lidgren.Network.ContractCommunication/CommunicatorProviderBase.cs:118-155 | Each queued result yields one transport call for its own connection: `Approve` exactly for a success, otherwise a `Deny` whose reason is never `Connected` |
| Provider.Admit | Lidgren.Network.ContractCommunication/CommunicatorProviderBase.cs:114-161 | One hook call answers the entry. The approval hook is called exactly when the result succeeded and `Approve()` returned true, and the record is then kept; otherwise the record is removed. Exactly one transport call is made, and only the out-of-range verdict is logged |
| Provider.Drain | Lidgren.Network.ContractCommunication/CommunicatorProviderBase.cs:112-163 | The drain loop, front first, each entry removed whatever its outcome; one transport call per queued entry. `DrainAnswersInOrder`, `DrainTransportInOrder`, `DrainShrinksUsers` and `DrainRemovesDenied` state its order and effects |
| Provider.DrainAnswersInOrder | Lidgren.Network.ContractCommunication/CommunicatorProviderBase.cs:112-163 | Each queued result is answered by exactly one hook call, in queue order, and earlier hook calls are kept |
| Provider.DrainTransportInOrder | Lidgren.Network.ContractCommunication/CommunicatorProviderBase.cs:112-163 | Each queued result produces its `Verdict` on the transport, in queue order |
| Provider.DrainShrinksUsers | Lidgren.Network.ContractCommunication/CommunicatorProviderBase.cs:112-163 | The drain never adds or changes a user record; it only removes records |
| Provider.DrainRemovesDenied | Lidgren.Network.ContractCommunication/CommunicatorProviderBase.cs:124-157 | After the drain, no connection whose result was refused or not approved has a record |
| Provider.CommunicatorProvider.DrainAuthenticationResults | Lidgren.Network.ContractCommunication/CommunicatorProviderBase.cs:112-163 | Empties the queue. Users, transport, hook calls and log are exactly those `Drain` gives |
| Provider.CommunicatorProvider.AdmitHead | Lidgren.Network.ContractCommunication/CommunicatorProviderBase.cs:114-157 | One loop pass changes the provider exactly as `Admit` describes |
| Provider.CommunicatorProvider.OnAuthenticationDenied | Lidgren.Network.ContractCommunication/CommunicatorProviderBase.cs:262-268 | The result's connection loses its record if it had one, and the denial is reported |
| Provider.LoginRoundTrip | Lidgren.Network.ContractCommunication/CommunicatorProviderBase.cs:212-213 | The two strings written one after the other read back as the user name and the password |
| Provider.HailCarriesCredentials | Lidgren.Network.ContractCommunication/CommunicatorProviderBase.cs:205-213 | A hail the client encryptor built, under a key of valid size that the authenticator returns for its token, installs that key and yields the original user name and password |
| Provider.CommunicatorProvider.ReadLogin | Lidgren.Network.ContractCommunication/CommunicatorProviderBase.cs:212-213 | Reads the user name and password from the start of the decrypted message, as `Login` describes |
| Provider.CommunicatorProvider.ReadHail | Lidgren.Network.ContractCommunication/CommunicatorProviderBase.cs:205-213 | The reads of the hail give exactly `Credentials`, including the `Cryptographic` failure of a fetched key or IV of the wrong size. The new provider is installed for the sender before decryption, and it stays installed even when a later step fails |
| Provider.Credentials | Lidgren.Network.ContractCommunication/CommunicatorProviderBase.cs:204-213 | The outcome of the hail's reads: an unreadable token gives `ReadPastEnd`; success needs the token read, its key fetched, and key and IV of valid sizes. `HailCarriesCredentials` states the round trip |
| Provider.CommunicatorProvider.UnlockHail | Lidgren.Network.ContractCommunication/CommunicatorProviderBase.cs:210-213 | Under the key installed for the sender, decrypting the message and reading the two strings give `Unlocked`: a decryption failure, or the user name and password read from the start of the plaintext |
| Provider.CommunicatorProvider.HailReceived | Lidgren.Network.ContractCommunication/CommunicatorProviderBase.cs:199-251 | Any failure while reading the hail is logged, delivered to the log subscribers and refused with `Unknown`. A name already in use queues an `UserAlreadyLoggedIn` result. An already-recorded connection throws `DuplicateKey`. Otherwise a pending record is created under the lower-cased name, the authenticator is called and its task is registered; none of these paths logs |
| Provider.CommunicatorProvider.Enrol | Lidgren.Network.ContractCommunication/CommunicatorProviderBase.cs:222-251 | A name already in use queues an `UserAlreadyLoggedIn` result and changes nothing else. An already-recorded connection throws `DuplicateKey`. Otherwise a pending record is created under the name, the authenticator is called with the name and password, and its task is registered |
| Provider.CommunicatorProvider.AuthenticationCompleted | Lidgren.Network.ContractCommunication/CommunicatorProviderBase.cs:229-248 | The extras hook sees the result, stamped with the connection. A success with a user id fills the record's data and login time, and throws `KeyNotFound` if the record is gone. The result is queued for the next tick |
| Provider.CommunicatorProvider.AuthorizedForMessage | Lidgren.Network.ContractCommunication/CommunicatorProviderBase.cs:195-198 | True exactly when the connection has a record, pending or logged in; a null connection throws |
| Provider.CommunicatorProvider.HandleData | Lidgren.Network.ContractCommunication/CommunicatorProviderBase.cs:86-92 | Data from a connection without a record is ignored, with nothing changed. Otherwise the message is decrypted; a failure propagates with nothing logged and the message as `Decrypt` leaves it. The payload is then routed exactly as `Route` describes, over the decrypted bytes for a keyed sender, or over the original bytes for an unkeyed one, and the logged exception reaches every subscriber |
| Provider.CommunicatorProvider.OnDisconnectedInternal | Lidgren.Network.ContractCommunication/CommunicatorProviderBase.cs:180-185 | The disconnected user is reported, then its record and its connection key are removed. A missing record or a null connection throws, with nothing changed |
| Provider.CommunicatorProvider.OnConnectionStatusChanged | Lidgren.Network.ContractCommunication/CommunicatorBase.cs:338-367 | The base switch with the provider's clean-up. After `Disconnected` of a connection with a record, the user is reported as disconnected and the record and key are gone. Otherwise users, keys and user events are unchanged. Hooks, log and deliveries follow only on success |
| Provider.SelectedExactly | Lidgren.Network.ContractCommunication/CommunicatorProviderBase.cs:269-281 | The action is applied to a user exactly when it is logged in (its data is set) and its data satisfies the predicate |
| Provider.CommunicatorProvider.DoForUsers | Lidgren.Network.ContractCommunication/CommunicatorProviderBase.cs:269-281 | The action calls, in enumeration order, are exactly those `Selected` gives. Pending users are skipped |
| Provider.Selected | Lidgren.Network.ContractCommunication/CommunicatorProviderBase.cs:269-281 | The action calls `DoForUsers` makes, at most one per enumerated user; `SelectedExactly` states which |
| Provider.Quotient | Lidgren.Network.ContractCommunication/CommunicatorProviderBase.cs:166 | C# integer division truncates toward zero, so the quotient takes the sign of the operands' product |
| Provider.QuotientMagnitude | Lidgren.Network.ContractCommunication/CommunicatorProviderBase.cs:166 | The quotient's magnitude is the largest whose multiple of the divisor does not exceed the dividend |
| Provider.Pace | Lidgren.Network.ContractCommunication/CommunicatorProviderBase.cs:165-176 | A zero rate throws `DivideByZero`. The tick waits, and for exactly the remaining interval, if and only if elapsed time is below the interval; otherwise it reports the elapsed time and the interval. A negative rate always overruns, and a rate above 1000 overruns with a zero interval |
| Provider.CommunicatorProvider.Tick | Lidgren.Network.ContractCommunication/CommunicatorProviderBase.cs:112-177 | The queue is drained as `Drain` describes, and the tasks are swept as `Reconcile` describes. A failed sweep skips the pacing. Otherwise the tick delays or logs as `Throttle` states. Every entry logged is delivered to the subscribers, in order |
| Provider.CommunicatorProvider.Throttle | Lidgren.Network.ContractCommunication/CommunicatorProviderBase.cs:165-176 | The pacing of a tick as `Pace` gives it: a zero rate throws, a delay is recorded, or an overrun is logged and delivered to every subscriber |
| Provider.CommunicatorProvider.StartService | Lidgren.Network.ContractCommunication/CommunicatorProviderBase.cs:48-53 | Running, the transport started, the port logged and delivered to every subscriber |
| Provider.CommunicatorProvider.StopService | Lidgren.Network.ContractCommunication/CommunicatorProviderBase.cs:54-58 | The transport is shut down with the message, and the provider is no longer running |

## Left out

- Reflection is not modelled: method lists, parameter types, `Invoke` and `GetType()` are parameters or abstract values.
- Time, the stopwatch, `Task.Run` scheduling and the awaiting task's thread are left out. The awaiting loop is modelled one iteration at a time (`AwaitStep`), and elapsed times are inputs.
- Concurrency between the tick, the awaiting tasks and the authenticator continuation is not modelled: each step runs without interleaving.
- The receive loop of `Tick` is not modelled as a loop, nor its switch over message kinds, `Recycle`, or the log of unhandled types. Each handled case is its own method: `HandleData`, `HailReceived` and `OnConnectionStatusChanged`.
- The byte decoding of `StatusChanged` messages is left out, because `NetConnectionStatus`'s numeric values are not part of this model; the decoded status is the input.
- `ToLower` is ASCII-only; the culture-sensitive mapping of other characters is not modelled.
- The ordering of `OrderByDescending` is given as a permutation of the methods, not computed from culture-sensitive string comparison.
- Lidgren's `NetBuffer` is not part of this model. Reads and writes are whole bytes; buffer capacity and bit-level packing beyond the byte-aligned frames used here are not modelled.
- A read past the end of a message fails in the model; in the source it is only checked by a debug-only assertion.
- The variable-length integer is not limited to five bytes.
- `Unwrap`: the `int` conversion of a header of 2^31 or more is modelled as a failure, not as a negative length. The 32-bit wrap of `LengthBits` on huge messages is not modelled.
- `Pace`: the `int` cast of the stopwatch reading and the 32-bit wrap of `interval - elapsedTime` are not modelled; elapsed time is an unbounded integer.
- The twenty `Call` overloads and the `CallAsync` overloads are each modelled once per shape: `CallAction`, `CallTask` and `CreateAndCallAsync`.
- The `(TReturn)` cast of an awaited result is left out; the value is returned as it arrived.
- A deserialized reply of null is not modelled: that slot keeps waiting, like an empty slot.
- A faulted or canceled authenticator task is not modelled: `AuthenticationCompleted` takes the authenticator's result as an input.
- The provider constructor's network configuration and its `Initialize` call are left out. The model's constructor builds the server communicator, and `Communicator.Initialize` is modelled on its own.
- `CloseConnection`, the base `Tick(int)` (which does nothing), `GetUser`/`GetStorage` and the client communicator (`CommunicatorClientBase`) are not part of this model.
- ImportKeyForConnection: only the key and IV sizes are checked; the `Key` setter's refusal of weak TripleDES keys is not modelled. The same holds for `ImportRemoteTripleDes`.
- `HailReceived` assumes the approval message has a sender, as Lidgren always sets one for `ConnectionApproval` messages.
