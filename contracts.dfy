/** Declaration-only types of the RPC layer: contract method descriptors,
    values crossing the wire, the pluggable converter, the authenticator's
    result record, session records, connection results and the exceptions
    the core raises or catches. */
module Contracts {
  import opened Wire

  type TypeName = string
  type TaskId = nat

  /** A parameter's declared type; `NetConnection` parameters are never serialized. */
  datatype ParamType = ConnectionType | DataType(name: TypeName)

  /** A contract method's declared return type. */
  datatype ReturnKind = Void | TaskType | TaskOf(result: TypeName) | Plain(name: TypeName)

  /** One method of a contract interface, as reflection would report it. */
  datatype MethodDesc = MethodDesc(name: string, params: seq<ParamType>, returnKind: ReturnKind)

  /** A contract interface type handed to `Initialize`. */
  datatype ContractType = ContractType(name: string, isInterface: bool)

  /** An argument or result value; a connection slot holds the (possibly null) sender. */
  datatype Value = ConnValue(conn: Option<Connection>) | DataValue(runtimeType: TypeName, repr: int)

  /** Inbound handler descriptor: the method and its parameter types in order. */
  datatype MessageFilter = MessageFilter(handler: MethodDesc, types: seq<ParamType>)

  /** The argument envelope; `key` defaults to 0. */
  datatype CallMessage = CallMessage(key: ushort, args: seq<Bytes>)

  /** The pluggable serializer (ConverterBase's abstract members). */
  datatype Converter = Converter(
    serializeArgument: (Value, ParamType) -> Bytes,
    deserializeArgument: (Bytes, ParamType) -> Value,
    serializeCallMessage: CallMessage -> Bytes,
    deserializeCallMessage: Bytes -> CallMessage)

  /** The inverse laws a converter is assumed to satisfy. */
  ghost predicate Lawful(cv: Converter)
  {
    && (forall v, t :: cv.deserializeArgument(cv.serializeArgument(v, t), t) == v)
    && (forall m :: cv.deserializeCallMessage(cv.serializeCallMessage(m)) == m)
  }

  /** Exceptions the core raises, catches or records. `Foreign` stands for an
      exception thrown by code outside the core (a handler, a task, a service). */
  datatype Error =
    | KeyNotFound
    | DuplicateKey
    | IndexOutOfRange
    | NullReference
    | ArgumentNull
    | ArgumentOutOfRange
    | InvalidOperation
    | InvalidCast
    | ReadPastEnd
    | Cryptographic
    | Overflow
    | DivideByZero
    | NotAnInterface
    | CommunicationTimeOut(methodName: string, elapsed: real)
    | Foreign(id: nat)

  datatype Result<T> = Ok(value: T) | Err(error: Error)

  /** Completion of an operation that returns nothing: it either returns or throws. */
  datatype Outcome = Pass | Fail(error: Error)

  /** Lidgren's connection result codes (NetConnectionResult.cs). */
  datatype NetConnectionResult =
    | Unknown | NoResponseFromRemoteHost | Connected | WrongCredentials
    | WrongApplicationIdentifier | HandshakeDataValidationFailed | Reconnecting
    | RequestedDisconnect | ConnectionTimeOut | ShutDown | AwaitingApproval
    | LocallyRequestedConnect | RespondedConnect | UserAlreadyLoggedIn

  /** Connection status codes (`NoStatus` is Lidgren's `None`); `Undefined` is any byte outside the enumeration. */
  datatype NetConnectionStatus =
    | NoStatus | InitiatedConnect | ReceivedInitiation | RespondedAwaitingApproval
    | RespondedConnect | Connected | Disconnecting | Disconnected
    | Undefined(code: int)

  /** The authenticator's verdict (IAuthenticator.cs); `OtherState` is a value outside the enumeration. */
  datatype RequestState = EndpointFailure | Success | UserAlreadyLoggedIn | WrongCredentials | OtherState(code: int)

  datatype AuthenticationResult = AuthenticationResult(
    userId: Bytes, success: bool, roles: seq<Bytes>, requestState: RequestState, connection: Connection)

  /** Key material returned for a hail token. */
  datatype TripleDesInformation = TripleDesInformation(key: Bytes, iv: Bytes)

  /** Opaque application user payload. */
  type UserData = nat

  /** A session record; `userData == None` means the login is still pending. */
  datatype CommunicationUser = CommunicationUser(userName: Bytes, userData: Option<UserData>, loggedInTime: nat)
}
