/** Values exchanged between the data-cloud session and the remote service:
    the client record, the connection report, transport responses, the
    failures an operation can end in, and the requests it can issue. */
module CloudTypes {

  datatype Option<+T> = None | Some(value: T)

  /** The record's creation date; the model never looks inside it. */
  datatype Timestamp = Timestamp(millis: int)

  /** One client record of the data cloud. `jid` is the key the local mirror
      is searched and merged by; every other field is payload.
      `isWoner` and `isBaned` keep the record's own field names. */
  datatype Client = Client(
    id: int,
    createdAt: Timestamp,
    name: string,
    jid: string,
    isPremium: bool,
    isWoner: bool,
    isBaned: bool,
    level: Option<string>,
    xp: Option<int>,
    money: Option<int>)

  /** A partial record sent with an update: a field that is `None` is not
      being changed; `level`, `xp` and `money` may be changed to null. */
  datatype ClientPatch = ClientPatch(
    id: Option<int>,
    createdAt: Option<Timestamp>,
    name: Option<string>,
    jid: Option<string>,
    isPremium: Option<bool>,
    isWoner: Option<bool>,
    isBaned: Option<bool>,
    level: Option<Option<string>>,
    xp: Option<Option<int>>,
    money: Option<Option<int>>)

  /** Endpoint settings given at construction and never changed. */
  datatype Config = Config(host: string, dbKey: string)

  /** The body of a successful connection test. */
  datatype TestConnection = TestConnection(wasConnected: bool, message: string)

  /** The body of a successful update: the server's copy of the record. */
  datatype UpdateReply = UpdateReply(client: Client)

  /** What the transport hands back for one request: the HTTP status, its
      reason phrase and the decoded body. The body of a response that is not
      ok is never used by the session. */
  datatype Response<T> = Response(status: int, statusText: string, json: T) {
    /** The transport's `ok` flag: a status in the 2xx range. */
    predicate IsOk() {
      200 <= status < 300
    }
  }

  /** How an operation can fail. The first three are raised to the caller;
      `SoftNull` is the null that get-one and create return instead. */
  datatype Failure =
    | AuthError
    | ConnectionError(status: int, statusText: string)
    | FetchError(status: int, statusText: string)
    | SoftNull
  {
    predicate Raised() {
      !SoftNull?
    }
  }

  /** The result of one session operation. */
  datatype Outcome<+T> = Ok(value: T) | Err(failure: Failure)

  /** The requests the session can send to the remote service. */
  datatype Request =
    | GetConnection
    | GetClients
    | GetClientByJid(jid: string)
    | PostClient(jid: string, username: Option<string>)
    | PutClient(jid: string, updates: ClientPatch)
    | DeleteClientByJid(jid: string)
}
