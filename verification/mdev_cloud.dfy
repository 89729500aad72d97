/** The data-cloud session: an authorization flag set by the connection test,
    a local mirror of the client records, and the remote operations that
    keep the mirror in step with the service. The transport is abstracted:
    each operation receives the response the service would give to the
    request it sends, and uses it only when it sends that request. */
module MdevCloud {
  import opened CloudTypes
  import opened Mirror

  class MdevCloudClient {
    const config: Config
    var isConnectionAuthorized: bool
    var dataClients: seq<Client>
    /** Every request sent to the service so far, oldest first. */
    ghost var sent: seq<Request>

    constructor (config: Config)
      ensures this.config == config
      ensures !isConnectionAuthorized && dataClients == [] && sent == []
    {
      this.config := config;
      isConnectionAuthorized := false;
      dataClients := [];
      sent := [];
    }

    /** The authorization gate every remote operation passes first: an
        authorization error when the connection test has not authorized
        the session, nothing otherwise. */
    function AuthErrorVerificator(): (r: Option<Failure>)
      reads this
      ensures r.None? <==> isConnectionAuthorized
      ensures r.Some? ==> r.value == AuthError && r.value.Raised()
    {
      if isConnectionAuthorized then None else Some(AuthError)
    }

    /** Sends the connection test. A response that is not ok is raised as a
        connection error before the flag is touched; otherwise the flag
        becomes the reported `wasConnected` and the report is returned. */
    method OnTestConnection(resp: Response<TestConnection>) returns (r: Outcome<TestConnection>)
      modifies this`isConnectionAuthorized, this`sent
      ensures sent == old(sent) + [GetConnection]
      ensures dataClients == old(dataClients)
      ensures !resp.IsOk() ==>
                r == Err(ConnectionError(resp.status, resp.statusText))
                && isConnectionAuthorized == old(isConnectionAuthorized)
      ensures resp.IsOk() ==> r == Ok(resp.json) && isConnectionAuthorized == resp.json.wasConnected
    {
      sent := sent + [GetConnection];
      if !resp.IsOk() {
        return Err(ConnectionError(resp.status, resp.statusText));
      }
      isConnectionAuthorized := resp.json.wasConnected;
      r := Ok(resp.json);
    }

    /** Runs the connection test and, when it reports `wasConnected`, loads
        the whole mirror from the service. */
    method Init(testResp: Response<TestConnection>, listResp: Response<seq<Client>>)
      returns (r: Outcome<()>)
      modifies this`isConnectionAuthorized, this`dataClients, this`sent
      ensures !testResp.IsOk() ==>
                r == Err(ConnectionError(testResp.status, testResp.statusText))
                && isConnectionAuthorized == old(isConnectionAuthorized)
                && dataClients == old(dataClients)
                && sent == old(sent) + [GetConnection]
      ensures testResp.IsOk() && !testResp.json.wasConnected ==>
                r == Ok(()) && !isConnectionAuthorized
                && dataClients == old(dataClients)
                && sent == old(sent) + [GetConnection]
      ensures testResp.IsOk() && testResp.json.wasConnected ==>
                isConnectionAuthorized
                && sent == old(sent) + [GetConnection, GetClients]
                && (listResp.IsOk() ==> r == Ok(()) && dataClients == listResp.json)
                && (!listResp.IsOk() ==>
                      r == Err(FetchError(listResp.status, listResp.statusText))
                      && dataClients == old(dataClients))
    {
      var test := OnTestConnection(testResp);
      if test.Err? {
        return Err(test.failure);
      }
      if test.value.wasConnected {
        var all := OnGetAllClients(listResp);
        if all.Err? {
          return Err(all.failure);
        }
        dataClients := all.value;
      }
      r := Ok(());
    }

    /** A snapshot of the local mirror; no request is sent. */
    function GetAllClients(): (r: seq<Client>)
      reads this
      ensures r == dataClients
    {
      dataClients
    }

    /** The first mirrored record keyed `jid`, or null; no request is sent. */
    function GetClient(jid: string): (r: Option<Client>)
      reads this
      ensures r.Some? <==> Has(dataClients, jid)
      ensures r.Some? ==> exists k :: IsFirstMatch(dataClients, jid, k) && dataClients[k] == r.value
    {
      Find(dataClients, jid)
    }

    /** Fetches one record from the service. A response that is not ok
        gives null; the mirror is never touched. */
    method OnGetClient(jid: string, resp: Response<Client>) returns (r: Outcome<Client>)
      modifies this`sent
      ensures dataClients == old(dataClients)
      ensures !isConnectionAuthorized ==> r == Err(AuthError) && sent == old(sent)
      ensures isConnectionAuthorized ==>
                sent == old(sent) + [GetClientByJid(jid)]
                && r == (if resp.IsOk() then Ok(resp.json) else Err(SoftNull))
    {
      var gate := AuthErrorVerificator();
      if gate.Some? {
        return Err(gate.value);
      }
      sent := sent + [GetClientByJid(jid)];
      if !resp.IsOk() {
        return Err(SoftNull);
      }
      r := Ok(resp.json);
    }

    /** Fetches every record. On success the mirror becomes exactly the
        returned records, in order; a response that is not ok is raised as
        a fetch error and the mirror is kept. */
    method OnGetAllClients(resp: Response<seq<Client>>) returns (r: Outcome<seq<Client>>)
      modifies this`dataClients, this`sent
      ensures !isConnectionAuthorized ==>
                r == Err(AuthError) && dataClients == old(dataClients) && sent == old(sent)
      ensures isConnectionAuthorized ==> sent == old(sent) + [GetClients]
      ensures isConnectionAuthorized && resp.IsOk() ==>
                dataClients == resp.json && r == Ok(dataClients)
      ensures isConnectionAuthorized && !resp.IsOk() ==>
                r == Err(FetchError(resp.status, resp.statusText)) && dataClients == old(dataClients)
    {
      var gate := AuthErrorVerificator();
      if gate.Some? {
        return Err(gate.value);
      }
      sent := sent + [GetClients];
      if !resp.IsOk() {
        return Err(FetchError(resp.status, resp.statusText));
      }
      dataClients := resp.json;
      r := Ok(dataClients);
    }

    /** Creates a record on the service. On success the returned record is
        appended to the mirror; a response that is not ok gives null and
        the mirror is kept. */
    method OnCreateClient(jid: string, username: Option<string>, resp: Response<Client>)
      returns (r: Outcome<Client>)
      modifies this`dataClients, this`sent
      ensures !isConnectionAuthorized ==>
                r == Err(AuthError) && dataClients == old(dataClients) && sent == old(sent)
      ensures isConnectionAuthorized ==> sent == old(sent) + [PostClient(jid, username)]
      ensures isConnectionAuthorized && resp.IsOk() ==>
                r == Ok(resp.json) && dataClients == old(dataClients) + [resp.json]
      ensures isConnectionAuthorized && resp.IsOk() && !Has(old(dataClients), resp.json.jid) ==>
                GetClient(resp.json.jid) == Some(resp.json)
                && (Unique(old(dataClients)) ==> Unique(dataClients))
      ensures isConnectionAuthorized && resp.IsOk() && Has(old(dataClients), resp.json.jid) ==>
                GetClient(resp.json.jid) == Find(old(dataClients), resp.json.jid)
                && !Unique(dataClients)
      ensures isConnectionAuthorized && !resp.IsOk() ==>
                r == Err(SoftNull) && dataClients == old(dataClients)
    {
      var gate := AuthErrorVerificator();
      if gate.Some? {
        return Err(gate.value);
      }
      sent := sent + [PostClient(jid, username)];
      if !resp.IsOk() {
        return Err(SoftNull);
      }
      var client := resp.json;
      ghost var before := dataClients;
      dataClients := dataClients + [client];
      if Has(before, client.jid) {
        CreateDuplicateShadowed(before, client);
      } else {
        CreateThenFind(before, client);
      }
      r := Ok(client);
    }

    /** Updates a record on the service. On success the server's copy
        replaces the first mirrored record keyed `jid`, or is appended when
        there is none; a response that is not ok is raised as a fetch error
        and the mirror is kept. */
    method OnUpdateClient(jid: string, updates: ClientPatch, resp: Response<UpdateReply>)
      returns (r: Outcome<Client>)
      modifies this`dataClients, this`sent
      ensures !isConnectionAuthorized ==>
                r == Err(AuthError) && dataClients == old(dataClients) && sent == old(sent)
      ensures isConnectionAuthorized ==> sent == old(sent) + [PutClient(jid, updates)]
      ensures isConnectionAuthorized && resp.IsOk() ==>
                r == Ok(resp.json.client)
                && dataClients == Upsert(old(dataClients), jid, resp.json.client)
      ensures isConnectionAuthorized && resp.IsOk() && resp.json.client.jid == jid ==>
                GetClient(jid) == Some(resp.json.client)
                && (Unique(old(dataClients)) ==> Unique(dataClients) && Count(dataClients, jid) == 1)
      ensures isConnectionAuthorized && !resp.IsOk() ==>
                r == Err(FetchError(resp.status, resp.statusText)) && dataClients == old(dataClients)
    {
      var gate := AuthErrorVerificator();
      if gate.Some? {
        return Err(gate.value);
      }
      sent := sent + [PutClient(jid, updates)];
      if !resp.IsOk() {
        return Err(FetchError(resp.status, resp.statusText));
      }
      var updated := resp.json.client;
      ghost var before := dataClients;
      var idx := FindIndex(dataClients, jid);
      if idx >= 0 {
        dataClients := dataClients[idx := updated];
      } else {
        dataClients := dataClients + [updated];
      }
      assert dataClients == Upsert(before, jid, updated);
      if updated.jid == jid {
        UpsertThenFind(before, updated);
        if Unique(before) {
          UpsertKeepsUnique(before, updated);
        }
      }
      r := Ok(updated);
    }

    /** Deletes every record keyed `jid` on the service. On success the
        mirror keeps, in order, exactly the records with another key and
        `true` is returned; a response that is not ok is raised as a fetch
        error and the mirror is kept. */
    method OnDeleteClient(jid: string, resp: Response<()>) returns (r: Outcome<bool>)
      modifies this`dataClients, this`sent
      ensures !isConnectionAuthorized ==>
                r == Err(AuthError) && dataClients == old(dataClients) && sent == old(sent)
      ensures isConnectionAuthorized ==> sent == old(sent) + [DeleteClientByJid(jid)]
      ensures isConnectionAuthorized && resp.IsOk() ==>
                r == Ok(true) && dataClients == Without(old(dataClients), jid)
                && GetClient(jid) == None
                && (Unique(old(dataClients)) ==> Unique(dataClients))
      ensures isConnectionAuthorized && !resp.IsOk() ==>
                r == Err(FetchError(resp.status, resp.statusText)) && dataClients == old(dataClients)
    {
      var gate := AuthErrorVerificator();
      if gate.Some? {
        return Err(gate.value);
      }
      sent := sent + [DeleteClientByJid(jid)];
      if !resp.IsOk() {
        return Err(FetchError(resp.status, resp.statusText));
      }
      ghost var before := dataClients;
      dataClients := Without(dataClients, jid);
      if Unique(before) {
        WithoutKeepsUnique(before, jid);
      }
      r := Ok(true);
    }
  }
}
