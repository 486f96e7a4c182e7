/**
 * `DatabaseConnection` in backend/utils/db_connection.py: one shared instance that
 * connects lazily, caches the database handle once a ping has succeeded, and maps each
 * kind of failure to its own message. The environment, the new client and the ping's
 * outcome are inputs; logging and index creation (whose failures are only logged) are
 * not modelled.
 */
module DbConnection {
  import opened Wrappers
  import opened Text
  import Config

  /** A `MongoClient`, told apart from earlier ones by a serial number. */
  datatype Client = Client(uri: string, serial: nat)

  /** `client[db_name]`. */
  datatype Database = Database(client: Client, name: string)

  /** What `client.admin.command('ping')` does. */
  datatype PingOutcome =
    | Pong
    | AuthFailure(message: string)      // OperationFailure
    | NetworkFailure(message: string)   // ConnectionFailure
    | OtherFailure(message: string)     // any other exception

  /** The three attributes the instance keeps. */
  datatype ConnState = ConnState(client: Option<Client>, db: Option<Database>, connected: bool)

  /** The class attributes before anything connects. */
  const Initial := ConnState(None, None, false)

  /** Once connected there is a client and a database handle on that client. */
  predicate Valid(st: ConnState) {
    st.connected ==> st.client.Some? && st.db.Some? && st.db.value.client == st.client.value
  }

  /** `Config.MONGO_DB_NAME`: the environment variable, `'ai_examiner'` when unset. */
  function ConfiguredDbName(env: Option<string>): (r: string)
    ensures env.None? ==> r == Config.DefaultDbName
    ensures env.Some? ==> r == env.value
  {
    env.GetOr(Config.DefaultDbName)
  }

  /** The last `/`-separated segment of the URI, up to its first `?`. */
  function UriDbName(uri: string): string {
    var pieces := Split(uri, '/');
    Split(pieces[|pieces| - 1], '?')[0]
  }

  /** The configured name, else the URI's path segment, else `'ai_examiner'`. */
  function DbName(configured: string, uri: string): (r: string)
    ensures r != []
    ensures configured != [] ==> r == configured
  {
    if configured != [] then configured
    else if UriDbName(uri) != [] then UriDbName(uri)
    else Config.DefaultDbName
  }

  /** `mongodb+srv://host/name?options` names the database `name`. */
  lemma DbNameFromUri(prefix: string, name: string, query: string)
    requires name != [] && '/' !in name && '?' !in name && '/' !in query
    ensures DbName("", prefix + "/" + name + "?" + query) == name
  {
    var t := name + "?" + query;
    assert prefix + "/" + name + "?" + query == prefix + ['/'] + t;
    SplitLastAfterSeparator(prefix, '/', t);
    SplitNoSeparator(t, '/');
    SplitAtSeparator(name, '?', query);
  }

  /** A URI whose path is empty (`mongodb://host/`) falls back to `'ai_examiner'`. */
  lemma DbNameEmptyPath(prefix: string)
    ensures DbName("", prefix + "/") == Config.DefaultDbName
  {
    assert prefix + "/" == prefix + ['/'] + [];
    SplitLastAfterSeparator(prefix, '/', []);
  }

  /** The message `connect` raises when there is no URI. */
  const MissingUriMessage := "Database connection error: MONGO_URI not found in environment variables"

  /** The message raised for a failed ping. */
  function PingFailureMessage(ping: PingOutcome): string
    requires !ping.Pong?
  {
    match ping
    case AuthFailure(e) => "Database authentication failed: " + e
    case NetworkFailure(e) => "Database connection failed: " + e
    case OtherFailure(e) => "Database connection error: " + e
  }

  /**
   * `connect()`: the cached handle when connected; otherwise a new client is made and
   * pinged, and only a successful ping connects. The new client is kept even when the
   * ping fails.
   */
  function ConnectStep(st: ConnState, uri: Option<string>, dbNameSetting: string,
                       newClient: Result<nat, string>, ping: PingOutcome): (ConnState, Result<Database, string>)
    requires Valid(st)
  {
    if st.connected && st.client.Some? then (st, Ok(st.db.value))
    else if uri.None? || uri.value == [] then (st, Err(MissingUriMessage))
    else match newClient
      case Err(e) => (st, Err("Database connection error: " + e))
      case Ok(serial) =>
        var client := Client(uri.value, serial);
        if ping.Pong? then
          var db := Database(client, DbName(dbNameSetting, uri.value));
          (ConnState(Some(client), Some(db), true), Ok(db))
        else (st.(client := Some(client)), Err(PingFailureMessage(ping)))
  }

  /** `get_db()`: connect when not connected or when there is no handle. */
  function GetDbStep(st: ConnState, uri: Option<string>, dbNameSetting: string,
                     newClient: Result<nat, string>, ping: PingOutcome): (ConnState, Result<Database, string>)
    requires Valid(st)
  {
    if !st.connected || st.db.None? then ConnectStep(st, uri, dbNameSetting, newClient, ping)
    else (st, Ok(st.db.value))
  }

  /** Connecting keeps the invariant. */
  lemma ConnectKeepsValid(st: ConnState, uri: Option<string>, name: string, c: Result<nat, string>, ping: PingOutcome)
    requires Valid(st)
    ensures Valid(ConnectStep(st, uri, name, c, ping).0)
  {
  }

  /** Connected afterwards only if already connected or the ping answered; then the result is the handle. */
  lemma ConnectedOnlyAfterPing(st: ConnState, uri: Option<string>, name: string, c: Result<nat, string>, ping: PingOutcome)
    requires Valid(st)
    ensures var (st', r) := ConnectStep(st, uri, name, c, ping);
      (st'.connected <==> st.connected || (uri.Some? && uri.value != [] && c.Ok? && ping.Pong?)) &&
      (st'.connected <==> r.Ok?) &&
      (r.Ok? ==> st'.db == Some(r.value))
  {
  }

  /** Once connected, further calls change nothing and return the same handle, whatever the inputs. */
  lemma ConnectCached(st: ConnState, uri: Option<string>, name: string, c: Result<nat, string>, ping: PingOutcome,
                      uri2: Option<string>, name2: string, c2: Result<nat, string>, ping2: PingOutcome)
    requires Valid(st)
    ensures var (st1, r1) := ConnectStep(st, uri, name, c, ping);
      r1.Ok? ==> ConnectStep(st1, uri2, name2, c2, ping2) == (st1, r1) &&
                 GetDbStep(st1, uri2, name2, c2, ping2) == (st1, r1)
  {
  }

  /** Under the invariant `get_db()` and `connect()` do the same thing. */
  lemma GetDbIsConnect(st: ConnState, uri: Option<string>, name: string, c: Result<nat, string>, ping: PingOutcome)
    requires Valid(st)
    ensures GetDbStep(st, uri, name, c, ping) == ConnectStep(st, uri, name, c, ping)
  {
  }

  /** A failed connect leaves the instance unconnected, so the next call tries again. */
  lemma FailureRetries(st: ConnState, uri: Option<string>, name: string, c: Result<nat, string>, ping: PingOutcome,
                       uri2: Option<string>, name2: string, c2: Result<nat, string>, ping2: PingOutcome)
    requires Valid(st)
    ensures var (st1, r1) := ConnectStep(st, uri, name, c, ping);
      r1.Err? ==> (!st1.connected &&
        (uri2.Some? && uri2.value != [] && c2.Ok? && ping2.Pong? ==> ConnectStep(st1, uri2, name2, c2, ping2).1.Ok?))
  {
  }

  /** The instance's state. */
  class DatabaseConnection {
    var client: Option<Client>
    var db: Option<Database>
    var connected: bool

    function State(): ConnState
      reads this
    {
      ConnState(client, db, connected)
    }

    constructor()
      ensures State() == Initial
    {
      client := None;
      db := None;
      connected := false;
    }

    /** `connect()`. */
    method Connect(uri: Option<string>, dbNameSetting: string, newClient: Result<nat, string>, ping: PingOutcome)
      returns (r: Result<Database, string>)
      requires Valid(State())
      modifies this
      ensures (State(), r) == ConnectStep(old(State()), uri, dbNameSetting, newClient, ping)
      ensures Valid(State())
    {
      if connected && client.Some? {
        return Ok(db.value);
      }
      if uri.None? || uri.value == [] {
        return Err(MissingUriMessage);
      }
      if newClient.Err? {
        return Err("Database connection error: " + newClient.error);
      }
      client := Some(Client(uri.value, newClient.value));
      if !ping.Pong? {
        return Err(PingFailureMessage(ping));
      }
      var name := DbName(dbNameSetting, uri.value);
      db := Some(Database(client.value, name));
      connected := true;
      return Ok(db.value);
    }

    /** `get_db()`. */
    method GetDb(uri: Option<string>, dbNameSetting: string, newClient: Result<nat, string>, ping: PingOutcome)
      returns (r: Result<Database, string>)
      requires Valid(State())
      modifies this
      ensures (State(), r) == GetDbStep(old(State()), uri, dbNameSetting, newClient, ping)
      ensures Valid(State())
    {
      if !connected || db.None? {
        r := Connect(uri, dbNameSetting, newClient, ping);
      } else {
        r := Ok(db.value);
      }
    }
  }

  /** `DatabaseConnection()`: `__new__` hands out one shared instance. */
  class DatabaseConnectionClass {
    var instance: DatabaseConnection?

    constructor()
      ensures instance == null
    {
      instance := null;
    }

    method New() returns (c: DatabaseConnection)
      modifies this
      ensures old(instance) != null ==> c == old(instance)
      ensures old(instance) == null ==> fresh(c) && c.State() == Initial
      ensures instance == c
    {
      if instance == null {
        instance := new DatabaseConnection();
      }
      c := instance;
    }
  }
}
