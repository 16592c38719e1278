/**
 * The persistent store (`Store` in storage.py): an `app` table of client
 * credentials keyed by (client_id, client_secret) with an insertion time,
 * and a `login` table holding at most one cached token, under login_id 1.
 */
module Storage {
  import opened Wrappers

  /** `SPOTIFY_REQUIRED_SCOPE`. */
  const SpotifyRequiredScope: string := "playlist-read-private"

  /** The primary key of the `app` table. */
  datatype ClientInfo = ClientInfo(id: string, secret: string)

  /** `CURRENT_TIMESTAMP` at the moment of a write, passed in. */
  type Timestamp = int

  datatype LoginRow = LoginRow(token: string, inserted: Timestamp)

  /** The database file: each table is absent until created. */
  class Database {
    var app: Option<map<ClientInfo, Timestamp>>
    var login: Option<map<int, LoginRow>>

    constructor (app: Option<map<ClientInfo, Timestamp>>, login: Option<map<int, LoginRow>>)
      ensures this.app == app && this.login == login
    {
      this.app := app;
      this.login := login;
    }
  }

  /** The most recently inserted client in `app`, as `ORDER BY insertion_data DESC LIMIT 1`;
      among rows inserted at the same time any one may come first. */
  predicate IsNewest(app: map<ClientInfo, Timestamp>, c: ClientInfo) {
    c in app && forall d :: d in app ==> app[d] <= app[c]
  }

  class Store {
    const db: Database

    /** Both tables exist, and the login table only ever holds login_id 1. */
    predicate Valid()
      reads this, db
    {
      db.app.Some? && db.login.Some? && db.login.value.Keys <= {1}
    }

    /** `CREATE TABLE IF NOT EXISTS` for both tables: a table that exists keeps its rows. */
    constructor (db: Database)
      requires db.login.Some? ==> db.login.value.Keys <= {1}
      modifies db
      ensures this.db == db && Valid()
      ensures db.app == (if old(db.app).Some? then old(db.app) else Some(map[]))
      ensures db.login == (if old(db.login).Some? then old(db.login) else Some(map[]))
    {
      this.db := db;
      new;
      if db.app.None? {
        db.app := Some(map[]);
      }
      if db.login.None? {
        db.login := Some(map[]);
      }
    }

    /** `INSERT OR REPLACE INTO app`: the row for (id, secret) is inserted, or
        replaced with the new time; other rows stay. */
    method AddAppClientData(id: string, secret: string, now: Timestamp)
      requires Valid()
      modifies db
      ensures Valid()
      ensures db.app == Some(old(db.app.value)[ClientInfo(id, secret) := now])
      ensures db.login == old(db.login)
    {
      db.app := Some(db.app.value[ClientInfo(id, secret) := now]);
    }

    /** `get_app_client_data`: None for an empty table, otherwise a newest client. */
    method GetAppClientData() returns (r: Option<ClientInfo>)
      requires Valid()
      ensures r.None? <==> db.app.value == map[]
      ensures r.Some? ==> IsNewest(db.app.value, r.value)
    {
      var app := db.app.value;
      var rest := app.Keys;
      r := None;
      while rest != {}
        invariant rest <= app.Keys
        invariant r.None? <==> rest == app.Keys
        invariant r.Some? ==> r.value in app && forall d :: d in app && d !in rest ==> app[d] <= app[r.value]
        decreases rest
      {
        var c :| c in rest;
        if r.None? || app[r.value] < app[c] {
          r := Some(c);
        }
        rest := rest - {c};
      }
    }

    /** `get_cached_login_token`: the token of the one login row, if any. */
    method GetCachedLoginToken() returns (token: Option<string>)
      requires Valid()
      ensures token.None? <==> 1 !in db.login.value
      ensures token.Some? ==> token.value == db.login.value[1].token
    {
      var login := db.login.value;
      if 1 in login {
        token := Some(login[1].token);
      } else {
        token := None;
      }
    }

    /** `store_cached_login_token`: the row under login_id 1 is written with the token. */
    method StoreCachedLoginToken(token: string, now: Timestamp)
      requires Valid()
      modifies db
      ensures Valid()
      ensures db.login == Some(map[1 := LoginRow(token, now)])
      ensures db.app == old(db.app)
    {
      db.login := Some(db.login.value[1 := LoginRow(token, now)]);
      assert db.login.value == map[1 := LoginRow(token, now)];
    }

    /** `delete_cached_login_token`: the login table is emptied. */
    method DeleteCachedLoginToken()
      requires Valid()
      modifies db
      ensures Valid()
      ensures db.login == Some(map[])
      ensures db.app == old(db.app)
    {
      db.login := Some(map[]);
    }
  }

  /** A token stored and read back is the same token; after a delete none is read. */
  method TokenRoundTrip(store: Store, token: string, now: Timestamp) returns (first: Option<string>, second: Option<string>)
    requires store.Valid()
    modifies store.db
    ensures first == Some(token) && second.None?
    ensures store.Valid() && store.db.app == old(store.db.app)
  {
    store.StoreCachedLoginToken(token, now);
    first := store.GetCachedLoginToken();
    store.DeleteCachedLoginToken();
    second := store.GetCachedLoginToken();
  }

  /** Client data added at a time later than every earlier row is the
      client read back. */
  method AddThenGet(store: Store, id: string, secret: string, now: Timestamp) returns (r: Option<ClientInfo>)
    requires store.Valid()
    requires forall c :: c in store.db.app.value ==> store.db.app.value[c] < now
    modifies store.db
    ensures r == Some(ClientInfo(id, secret))
  {
    store.AddAppClientData(id, secret, now);
    r := store.GetAppClientData();
    assert ClientInfo(id, secret) in store.db.app.value;
    var c := r.value;
    assert store.db.app.value[ClientInfo(id, secret)] <= store.db.app.value[c];
  }
}
