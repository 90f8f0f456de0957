/**
 * The SQLite `users(user_id INTEGER PRIMARY KEY, api_key TEXT)` table that both
 * key stores keep, and what reading and upserting a row means.
 *
 * The database file outlives the service objects that open it, so it is an
 * object of its own: several services constructed over the same file see the
 * same rows. Connections, commits and closes are not modelled; each statement
 * takes effect at once.
 */
module UsersTable {
  import opened Wrappers
  import Fernet

  /**
   * A Telegram user id, the table's primary key. SQLite stores an INTEGER
   * PRIMARY KEY as a signed 64-bit integer, and Telegram ids fit in it.
   */
  type UserId = x: int | -0x8000_0000_0000_0000 <= x < 0x8000_0000_0000_0000

  /** The rows of `users`: a map, so there is at most one row per user id. */
  type Rows = map<UserId, Fernet.Token>

  /** What `get_api_key` gives back: `None`, the decrypted key, or Fernet's `InvalidToken` error. */
  datatype ApiKeyLookup = NoRecord | Found(apiKey: string) | InvalidToken

  /** One SQLite database file, identified by its name. */
  class DatabaseFile {
    const name: string
    var hasUsersTable: bool
    var users: Rows

    /** A file without the `users` table has no rows in it. */
    ghost predicate Valid()
      reads this
    {
      hasUsersTable || users == map[]
    }

    /** `sqlite3.connect(name)` on a file that does not exist yet creates it empty. */
    constructor (name: string)
      ensures this.name == name
      ensures Valid() && !hasUsersTable && users == map[]
    {
      this.name := name;
      hasUsersTable := false;
      users := map[];
    }
  }

  /**
   * `SELECT api_key FROM users WHERE user_id = u`, then decrypt the row with `key`:
   * no row gives `NoRecord`, a row sealed under `key` gives its plaintext, and
   * any other row gives `InvalidToken`.
   */
  function Lookup(rows: Rows, key: Fernet.Key, u: UserId): (r: ApiKeyLookup)
    ensures r == NoRecord <==> u !in rows
    ensures r.Found? <==> u in rows && Fernet.Decrypt(key, rows[u]).Some?
    ensures r.Found? ==> Fernet.Decrypt(key, rows[u]) == Some(r.apiKey)
  {
    if u !in rows then NoRecord
    else match Fernet.Decrypt(key, rows[u])
      case Some(apiKey) => Found(apiKey)
      case None => InvalidToken
  }

  /**
   * `INSERT OR REPLACE INTO users (user_id, api_key) VALUES (u, Encrypt(apiKey))`:
   * the row for `u` now holds the ciphertext, every other row is as it was.
   */
  function Upsert(rows: Rows, key: Fernet.Key, nonce: Fernet.Nonce, u: UserId, apiKey: string): (r: Rows)
    ensures r.Keys == rows.Keys + {u}
    ensures r[u] == Fernet.Encrypt(key, nonce, apiKey)
    ensures forall v :: v in rows && v != u ==> r[v] == rows[v]
  {
    rows[u := Fernet.Encrypt(key, nonce, apiKey)]
  }

  /** Round trip: after storing `apiKey` for `u`, reading `u` with the same key gives `apiKey`. */
  lemma StoreThenGet(rows: Rows, key: Fernet.Key, nonce: Fernet.Nonce, u: UserId, apiKey: string)
    ensures Lookup(Upsert(rows, key, nonce, u, apiKey), key, u) == Found(apiKey)
  {
  }

  /** Storing for `u` leaves what every other user reads unchanged, under any key. */
  lemma StoreLeavesOtherUsers(rows: Rows, key: Fernet.Key, nonce: Fernet.Nonce, u: UserId, apiKey: string,
                              v: UserId, readKey: Fernet.Key)
    requires v != u
    ensures Lookup(Upsert(rows, key, nonce, u, apiKey), readKey, v) == Lookup(rows, readKey, v)
  {
  }

  /** The upsert adds a row only for a user that had none; an existing row is replaced in place. */
  lemma StoreRecordCount(rows: Rows, key: Fernet.Key, nonce: Fernet.Nonce, u: UserId, apiKey: string)
    ensures |Upsert(rows, key, nonce, u, apiKey)| == if u in rows then |rows| else |rows| + 1
  {
  }

  /** A second store for `u` replaces the first: the later key is read back and no row is added. */
  lemma StoreReplaces(rows: Rows, key: Fernet.Key, n1: Fernet.Nonce, n2: Fernet.Nonce, u: UserId,
                      first: string, second: string)
    ensures var once := Upsert(rows, key, n1, u, first);
            var twice := Upsert(once, key, n2, u, second);
            Lookup(twice, key, u) == Found(second) && twice.Keys == once.Keys && |twice| == |once|
  {
  }

  /**
   * Storing the same key twice reads back that key and leaves as many rows as
   * storing it once (the two ciphertexts may differ, as Fernet tokens do).
   */
  lemma StoreTwiceIdempotent(rows: Rows, key: Fernet.Key, n1: Fernet.Nonce, n2: Fernet.Nonce, u: UserId, apiKey: string)
    ensures var once := Upsert(rows, key, n1, u, apiKey);
            var twice := Upsert(once, key, n2, u, apiKey);
            Lookup(twice, key, u) == Lookup(once, key, u) == Found(apiKey) && |twice| == |once|
  {
  }

  /**
   * Only ciphertext is persisted: the stored value is the Fernet token of the
   * key, and under any other Fernet key the row reads as `InvalidToken`.
   */
  lemma StoredValueIsCiphertext(rows: Rows, key: Fernet.Key, nonce: Fernet.Nonce, u: UserId, apiKey: string,
                                other: Fernet.Key)
    requires other != key
    ensures Upsert(rows, key, nonce, u, apiKey)[u] == Fernet.Encrypt(key, nonce, apiKey)
    ensures Lookup(Upsert(rows, key, nonce, u, apiKey), other, u) == InvalidToken
  {
  }

}
