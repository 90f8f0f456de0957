/**
 * `UserDatabaseService` (Database/user_db_service.py): the encrypted per-user
 * API key store the bot constructs, over the `users` table of "user_data.db".
 *
 * Two calls in that file do not work as written and are modelled as meant:
 * the constructor calls `_init_database()` without the `db_name` argument its
 * definition declares (user_db_service.py:7 and :10), and `get_api_key` passes
 * `(user_id)` rather than a one-element tuple as the query parameters
 * (user_db_service.py:30).
 */
module Database {
  import Fernet
  import opened UsersTable

  /** The file this service always opens. */
  const UserDbName: string := "user_data.db"

  class UserDatabaseService {
    const dbName: string
    const db: DatabaseFile
    const fernet: Fernet.Key

    /** The service's file is "user_data.db" and holds the `users` table. */
    ghost predicate Valid()
      reads this, db
    {
      db.Valid() && db.hasUsersTable && db.name == dbName && dbName == UserDbName
    }

    /**
     * `UserDatabaseService(encryption_key)` over `db`, the file "user_data.db":
     * creates the table if it is missing and keeps every row already there.
     */
    constructor (encryptionKey: Fernet.Key, db: DatabaseFile)
      requires db.Valid() && db.name == UserDbName
      modifies db
      ensures this.db == db && fernet == encryptionKey
      ensures Valid()
      ensures db.users == old(db.users)
    {
      dbName := UserDbName;
      this.db := db;
      fernet := encryptionKey;
      new;
      InitDatabase();
    }

    /** `_init_database`: `CREATE TABLE IF NOT EXISTS users (...)`, which never removes a row. */
    method InitDatabase()
      requires db.Valid() && db.name == dbName && dbName == UserDbName
      modifies db
      ensures Valid()
      ensures db.users == old(db.users)
      ensures old(db.hasUsersTable) ==> unchanged(db)
    {
      if !db.hasUsersTable {
        db.hasUsersTable, db.users := true, map[];
      }
    }

    /** `get_api_key(user_id)`: `NoRecord` when the user has no row, else the row decrypted. */
    method GetApiKey(userId: UserId) returns (apiKey: ApiKeyLookup)
      requires Valid()
      ensures apiKey == Lookup(db.users, fernet, userId)
      ensures apiKey == NoRecord <==> userId !in db.users
    {
      if userId in db.users {
        var encryptedApiKey := db.users[userId];
        match Fernet.Decrypt(fernet, encryptedApiKey)
        case Some(plain) => apiKey := Found(plain);
        case None => apiKey := InvalidToken;
      } else {
        apiKey := NoRecord;
      }
    }

    /**
     * `store_api_key(user_id, api_key)`: encrypts the key (with the randomness
     * `nonce`) and upserts it as the user's only row.
     */
    method StoreApiKey(userId: UserId, apiKey: string, nonce: Fernet.Nonce)
      requires Valid()
      modifies db
      ensures Valid()
      ensures db.users == Upsert(old(db.users), fernet, nonce, userId, apiKey)
      ensures Lookup(db.users, fernet, userId) == Found(apiKey)
      ensures forall v :: v != userId ==> Lookup(db.users, fernet, v) == Lookup(old(db.users), fernet, v)
    {
      var encryptedApiKey := Fernet.Encrypt(fernet, nonce, apiKey);
      db.users := db.users[userId := encryptedApiKey];
    }
  }

  /**
   * A key stored through one service is read back by a service constructed
   * later over the same file with the same encryption key.
   */
  method StoreThenReopen(encryptionKey: Fernet.Key, db: DatabaseFile, userId: UserId, apiKey: string,
                         nonce: Fernet.Nonce) returns (read: ApiKeyLookup)
    requires db.Valid() && db.name == UserDbName
    modifies db
    ensures read == Found(apiKey)
  {
    var first := new UserDatabaseService(encryptionKey, db);
    first.StoreApiKey(userId, apiKey, nonce);
    var second := new UserDatabaseService(encryptionKey, db);
    read := second.GetApiKey(userId);
  }

}
