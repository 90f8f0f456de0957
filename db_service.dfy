/**
 * `ApiKeysDatabaseService` (DBService/db_service.py): an encrypted per-user API
 * key store over the `users` table of the file named `db_name`.
 *
 * `get_api_key` at db_service.py:30 splices `user_id` into the SQL text; for the
 * integer ids it is given this selects the same row as a bound parameter, so
 * the model reads the row by id.
 */
module DBService {
  import Fernet
  import opened UsersTable

  class ApiKeysDatabaseService {
    const dbName: string
    const db: DatabaseFile
    const fernet: Fernet.Key

    /** The service's file holds the `users` table. */
    ghost predicate Valid()
      reads this, db
    {
      db.Valid() && db.hasUsersTable && db.name == dbName
    }

    /**
     * `ApiKeysDatabaseService(encryption_key, db_name)`, where `db` is the file
     * named `db_name` ("api_keys.db" when the caller gives none): creates the table if it is missing and keeps every row
     * already in the file.
     */
    constructor (encryptionKey: Fernet.Key, db: DatabaseFile)
      requires db.Valid()
      modifies db
      ensures this.db == db && dbName == db.name && fernet == encryptionKey
      ensures Valid()
      ensures db.users == old(db.users)
    {
      dbName := db.name;
      this.db := db;
      fernet := encryptionKey;
      new;
      InitDatabase();
    }

    /** `_init_database`: `CREATE TABLE IF NOT EXISTS users (...)`, which never removes a row. */
    method InitDatabase()
      requires db.Valid() && db.name == dbName
      modifies db
      ensures Valid()
      ensures db.users == old(db.users)
      ensures old(db.hasUsersTable) ==> unchanged(db)
    {
      if !db.hasUsersTable {
        db.hasUsersTable, db.users := true, map[];
      }
    }

    /** `get_api_key(user_id)`: `NoRecord` when the user has no row, else the row decrypted. */
    method GetApiKey(userId: UserId) returns (apiKey: ApiKeyLookup)
      requires Valid()
      ensures apiKey == Lookup(db.users, fernet, userId)
      ensures apiKey == NoRecord <==> userId !in db.users
    {
      if userId in db.users {
        var encryptedApiKey := db.users[userId];
        match Fernet.Decrypt(fernet, encryptedApiKey)
        case Some(plain) => apiKey := Found(plain);
        case None => apiKey := InvalidToken;
      } else {
        apiKey := NoRecord;
      }
    }

    /**
     * `store_api_key(user_id, api_key)`: encrypts the key (with the randomness
     * `nonce`) and upserts it as the user's only row.
     */
    method StoreApiKey(userId: UserId, apiKey: string, nonce: Fernet.Nonce)
      requires Valid()
      modifies db
      ensures Valid()
      ensures db.users == Upsert(old(db.users), fernet, nonce, userId, apiKey)
      ensures Lookup(db.users, fernet, userId) == Found(apiKey)
      ensures forall v :: v != userId ==> Lookup(db.users, fernet, v) == Lookup(old(db.users), fernet, v)
    {
      var encryptedApiKey := Fernet.Encrypt(fernet, nonce, apiKey);
      db.users := db.users[userId := encryptedApiKey];
    }
  }

}
