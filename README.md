# ChatGPT Telegram bot: API-key gating and the encrypted key store

This project models two pieces of the SmartAIAssistant Telegram bot in Dafny.

**The bot's handlers** (`bot.py`, module `Bot`). Each Telegram user has a data
bag, a `map<string, string>`. Three handlers act on it:

- `/start` always replies with the welcome text.
- `/apikey word...` joins its words with single spaces. An empty result
  replies "Something went wrong." followed by the key request. Anything else
  is stored under `"api_key"` and the reply is "API key set successfully!".
- Plain text is echoed as `"You entered: " + text` when a key is present.
  Otherwise the reply asks for a key.

The handlers are pure functions from (data bag, update) to (reply, new bag).
The `ChatGPTBot` class keeps every user's bag in a map field. Its methods
`SetApiKeyHandler` and `HandleUpdate` update that field as the handlers say.
Lemmas cover:

- the split/join round trip that pins down the stored key;
- over any sequence of updates, the stored key is the last one set successfully;
- the echo reply can always be told apart from the key request.

**The encrypted key stores** (`DBService/db_service.py`, module `DBService`;
`Database/user_db_service.py`, module `Database`). Each store keeps one
SQLite table, `users(user_id PRIMARY KEY, api_key)`. The shared module
`UsersTable` models the database file as an object with a
`map<int, Token>` of rows, so the rows outlive the service objects that open
the file. `Lookup` and `Upsert` say what reading a row and
`INSERT OR REPLACE` mean. Lemmas about them give:

- the round trip (get after store returns the key);
- overwrite, with at most one row per user;
- the frame (other users are untouched);
- idempotence;
- only ciphertext is persisted.

Each service class has a constructor, `InitDatabase`, `GetApiKey` and
`StoreApiKey`. Their contracts tie the file's new rows to `Upsert` and the
returned value to `Lookup`.

Fernet is modelled symbolically (module `Fernet`). A key is the 32 bytes of
key material Fernet decodes from its key string. A token records the key
material it was sealed under. `Decrypt` gives the message back under that
key material, and gives `None`, standing for Fernet's `InvalidToken`, under
any other (an idealisation, see "Left out"). `Decrypt(Encrypt(s)) == s` is
therefore a proved postcondition, not an assumption.

Later versions of the bot add menus and dialogue states; this version has
none, and the model follows it:

- `/start` gives the same welcome whether or not a key is set. It does not
  show a menu that depends on the key.
- The key set with `/apikey` is kept only in the in-memory data bag. The bot
  builds a `UserDatabaseService` (bot.py:21) but never calls it.
- The code has no dialogue states beyond the three handlers. It has no menus,
  image, assistant or transcription dialogue.

Several lines of the code cannot run as written. The model follows what they
evidently mean:

- bot.py:20 reads `constants.TELEGRAM_BOT_DB_ENCRYPTION_KEY_ENV`, which
  constants.py does not define. The encryption key is a constructor parameter.
- Database/user_db_service.py:7 calls `_init_database()` without the `db_name`
  argument declared at :10.
- Database/user_db_service.py:30 passes `(user_id)` instead of a one-element tuple.
- DBService/db_service.py:30 splices `user_id` into the SQL text. For integer
  ids this selects the same row as a bound parameter.

## Model

| member | source | states |
|---|---|---|
| Fernet.Encrypt | DBService/db_service.py:42 | decrypting a token under the key material it was made with gives the plaintext back; under different key material decryption fails (InvalidToken, idealised) |
| UsersTable.DatabaseFile.constructor | DBService/db_service.py:11 | connecting to a file that does not exist yet gives an empty file with no users table and no rows |
| UsersTable.Lookup | DBService/db_service.py:26-39 | the read gives NoRecord exactly when the user has no row, the decrypted key exactly when the row opens under the service's key material, InvalidToken otherwise |
| UsersTable.Upsert | DBService/db_service.py:41-50 | INSERT OR REPLACE: the user's row now holds the ciphertext of the key, the set of ids gains only that user, every other row keeps its value |
| UsersTable.StoreThenGet | DBService/db_service.py:35-49 | round trip: after storing k for u, reading u with the same Fernet key gives k |
| UsersTable.StoreLeavesOtherUsers | DBService/db_service.py:47-50 | storing for u leaves what any other user reads unchanged, under any key |
| UsersTable.StoreRecordCount | DBService/db_service.py:16-18 | user_id is the primary key: an upsert adds a row only for a user without one, so there is at most one row per user |
| UsersTable.StoreReplaces | Database/user_db_service.py:47-50 | a second store for u replaces the first: the later key is read back and the row count does not grow |
| UsersTable.StoreTwiceIdempotent | Database/user_db_service.py:41-50 | storing the same key twice reads back that key and leaves as many rows as storing it once |
| UsersTable.StoredValueIsCiphertext | DBService/db_service.py:42-49 | the persisted value is the Fernet token of the key, never the plaintext, and under different key material that row reads as InvalidToken |
| DBService.ApiKeysDatabaseService.constructor | DBService/db_service.py:5-8 | constructing the service over a file creates the table if needed and keeps every row already in it |
| DBService.ApiKeysDatabaseService.InitDatabase | DBService/db_service.py:10-24 | CREATE TABLE IF NOT EXISTS: afterwards the table exists, and its rows are those before (an existing table is left untouched) |
| DBService.ApiKeysDatabaseService.GetApiKey | DBService/db_service.py:26-39 | returns the Lookup of the user's row under the service key; NoRecord exactly when there is no row |
| DBService.ApiKeysDatabaseService.StoreApiKey | DBService/db_service.py:41-53 | the rows become the upsert of the encrypted key; reading the user back gives the key; every other user reads as before |
| Database.UserDatabaseService.constructor | Database/user_db_service.py:5-8 | constructing the service over "user_data.db" creates the table if needed and keeps every row already in it |
| Database.UserDatabaseService.InitDatabase | Database/user_db_service.py:10-24 | CREATE TABLE IF NOT EXISTS: afterwards the table exists, and its rows are those before |
| Database.UserDatabaseService.GetApiKey | Database/user_db_service.py:26-39 | returns the Lookup of the user's row under the service key; NoRecord exactly when there is no row |
| Database.UserDatabaseService.StoreApiKey | Database/user_db_service.py:41-53 | the rows become the upsert of the encrypted key; reading the user back gives the key; every other user reads as before |
| Database.StoreThenReopen | Database/user_db_service.py:14-21 | a key stored through one service is read back by a service constructed later over the same file with the same key: reconstruction loses nothing |
| Bot.Join | bot.py:44 | " ".join: no words give the empty key; otherwise the key starts with the first word, and with two or more words a single space follows it |
| Bot.JoinSplit | bot.py:44 | joining the pieces of a split on single spaces gives the original text back |
| Bot.SplitJoin | bot.py:44 | the stored key is the /apikey words separated by single spaces: splitting it gives the words back when none contains a space |
| Bot.JoinEmptyIff | bot.py:44-45 | the joined key is empty exactly for no words or one empty word |
| Bot.KeyEmptyOnlyWithoutArgs | bot.py:44-46 | with Telegram's whitespace-split (never empty) arguments, /apikey takes the error branch exactly when it has no arguments |
| Bot.ApiKeyProvided | bot.py:37-38 | a key is provided exactly when the user's data bag has an api_key entry, whatever its value |
| Bot.StartHandler | bot.py:40-41 | /start replies with the welcome whatever the user's data, and that welcome ends with the request to set a key |
| Bot.SetApiKey | bot.py:43-49 | an empty joined key gives the error plus request reply and leaves the bag unchanged; otherwise api_key becomes the joined key, replacing any earlier one, the reply is the success text, no other entry changes, and a key is provided afterwards |
| Bot.EchoIsNotKeyRequest | bot.py:51-55 | the echo reply is never the key request, whatever the text |
| Bot.MessageHandler | bot.py:51-55 | the reply is the echo of the text exactly when api_key is in the bag, and the key request exactly when it is not |
| Bot.Step | bot.py:32-35 | routing: only /apikey can change the bag, and no update removes a key once provided |
| Bot.RunKeepsLatestKey | bot.py:43-55 | after any sequence of updates the stored key is the last successfully set one (or the original bag if none), no other entry changes, and text is echoed exactly when some key is held |
| Bot.ChatGPTBot.constructor | bot.py:19-23 | the bot starts with no user data and builds the key store over "user_data.db" without losing its rows |
| Bot.ChatGPTBot.SetApiKeyHandler | bot.py:43-49 | the reply and the user's new bag are those of SetApiKey; an empty key changes nothing; no other user's bag changes |
| Bot.ChatGPTBot.HandleUpdate | bot.py:32-35 | the reply and the user's new bag are those of Step; /start and text change no data; no other user's bag changes |

## Left out

- Telegram transport: the application builder, handler registration, polling and async/await. Updates are the `Update` datatype.
- Commands other than /start and /apikey reach no handler in the source and produce no reply. The model has no update for them.
- Telegram's splitting of a command's text into `context.args` is not modelled. `KeyEmptyOnlyWithoutArgs` takes its result (no empty word) as a hypothesis.
- Logging setup and the destructor's log line: side effects only.
- SQLite connections, commits and closes. Each statement takes effect at once. Backing-store I/O failures are not modelled.
- Fernet.Encrypt: decryption under different key material is idealised as always failing with InvalidToken; real Fernet rejects it only with overwhelming probability.
- Fernet's token format, the decoding and validation of its key string (two different strings can decode to the same key material), and the failure of `Fernet(None)`. The token's randomness (IV and timestamp) is the `nonce` parameter of `StoreApiKey`.
- Python exceptions raised by the four defective lines listed above. The model gives their intended behaviour.
- UsersTable.UserId: user ids are limited to SQLite's signed 64-bit INTEGER range, which Telegram ids fit. The OverflowError that sqlite3 raises when binding a larger id is not modelled.
- Concurrent handling of updates or store calls. Each call is atomic in the model.
- Menus, image generation, assistant conversations and transcription. None of them is in this version of the code.
- The image-generation, chat-completion and transcription clients are not part of this model.
