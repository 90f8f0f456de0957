/**
 * `ChatGPTBot` (bot.py): three Telegram handlers over each user's data bag.
 *
 * `/start` greets, `/apikey word...` keeps the joined words as the user's API
 * key, and any other text is echoed once a key is set and otherwise answered
 * with a request for the key. The key lives only in the in-memory data bag;
 * the bot builds a `UserDatabaseService` but never calls it.
 */
module Bot {
  import opened Wrappers
  import opened Constants
  import Fernet
  import UsersTable
  import Database

  /** One user's data bag (`context.user_data`). */
  type UserData = map<string, string>

  /**
   * An update as the handlers registered at bot.py:33-35 split them: the two
   * commands, and text that is not a command.
   */
  datatype Update = StartCommand | ApiKeyCommand(args: seq<string>) | TextMessage(text: string)

  /** What a handler does: the text it replies and the user's data bag afterwards. */
  datatype Outcome = Outcome(reply: string, data: UserData)

  /** `" ".join(words)`. */
  function Join(words: seq<string>): (joined: string)
    ensures |words| == 0 ==> joined == ""
    ensures |words| >= 1 ==> words[0] <= joined
    ensures |words| >= 2 ==> |joined| > |words[0]| && joined[|words[0]|] == ' '
  {
    if |words| == 0 then ""
    else if |words| == 1 then words[0]
    else words[0] + " " + Join(words[1..])
  }

  /** `s.split(" ")`: the pieces between single spaces, empty pieces included. */
  function SplitOnSpaces(s: string): (pieces: seq<string>)
    ensures |pieces| >= 1
    decreases |s|
  {
    if |s| == 0 then [""]
    else if s[0] == ' ' then [""] + SplitOnSpaces(s[1..])
    else
      var rest := SplitOnSpaces(s[1..]);
      [[s[0]] + rest[0]] + rest[1..]
  }

  /** Joining the pieces of a split puts back exactly the spaces it removed. */
  lemma {:induction false} JoinSplit(s: string)
    ensures Join(SplitOnSpaces(s)) == s
  {
    if |s| == 0 {
    } else if s[0] == ' ' {
      JoinSplit(s[1..]);
      assert s == " " + s[1..];
    } else {
      var rest := SplitOnSpaces(s[1..]);
      JoinSplit(s[1..]);
      if |rest| == 1 {
        assert s == [s[0]] + rest[0];
      } else {
        assert Join(rest) == rest[0] + " " + Join(rest[1..]);
        assert ([[s[0]] + rest[0]] + rest[1..])[1..] == rest[1..];
        assert s == [s[0]] + (rest[0] + " " + Join(rest[1..]));
      }
    }
  }

  /** Splitting `w + " " + t` for a word without spaces gives `w` and then the pieces of `t`. */
  lemma {:induction false} SplitWord(w: string, t: string)
    requires ' ' !in w
    ensures SplitOnSpaces(w) == [w]
    ensures SplitOnSpaces(w + " " + t) == [w] + SplitOnSpaces(t)
  {
    if |w| == 0 {
      assert w + " " + t == " " + t;
      assert (" " + t)[1..] == t;
    } else {
      SplitWord(w[1..], t);
      assert (w + " " + t)[1..] == w[1..] + " " + t;
      assert [w[0]] + w[1..] == w;
    }
  }

  /**
   * The key `/apikey` keeps is its words separated by single spaces: when no
   * word contains a space, splitting the joined key gives the words back.
   */
  lemma {:induction false} SplitJoin(words: seq<string>)
    requires |words| >= 1
    requires forall i :: 0 <= i < |words| ==> ' ' !in words[i]
    ensures SplitOnSpaces(Join(words)) == words
  {
    if |words| == 1 {
      SplitWord(words[0], "");
    } else {
      SplitJoin(words[1..]);
      SplitWord(words[0], Join(words[1..]));
      assert words == [words[0]] + words[1..];
    }
  }

  /** The joined key is empty only for no words or a single empty word. */
  lemma JoinEmptyIff(words: seq<string>)
    ensures Join(words) == "" <==> |words| == 0 || (|words| == 1 && words[0] == "")
  {
  }

  /**
   * Telegram splits a command's arguments at whitespace, so no word is empty;
   * then `/apikey` fails exactly when it has no arguments.
   */
  lemma KeyEmptyOnlyWithoutArgs(words: seq<string>)
    requires forall i :: 0 <= i < |words| ==> words[i] != ""
    ensures Join(words) == "" <==> words == []
  {
  }

  /** `_openai_api_key_provided`: a key is provided exactly when the data bag has an `api_key` entry. */
  predicate ApiKeyProvided(data: UserData)
    ensures ApiKeyProvided(data) <==> ApiKeyField in data.Keys
  {
    ApiKeyField in data
  }

  /** The echo reply can never be mistaken for the key request. */
  lemma EchoIsNotKeyRequest(text: string)
    ensures EchoPrefix + text != ApiKeyRequestMessage
  {
    assert (EchoPrefix + text)[0] == 'Y';
    assert ApiKeyRequestMessage[0] == 'P';
  }

  /**
   * `_start_handler`: the welcome, whatever the user's data; it ends with the
   * request to set a key even when one is set.
   */
  function StartHandler(data: UserData): (reply: string)
    ensures reply == WelcomeNewUserMessage
    ensures |reply| >= |ApiKeyRequestMessage|
    ensures reply[|reply| - |ApiKeyRequestMessage|..] == ApiKeyRequestMessage
  {
    WelcomeNewUserMessage
  }

  /**
   * `_set_api_key_handler` as a value: an empty joined key leaves the data bag
   * alone and replies with the error and the request; otherwise the joined key
   * replaces any earlier one and nothing else in the bag changes.
   */
  function SetApiKey(data: UserData, args: seq<string>): (o: Outcome)
    ensures Join(args) == "" ==> o.reply == SomethingWentWrongMessage + " " + ApiKeyRequestMessage && o.data == data
    ensures Join(args) != "" ==> o.reply == ApiKeySetMessage && ApiKeyField in o.data && o.data[ApiKeyField] == Join(args)
    ensures o.data - {ApiKeyField} == data - {ApiKeyField}
    ensures ApiKeyProvided(o.data) <==> Join(args) != "" || ApiKeyProvided(data)
  {
    var apiKey := Join(args);
    if apiKey == "" then
      Outcome(SomethingWentWrongMessage + " " + ApiKeyRequestMessage, data)
    else
      var updated := data[ApiKeyField := apiKey];
      assert updated - {ApiKeyField} == data - {ApiKeyField};
      Outcome(ApiKeySetMessage, updated)
  }

  /** `_message_handler`: the echo exactly when a key is provided, the key request exactly when not. */
  function MessageHandler(data: UserData, text: string): (reply: string)
    ensures reply == EchoPrefix + text <==> ApiKeyProvided(data)
    ensures reply == ApiKeyRequestMessage <==> !ApiKeyProvided(data)
  {
    EchoIsNotKeyRequest(text);
    if ApiKeyProvided(data) then EchoPrefix + text else ApiKeyRequestMessage
  }

  /** One update routed to its handler: only `/apikey` can change the data bag, and never removes a key. */
  function Step(data: UserData, u: Update): (o: Outcome)
    ensures !u.ApiKeyCommand? ==> o.data == data
    ensures ApiKeyProvided(data) ==> ApiKeyProvided(o.data)
  {
    match u
    case StartCommand => Outcome(StartHandler(data), data)
    case ApiKeyCommand(args) => SetApiKey(data, args)
    case TextMessage(text) => Outcome(MessageHandler(data, text), data)
  }

  /** The data bag after a user's updates, handled in order. */
  function Run(data: UserData, updates: seq<Update>): (final: UserData)
    decreases |updates|
  {
    if updates == [] then data else Run(Step(data, updates[0]).data, updates[1..])
  }

  /** The key of the last `/apikey` among `updates` whose joined words are not empty. */
  function LatestKey(updates: seq<Update>): (latest: Option<string>)
    decreases |updates|
  {
    if updates == [] then None
    else
      var last := updates[|updates| - 1];
      if last.ApiKeyCommand? && Join(last.args) != "" then Some(Join(last.args))
      else LatestKey(updates[..|updates| - 1])
  }

  lemma {:induction false} RunAppend(data: UserData, updates: seq<Update>, u: Update)
    ensures Run(data, updates + [u]) == Step(Run(data, updates), u).data
    decreases |updates|
  {
    if updates == [] {
      assert [u][1..] == [];
    } else {
      assert (updates + [u])[1..] == updates[1..] + [u];
      RunAppend(Step(data, updates[0]).data, updates[1..], u);
    }
  }

  /**
   * Over any sequence of updates the stored key is the last successfully set
   * one (or the earlier key if none was set), and no other entry of the data
   * bag changes; text is echoed afterwards exactly when a key is held.
   */
  lemma {:induction false} RunKeepsLatestKey(data: UserData, updates: seq<Update>, text: string)
    ensures Run(data, updates) - {ApiKeyField} == data - {ApiKeyField}
    ensures LatestKey(updates).None? ==> Run(data, updates) == data
    ensures LatestKey(updates).Some? ==>
              ApiKeyField in Run(data, updates) && Run(data, updates)[ApiKeyField] == LatestKey(updates).value
    ensures (MessageHandler(Run(data, updates), text) == EchoPrefix + text)
              <==> (LatestKey(updates).Some? || ApiKeyProvided(data))
    decreases |updates|
  {
    if updates != [] {
      var prefix := updates[..|updates| - 1];
      var last := updates[|updates| - 1];
      assert updates == prefix + [last];
      RunKeepsLatestKey(data, prefix, text);
      RunAppend(data, prefix, last);
    }
  }

  /** `ChatGPTBot`: the data bags of all users, and the key store it builds but never uses. */
  class ChatGPTBot {
    const dbService: Database.UserDatabaseService
    var userData: map<UsersTable.UserId, UserData>

    /**
     * `ChatGPTBot(token)`: builds the key store over "user_data.db" with the
     * encryption key (read from the environment in the source), which keeps
     * the rows already stored; every user's data bag starts empty.
     */
    constructor (dbEncryptionKey: Fernet.Key, userDb: UsersTable.DatabaseFile)
      requires userDb.Valid() && userDb.name == Database.UserDbName
      modifies userDb
      ensures userData == map[]
      ensures dbService.db == userDb && dbService.fernet == dbEncryptionKey && dbService.Valid()
      ensures userDb.users == old(userDb.users)
    {
      dbService := new Database.UserDatabaseService(dbEncryptionKey, userDb);
      userData := map[];
    }

    /** A user's data bag; one the bot has not seen yet is empty. */
    function DataOf(user: UsersTable.UserId): (data: UserData)
      reads this
    {
      if user in userData then userData[user] else map[]
    }

    /** `_set_api_key_handler` on `user`'s data bag; every other user's bag is untouched. */
    method SetApiKeyHandler(user: UsersTable.UserId, args: seq<string>) returns (reply: string)
      modifies this
      ensures reply == SetApiKey(old(DataOf(user)), args).reply
      ensures Join(args) == "" ==> userData == old(userData)
      ensures Join(args) != "" ==> userData == old(userData)[user := SetApiKey(old(DataOf(user)), args).data]
      ensures forall v :: v != user ==> DataOf(v) == old(DataOf(v))
    {
      var apiKey := Join(args);
      if apiKey == "" {
        reply := SomethingWentWrongMessage + " " + ApiKeyRequestMessage;
      } else {
        userData := userData[user := DataOf(user)[ApiKeyField := apiKey]];
        reply := ApiKeySetMessage;
      }
    }

    /** Routes one update from `user` to its handler, as registered at bot.py:33-35. */
    method HandleUpdate(user: UsersTable.UserId, u: Update) returns (reply: string)
      modifies this
      ensures reply == Step(old(DataOf(user)), u).reply
      ensures DataOf(user) == Step(old(DataOf(user)), u).data
      ensures !u.ApiKeyCommand? ==> userData == old(userData)
      ensures forall v :: v != user ==> DataOf(v) == old(DataOf(v))
    {
      match u
      case StartCommand =>
        reply := StartHandler(DataOf(user));
      case ApiKeyCommand(args) =>
        reply := SetApiKeyHandler(user, args);
      case TextMessage(text) =>
        reply := MessageHandler(DataOf(user), text);
    }
  }

}
