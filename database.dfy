/**
 * `UserDatabase`: the three flat-file stores of the application. Each JSON
 * file becomes one field holding the whole collection; every operation reads
 * the field, changes the loaded copy and writes it back, as `load_data` and
 * `save_data` do with the files. A missing file is the empty map the
 * constructor starts from.
 */
module Database {
  import opened Wrappers
  import opened Text
  import Credentials
  import Context
  import Conversations

  /** Every user's conversation ids are unique. */
  ghost predicate ConversationsValid(store: map<String, seq<Conversations.Conversation>>)
  {
    forall u :: u in store ==> Conversations.UniqueIds(store[u])
  }

  /** Every user's context record is within its bounds. */
  ghost predicate ContextValid(store: Context.ContextStore)
  {
    forall u :: u in store ==> Context.WellFormed(store[u])
  }

  class UserDatabase {
    /** The password digest (`hashlib.sha256(...).hexdigest()`), left abstract. */
    const hash: String -> String

    /** users_data.json */
    var users: Credentials.UserTable
    /** conversations_data.json */
    var conversations: map<String, seq<Conversations.Conversation>>
    /** user_context.json */
    var context: Context.ContextStore

    /** What every operation keeps: ids unique within each user's list, and
        every context record within its bounds. */
    ghost predicate Valid()
      reads this
    {
      ConversationsValid(conversations) && ContextValid(context)
    }

    constructor (hash: String -> String)
      ensures Valid()
      ensures this.hash == hash
      ensures users == map[] && conversations == map[] && context == map[]
    {
      this.hash := hash;
      users := map[];
      conversations := map[];
      context := map[];
    }

    /** `hash_password`. */
    function HashPassword(password: String): String
    {
      hash(password)
    }

    /** `verify_user`: false for an unknown user, otherwise whether the stored
        digest equals the digest of the password. */
    function VerifyUser(username: String, password: String): (ok: bool)
      reads this
      ensures username !in users ==> !ok
      ensures username in users ==> (ok <==> users[username].passwordHash == HashPassword(password))
    {
      Credentials.Verify(users, username, HashPassword(password))
    }

    /** `create_user`: refuses an existing name and leaves the table alone,
        otherwise stores the new record under exactly that name. */
    method CreateUser(username: String, password: String, now: int) returns (ok: bool)
      requires Valid()
      modifies this
      ensures Valid()
      ensures (ok, users) == Credentials.Register(old(users), username, HashPassword(password), now)
      ensures conversations == old(conversations) && context == old(context)
    {
      var loaded := users;
      if username in loaded {
        return false;
      }
      loaded := loaded[username := Credentials.UserRecord(HashPassword(password), now, Credentials.DefaultPreferences)];
      users := loaded;
      return true;
    }

    /** `get_user_conversations`: the user's records created in the last seven
        days, in stored order; nothing that is not stored. */
    function GetUserConversations(username: String, now: int): (r: seq<Conversations.Conversation>)
      reads this
      ensures forall c :: c in r <==>
        username in conversations && c in conversations[username] && c.createdAt > now - Conversations.SevenDays
    {
      Conversations.Recent(Conversations.ListOf(conversations, username), now)
    }

    /** `save_conversation`: locate the first record with that id (`next(...)`),
        update it in place, or append a new record. */
    method SaveConversation(username: String, convId: String, messages: seq<Conversations.Message>, title: String, now: int)
      requires Valid()
      modifies this
      ensures Valid()
      ensures conversations == old(conversations)[username :=
        Conversations.Save(Conversations.ListOf(old(conversations), username), convId, messages, title, now)]
      ensures users == old(users) && context == old(context)
    {
      var loaded := conversations;
      if username !in loaded {
        loaded := loaded[username := []];
      }
      var list := loaded[username];
      assert list == Conversations.ListOf(old(conversations), username);
      var i := 0;
      while i < |list| && list[i].id != convId
        invariant 0 <= i <= |list|
        invariant forall j :: 0 <= j < i ==> list[j].id != convId
      {
        i := i + 1;
      }
      if i < |list| {
        assert Conversations.FindById(list, convId) == Some(i);
        list := list[i := list[i].(messages := messages, updatedAt := now)];
      } else {
        list := list + [Conversations.Conversation(convId, title, messages, now, now)];
      }
      Conversations.SaveKeepsIdsUnique(loaded[username], convId, messages, title, now);
      loaded := loaded[username := list];
      conversations := loaded;
    }

    /** `delete_conversation`: filter the user's list by id; an unknown user
        leaves the store as it was. */
    method DeleteConversation(username: String, convId: String)
      requires Valid()
      modifies this
      ensures Valid()
      ensures username in old(conversations) ==>
        conversations == old(conversations)[username := Conversations.Delete(old(conversations)[username], convId)]
      ensures username !in old(conversations) ==> conversations == old(conversations)
      ensures users == old(users) && context == old(context)
    {
      var loaded := conversations;
      if username in loaded {
        Conversations.DeleteKeepsIdsUnique(loaded[username], convId);
        loaded := loaded[username := Conversations.Delete(loaded[username], convId)];
        conversations := loaded;
      }
    }

    /** `get_user_context`: always a record; the zero record for an unknown user. */
    function GetUserContext(username: String): (r: Context.ContextRecord)
      reads this
      ensures username !in context ==> r == Context.Zero
      ensures username in context ==> r == context[username]
      ensures Valid() ==> Context.WellFormed(r)
    {
      Context.Get(context, username)
    }

    /** `update_user_context`: append the truncated message, keep the last 50
        topics, count the interaction, record its time; other users untouched. */
    method UpdateUserContext(username: String, message: String, now: int)
      requires Valid()
      modifies this
      ensures Valid()
      ensures context == Context.Update(old(context), username, message, now)
      ensures users == old(users) && conversations == old(conversations)
    {
      var loaded := context;
      if username !in loaded {
        loaded := loaded[username := Context.Zero];
      }
      var rec := loaded[username];
      var topics := rec.topics + [Context.Snippet(message, now)];
      topics := LastN(topics, Context.MaxTopics);
      rec := rec.(topics := topics, interactionCount := rec.interactionCount + 1, lastInteraction := Some(now));
      Context.UpdatedWellFormed(loaded[username], message, now);
      loaded := loaded[username := rec];
      context := loaded;
    }
  }
}
