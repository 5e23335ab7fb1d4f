# Iyyappan chatbot: the stores and the turn rules, in Dafny

The application is a Streamlit chat front end. Apart from rendering and the
calls into the hosted language model, its logic is the `UserDatabase` class
in `app.py` plus a few rules in `login_page` and `main_app`. `UserDatabase`
keeps three JSON files: the credential table, the per-user context record
and the per-user list of saved conversations. This project models that logic
and proves what it promises.

- `wrappers.dfy`: `Option`, used wherever the source uses `None`.
- `text.dfy`: the Python string and list operations the rules rely on.
  These are `s[:n]`, `s[-n:]`, `str.strip()`, `str.lower()` and `str.join`.
- `credentials.dfy`: the user table, with `create_user` as `Register` and
  `verify_user` as `Verify`.
- `context.dfy`: the context record. It keeps a FIFO window of the last 50
  topic snippets of at most 100 characters, an interaction counter and the
  last interaction time. It also has the "Previous context" preamble that
  `init_llm` builds from the newest five topics.
- `conversations.dfy`: one user's list of conversation records. It covers
  saving (update by id or append), deleting (filter by id) and the 7-day
  recency filter.
- `database.dfy`: the `UserDatabase` class. Each JSON file is one field
  holding the whole collection. Every method reads the field, changes the
  loaded copy and writes it back, as `load_data`/`save_data` do. Each method
  is proved against the functions of the three modules above. The class
  invariant is that ids are unique within each user's list and every
  context record is within its bounds.
- `session.dfy`: the sign-up checks, run in their fixed order; the sign-in
  branch; the canned-reply trigger; the title rule; and one chat turn on a
  `ChatSession` class that stands for `st.session_state`. It ends with the
  end-to-end scenario: sign up "a@x.com"/"secret1", sign in, send "Hello".

Time is an integer count of microseconds, the resolution of the ISO-8601
strings the application writes, so seven days is 604 800 000 000. The
password digest (`hashlib.sha256(...).hexdigest()`) is a function value
given to the `UserDatabase` constructor. The model's reply and the
timestamp-derived conversation id are parameters of a turn.

In `save_conversation` (app.py:82-84) an update changes only `messages` and
`updated_at`, so the "Chat" title that `main_app` passes on later turns is
ignored and the stored title stays the one from the first save;
`Session.TitleSurvivesLaterTurns` proves this.

## Model

| member | source | states |
|---|---|---|
| Text.Prefix | app.py:123 | `s[:n]` has length min(\|s\|, n) and is a prefix of s |
| Text.LastN | app.py:127 | `s[-n:]` has length min(\|s\|, n) and is the suffix of s of that length |
| Text.LastNAppend | app.py:122-127 | appending to a list already cut to its last n entries and cutting again is the same as cutting the whole history: a bounded FIFO window |
| Text.LastNIdempotent | app.py:127 | cutting to the last n entries twice is cutting once |
| Text.TrimStart | app.py:758 | `lstrip()` removes a prefix made only of whitespace and leaves a result that is empty or starts with non-whitespace |
| Text.TrimEnd | app.py:758 | `rstrip()` removes a suffix made only of whitespace and leaves a result that is empty or ends with non-whitespace |
| Text.Strip | app.py:758 | the result of `strip()` is no longer than the input and has no whitespace at either end |
| Text.StripNoOp | app.py:758 | a string without whitespace at its ends is unchanged by `strip()` |
| Text.TrimStartPadding | app.py:758 | leading whitespace is exactly what `lstrip()` removes |
| Text.TrimEndPadding | app.py:758 | trailing whitespace is exactly what `rstrip()` removes |
| Text.StripPadding | app.py:758 | `strip()` undoes any whitespace padding around a string with no whitespace at its ends |
| Text.LowerChar | app.py:758 | a capital A-Z is mapped to its small letter; every other character is unchanged |
| Text.Lower | app.py:758 | the model's lower case (A-Z only) keeps the length and lowers each character in place |
| Text.LowerCharFacts | app.py:758 | lowering neither creates nor removes whitespace and is idempotent |
| Text.LowerOfLowercase | app.py:758 | a string without capitals is its own lower case |
| Text.IsSpace | app.py:758 | the whitespace set of Python's `str.isspace()`: the characters `strip()` removes; its properties are carried by `Text.TrimStart`, `Text.TrimEnd` and `Text.StripPadding` |
| Text.Normalize | app.py:758 | `strip().lower()`; `Text.NormalizeIdempotent` and `Session.TriggerPadded` carry its properties |
| Text.Join | app.py:622 | `"; ".join(...)` over the recent topic messages; `Context.SummaryUsesNewestFive` carries what the preamble built with it depends on |
| Text.NormalizeIdempotent | app.py:758 | `strip().lower()` applied twice equals applying it once |
| Credentials.Register | app.py:48-62 | for a name already present: false and the table unchanged; for a new name: true and exactly that key added, holding the digest, the time and the default preferences; every other entry kept |
| Credentials.Verify | app.py:42-46 | `verify_user` on the loaded table; its properties are carried by `Credentials.UnknownUserRejected`, `Credentials.RegisterThenVerify`, `Credentials.RegisterThenWrongPassword` and `Credentials.RegisterKeepsOthers` |
| Credentials.UnknownUserRejected | app.py:42-46 | an unknown user never verifies, whatever the password |
| Credentials.RegisterThenVerify | app.py:42-62 | straight after a successful `create_user(u, p)`, `verify_user(u, p)` is true |
| Credentials.RegisterThenWrongPassword | app.py:42-62 | after `create_user(u, p)`, a password whose digest differs does not verify |
| Credentials.RegisterTwice | app.py:48-62 | a second registration of the same name fails, leaves the table unchanged and the first password still verifies |
| Credentials.RegisterKeepsOthers | app.py:48-62 | registering one name never changes whether another user verifies |
| Context.Snippet | app.py:122-125 | a topic keeps exactly the first min(100, length) characters of the message, so the whole message when it is shorter, and the current time |
| Context.Get | app.py:102-109 | `get_user_context` is total: the stored record for a known user, the zero record (no topics, count 0, no last interaction) otherwise |
| Context.Updated | app.py:121-129 | one interaction on one record; `Context.UpdatedFacts`, `Context.UpdatedWindow` and `Context.UpdatedWellFormed` carry its properties |
| Context.Update | app.py:111-131 | `update_user_context` on the loaded store; `Context.UpdateTouchesOnlyUser` carries its properties |
| Context.UpdatedFacts | app.py:121-129 | after one update the topics are the last min(50, n+1) entries of the old topics followed by the new snippet; the snippet is last; the count is one higher; the last interaction is now |
| Context.UpdatedWindow | app.py:122-127 | below 50 topics nothing is dropped; at 50 exactly the oldest topic is dropped |
| Context.UpdatedWellFormed | app.py:122-127 | an update keeps at most 50 topics, each of at most 100 characters |
| Context.PutTouchesOnlyKey | app.py:113-119 | storing a user's record under its name adds at most that key and leaves every other user's entry unchanged |
| Context.UpdateTouchesOnlyUser | app.py:111-131 | `update_user_context` creates the user's record when absent, replaces only that record and leaves every other user's record unchanged |
| Context.ReplayStep | app.py:122-127 | the induction step of the window property, on topic lists alone |
| Context.ReplayKeepsNewest | app.py:111-131 | after any run of updates the topics are the newest 50 of the old topics followed by all new snippets, in insertion order, and the count went up once per update |
| Context.FromZero | app.py:102-131 | from the zero record, any run of updates leaves exactly the newest 50 snippets, and the count equals the number of updates |
| Context.Summary | app.py:620-622 | the "Previous context: " preamble of `init_llm`; `Context.SummaryUsesNewestFive` carries its properties |
| Context.SummaryUsesNewestFive | app.py:620-622 | the "Previous context" preamble exists iff there are topics, and it depends only on the newest five |
| Conversations.ListOf | app.py:66 | a user's stored list, or the empty list for an unknown user |
| Conversations.FindById | app.py:81 | `next(...)`: None iff no record has the id; otherwise the index of the first record with it |
| Conversations.Save | app.py:75-94 | an id already present keeps the record count; a new id appends exactly one record after the unchanged old ones |
| Conversations.SaveExisting | app.py:81-84 | updating an existing id replaces only that record's messages and update time; its title and creation time, and every other record, stay as they were |
| Conversations.SaveNew | app.py:85-92 | a new id appends one record with the given title, the messages and both timestamps set to now |
| Conversations.SaveKeepsIdsUnique | app.py:75-94 | saving keeps the ids unique and leaves exactly one record with the saved id |
| Conversations.SaveTwice | app.py:75-94 | saving one new id twice gives one record with the second messages, the first title and creation time, and the second update time |
| Conversations.Delete | app.py:96-100 | the result holds exactly the stored records whose id differs from the deleted one |
| Conversations.DeleteAppend | app.py:99 | deletion works record by record, so the remaining records keep their relative order |
| Conversations.DeleteAbsent | app.py:96-100 | deleting an id that is not stored changes nothing |
| Conversations.DeleteOne | app.py:96-100 | with unique ids, deleting a present id removes exactly that one record |
| Conversations.DeleteKeepsIdsUnique | app.py:99 | deletion keeps the ids unique |
| Conversations.Recent | app.py:64-73 | the result holds exactly the stored records created strictly after now minus 7 days, and nothing else |
| Conversations.RecentAppend | app.py:69-72 | the filter works record by record, so the stored order is kept |
| Conversations.RecentKeepsIdsUnique | app.py:69-72 | the filtered list keeps the ids unique |
| Conversations.RecentLater | app.py:64-73 | the window is relative to the query time: filtering an earlier query's result at a later time gives the later query's result |
| Conversations.RecentWindowExamples | app.py:68-72 | a record created 8 days ago is hidden and one created an hour ago is shown |
| Database.UserDatabase.constructor | app.py:23-33 | a new database starts with three empty collections, as a missing file loads as `{}` |
| Database.UserDatabase.HashPassword | app.py:39-40 | `hash_password`: the digest function given to the constructor, left abstract; `Database.UserDatabase.VerifyUser` and `Database.UserDatabase.CreateUser` state how its value is stored and compared |
| Database.UserDatabase.VerifyUser | app.py:42-46 | false for an unknown user; otherwise true iff the stored digest equals the digest of the password |
| Database.UserDatabase.CreateUser | app.py:48-62 | the result and the new user table are those of `Register` on the old table; the other stores are unchanged |
| Database.UserDatabase.GetUserConversations | app.py:64-73 | returns exactly the user's stored records created in the last 7 days, never one that is not stored |
| Database.UserDatabase.SaveConversation | app.py:75-94 | the user's list becomes `Save` of the old list, created empty if absent; other users and stores are unchanged; ids stay unique |
| Database.UserDatabase.DeleteConversation | app.py:96-100 | the user's list becomes `Delete` of the old list; an unknown user leaves the store exactly as it was |
| Database.UserDatabase.GetUserContext | app.py:102-109 | always a record: the stored one, or the zero record for an unknown user; it is within its bounds |
| Database.UserDatabase.UpdateUserContext | app.py:111-131 | the context store becomes `Update` of the old one; the other stores are unchanged; every record stays within its bounds |
| Session.CheckSignUp | app.py:563-570 | the checks fail in order: blank field, then terms, then mismatch, then length < 6; each error is reported exactly when every earlier check passed and its own fails |
| Session.AcceptedSignUp | app.py:563-571 | a sign-up that passes the checks has a non-blank name, accepted terms and a confirmed password of at least 6 characters |
| Session.SignUp | app.py:562-577 | a failed check is reported without touching the store; only when all pass is `create_user` called, and a taken name is reported as such |
| Session.ChatSession.SignIn | app.py:532-543 | blank fields are refused before the store is read; otherwise sign-in succeeds iff the credentials verify, and only then are the logged-in flag and the user name set |
| Session.IsTrigger | app.py:758-761 | the trigger test `strip().lower() == "who is iyyappan"`; `Session.Reply`, `Session.TriggerIgnoresForm`, `Session.TriggerPadded` and `Session.NotTriggerByLength` carry its properties |
| Session.Reply | app.py:757-767 | the reply is the canned profile text iff `strip().lower()` of the input is "who is iyyappan", otherwise the model's reply |
| Session.TriggerIgnoresForm | app.py:758-761 | normalizing the input first never changes whether the canned reply fires |
| Session.TriggerPadded | app.py:758-761 | the phrase in any capitalisation with any whitespace around it triggers the canned reply |
| Session.NotTriggerByLength | app.py:758-761 | an input whose stripped form is not 15 characters long never triggers |
| Session.Title | app.py:773 | the first 30 characters of the input iff the history has exactly 2 entries, otherwise "Chat" |
| Session.TitleSurvivesLaterTurns | app.py:81-84 | a later turn on a saved conversation never changes its stored title or creation time, whatever title it passes |
| Session.ChatSession.constructor | app.py:587-604 | a new session is logged out, with no user, no conversation id, an empty history and the default model |
| Session.ChatSession.ChooseReply | app.py:757-767 | the chosen response is `Reply` of the input |
| Session.ChatSession.RecordUserMessage | app.py:754-755 | the history gains the user entry and the context store is updated for the session's user |
| Session.ChatSession.RecordReply | app.py:763-780 | the history gains the assistant entry; an id is minted only when there was none; the conversation is saved under the title rule |
| Session.ChatSession.Turn | app.py:753-780 | an empty input changes nothing; otherwise the history grows by exactly two entries, user then assistant; the context is updated; an id is minted only when there was none; the conversation is saved with the title rule; the user table is unchanged |
| Session.SignedInNewUser | app.py:532-577 | signing up "a@x.com"/"secret1" with terms accepted on an empty store, then signing in, gives a logged-in session with an empty history |
| Session.HelloIsNotTrigger | app.py:758-761 | the message "Hello" does not select the canned reply |
| Session.NotTriggerPlain | app.py:758-761 | a message without whitespace at its ends whose length differs from the phrase's never selects the canned reply |
| Session.HelloTurn | app.py:753-780 | that user's first message "Hello" gives the history [(user, "Hello"), (assistant, reply)], a freshly minted id, one stored record titled "Hello" and an interaction count of 1 |

## Left out

- Streamlit rendering is not modelled: the CSS, columns, tabs, forms, the sidebar metrics, the "Last seen" text, `st.rerun` and `time.sleep` (app.py:13-19, app.py:157-584, app.py:634-742). This includes the sidebar actions Logout, New Chat, Clear Chat, load conversation and the delete button; the delete operation itself is modelled.
- The language-model layer is not modelled: `ChatGroq`, `ConversationChain`, `ConversationBufferMemory` and `predict` (app.py:606-632, app.py:766). The model's reply is an opaque parameter of a turn, and a failure of that call is not modelled. The preamble that seeds the memory is modelled as `Context.Summary`.
- The JSON encoding and the file I/O of `load_data`/`save_data` (app.py:28-37) are not modelled. Each file is a field of `UserDatabase`, written whole by each operation. A read or write failure other than a missing file is not modelled, and neither are concurrent writers.
- SHA-256 is not modelled: the digest is an arbitrary function from the password to a string, fixed when the database is built.
- `datetime.now()` is an integer parameter, one reading per operation. The source reads the clock separately for `created_at` and `updated_at` in `save_conversation` (app.py:90-91), for the topic timestamp and `last_interaction` in `update_user_context` (app.py:124, app.py:129), and again for each store call of a turn (app.py:755, app.py:775). The model uses one `now` for all of these, so the equality of those timestamps in `Context.UpdatedFacts` and `Session.ChatSession.Turn` holds of the model, not of the running program, where they can differ by microseconds.
- The default title `"New Chat"` of `save_conversation` (app.py:75) is not modelled: every call site passes a title.
- The conversation id minted from `datetime.now().isoformat()` (app.py:771) is a parameter of the turn. Nothing is assumed about its uniqueness.
- The empty `preferences` bag of a context record (app.py:106, app.py:116) is not modelled; nothing reads or writes it.
- The temperature slider, the `MODELS` table and the file-upload echo are not modelled (app.py:137-141, app.py:669, app.py:748-751, app.py:784-785).
- Database.UserDatabase.constructor: starts from empty collections, as with missing files. Files that already hold data, possibly with duplicate conversation ids, are not modelled.
- Text.LowerChar, Text.Lower: lower only the capitals A-Z, not every character Python's `str.lower()` changes. The trigger decision is still exact. Python lowers every other character either to itself or to text holding a non-ASCII character, except the Kelvin sign, which becomes "k"; "k" does not occur in "who is iyyappan".
