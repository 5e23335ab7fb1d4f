/**
 * The rules in `login_page` and `main_app` that are not rendering: the
 * sign-up and sign-in checks, the canned reply, the title rule and one chat
 * turn. The language-model reply is an opaque string the caller supplies.
 */
module Session {
  import opened Wrappers
  import opened Text
  import Credentials
  import Context
  import Conversations
  import opened Database

  /** The normalized input that selects the canned reply. */
  const TriggerPhrase: String := "who is iyyappan"

  /** `IYYAPPAN_PROFILE_RESPONSE`, verbatim. */
  const ProfileResponse: String :=
    "\n"
    + "Iyyappan is an aspiring AI and Software Developer with a strong interest in building intelligent, user-centric applications.\n"
    + "\n"
    + "He is the creator of this AI assistant, designed to provide smart, efficient, and user-friendly interactions.\n"
    + "\n"
    + "He works extensively with Python, Streamlit, LangChain, Groq LLMs, and modern web technologies, focusing on developing AI-powered tools such as chatbots, learning platforms, and productivity applications.\n"
    + "\n"
    + "Currently, Iyyappan is focused on strengthening his expertise in Artificial Intelligence, Full-Stack Development, and system design, with the objective of building scalable, real-world solutions that enhance learning and work efficiency.\n"
    + "\n"
    + "He values clean architecture, practical problem-solving, and continuous professional growth.\n"

  /** A conversation title keeps at most this many characters of the first message. */
  const TitleLength: nat := 30
  /** The title given to a record first saved after a turn other than the first. */
  const PlaceholderTitle: String := "Chat"
  /** Passwords shorter than this are refused at sign-up. */
  const MinPasswordLength: nat := 6
  /** The model selected when a session starts. */
  const DefaultModel: String := "llama-3.3-70b-versatile"

  datatype SignUpError = MissingFields | TermsNotAccepted | PasswordMismatch | PasswordTooShort | UserExists

  datatype SignInError = BlankCredentials | InvalidCredentials

  /** The sign-up checks of `login_page`, in their order: the first that fails decides. */
  function CheckSignUp(email: String, password: String, confirm: String, terms: bool): (r: Option<SignUpError>)
    ensures r == Some(MissingFields) <==> (email == [] || password == [] || confirm == [])
    ensures r == Some(TermsNotAccepted) <==> email != [] && password != [] && confirm != [] && !terms
    ensures r == Some(PasswordMismatch) <==> email != [] && password != [] && confirm != [] && terms && password != confirm
    ensures r == Some(PasswordTooShort) <==>
      email != [] && password != [] && confirm != [] && terms && password == confirm && |password| < MinPasswordLength
    ensures r != Some(UserExists)
  {
    if email == [] || password == [] || confirm == [] then Some(MissingFields)
    else if !terms then Some(TermsNotAccepted)
    else if password != confirm then Some(PasswordMismatch)
    else if |password| < MinPasswordLength then Some(PasswordTooShort)
    else None
  }

  /** A sign-up that passes the checks has a confirmed password of at least six characters. */
  lemma AcceptedSignUp(email: String, password: String, confirm: String, terms: bool)
    requires CheckSignUp(email, password, confirm, terms) == None
    ensures email != [] && terms && password == confirm && |password| >= MinPasswordLength
  {
  }

  /** The sign-up branch of `login_page`: the checks first, and only when all
      pass, `create_user`; a taken name is reported as such. */
  method SignUp(db: UserDatabase, email: String, password: String, confirm: String, terms: bool, now: int)
    returns (err: Option<SignUpError>)
    requires db.Valid()
    modifies db
    ensures db.Valid()
    ensures CheckSignUp(email, password, confirm, terms).Some? ==>
      err == CheckSignUp(email, password, confirm, terms) && db.users == old(db.users)
    ensures CheckSignUp(email, password, confirm, terms).None? ==>
      (err == None, db.users) == Credentials.Register(old(db.users), email, db.HashPassword(password), now)
    ensures err.Some? && err != CheckSignUp(email, password, confirm, terms) ==> err == Some(UserExists)
    ensures db.conversations == old(db.conversations) && db.context == old(db.context)
  {
    err := CheckSignUp(email, password, confirm, terms);
    if err.None? {
      var created := db.CreateUser(email, password, now);
      if !created {
        err := Some(UserExists);
      }
    }
  }

  /** Whether the canned reply fires: `strip().lower()` of the input is the trigger phrase. */
  predicate IsTrigger(input: String)
  {
    Normalize(input) == TriggerPhrase
  }

  /** The reply for one turn: the canned `profile` text iff the input is the
      trigger, otherwise the model's reply. */
  function Reply(profile: String, input: String, modelReply: String): (r: String)
    ensures IsTrigger(input) ==> r == profile
    ensures !IsTrigger(input) ==> r == modelReply
  {
    if IsTrigger(input) then profile else modelReply
  }

  /** Whether the canned reply fires does not depend on surrounding whitespace or case. */
  lemma {:induction false} TriggerIgnoresForm(input: String)
    ensures IsTrigger(Normalize(input)) == IsTrigger(input)
  {
    NormalizeIdempotent(input);
  }

  /** Any whitespace around it and any capitalisation of it: the input
      still triggers. */
  lemma {:induction false} TriggerPadded(pre: String, core: String, post: String)
    requires forall i :: 0 <= i < |pre| ==> IsSpace(pre[i])
    requires forall i :: 0 <= i < |post| ==> IsSpace(post[i])
    requires Lower(core) == TriggerPhrase
    ensures IsTrigger(pre + core + post)
  {
    assert |core| == 15;
    LowerCharFacts(core[0]);
    LowerCharFacts(core[14]);
    assert Lower(core)[0] == 'w' && Lower(core)[14] == 'n';
    StripPadding(pre, core, post);
  }

  /** A message whose stripped form is not as long as the phrase never triggers. */
  lemma {:induction false} NotTriggerByLength(input: String)
    requires |Strip(input)| != |TriggerPhrase|
    ensures !IsTrigger(input)
  {
  }

  /** The title passed to `save_conversation`: the first 30 characters of the
      input when the history holds exactly this turn, the placeholder otherwise. */
  function Title(input: String, historyLength: nat): (r: String)
    ensures historyLength == 2 ==> r == Prefix(input, TitleLength)
    ensures historyLength == 2 ==> |r| <= TitleLength && r <= input
    ensures historyLength != 2 ==> r == PlaceholderTitle
  {
    if historyLength == 2 then Prefix(input, TitleLength) else PlaceholderTitle
  }

  /** The `st.session_state` of one browser session. */
  class ChatSession {
    const db: UserDatabase
    /** The canned reply to the trigger phrase. */
    const profile: String
    var loggedIn: bool
    var username: Option<String>
    var currentConvId: Option<String>
    var chatHistory: seq<Conversations.Message>
    var selectedModel: String

    /** `init_session_state`. */
    constructor (db: UserDatabase)
      ensures this.db == db && profile == ProfileResponse
      ensures !loggedIn && username == None && currentConvId == None
      ensures chatHistory == [] && selectedModel == DefaultModel
    {
      this.db := db;
      profile := ProfileResponse;
      loggedIn := false;
      username := None;
      currentConvId := None;
      chatHistory := [];
      selectedModel := DefaultModel;
    }

    /** The sign-in branch of `login_page`: blank fields are refused before the
        store is read; an unknown user and a wrong password look the same. */
    method SignIn(email: String, password: String) returns (err: Option<SignInError>)
      modifies this`loggedIn, this`username
      ensures err == Some(BlankCredentials) <==> (email == [] || password == [])
      ensures err == None <==>
        email != [] && password != [] && Credentials.Verify(db.users, email, db.HashPassword(password))
      ensures err == None ==> loggedIn && username == Some(email)
      ensures err != None ==> loggedIn == old(loggedIn) && username == old(username)
    {
      if email == [] || password == [] {
        return Some(BlankCredentials);
      }
      if db.VerifyUser(email, password) {
        loggedIn := true;
        username := Some(email);
        err := None;
      } else {
        err := Some(InvalidCredentials);
      }
    }

    /** One turn of `main_app`: record the user message and the context
        update, choose the reply, record it, mint a conversation id only when
        there is none, and save the conversation. An empty input does nothing. */
    method Turn(userInput: String, modelReply: String, now: int, mintedId: String)
      requires db.Valid()
      requires loggedIn && username.Some?
      modifies this`chatHistory, this`currentConvId, db
      ensures db.Valid()
      ensures db.users == old(db.users)
      ensures userInput == [] ==>
        && chatHistory == old(chatHistory) && currentConvId == old(currentConvId)
        && db.conversations == old(db.conversations) && db.context == old(db.context)
      ensures userInput != [] ==>
        chatHistory == old(chatHistory)
          + [Conversations.Message(Conversations.User, userInput),
             Conversations.Message(Conversations.Assistant, Reply(profile, userInput, modelReply))]
      ensures userInput != [] ==>
        currentConvId == (if old(currentConvId).None? then Some(mintedId) else old(currentConvId))
      ensures userInput != [] ==> db.context == Context.Update(old(db.context), username.value, userInput, now)
      ensures userInput != [] ==> db.conversations == old(db.conversations)[username.value :=
        Conversations.Save(Conversations.ListOf(old(db.conversations), username.value),
          currentConvId.value, chatHistory, Title(userInput, |chatHistory|), now)]
    {
      if userInput == [] {
        return;
      }
      RecordUserMessage(userInput, now);
      var response := ChooseReply(userInput, modelReply);
      RecordReply(userInput, response, now, mintedId);
    }

    /** The canned-reply check of a turn. */
    method ChooseReply(userInput: String, modelReply: String) returns (response: String)
      ensures response == Reply(profile, userInput, modelReply)
    {
      var normalized := Lower(Strip(userInput));
      if normalized == TriggerPhrase {
        response := profile;
      } else {
        response := modelReply;
      }
    }

    /** The first half of a turn: the user entry and the context update. */
    method RecordUserMessage(userInput: String, now: int)
      requires db.Valid()
      requires username.Some?
      modifies this`chatHistory, db
      ensures db.Valid()
      ensures chatHistory == old(chatHistory) + [Conversations.Message(Conversations.User, userInput)]
      ensures db.context == Context.Update(old(db.context), username.value, userInput, now)
      ensures db.users == old(db.users) && db.conversations == old(db.conversations)
    {
      chatHistory := chatHistory + [Conversations.Message(Conversations.User, userInput)];
      db.UpdateUserContext(username.value, userInput, now);
    }

    /** The second half of a turn: the assistant entry, the conversation id
        and the save under the title rule. */
    method RecordReply(userInput: String, response: String, now: int, mintedId: String)
      requires db.Valid()
      requires username.Some?
      modifies this`chatHistory, this`currentConvId, db
      ensures db.Valid()
      ensures chatHistory == old(chatHistory) + [Conversations.Message(Conversations.Assistant, response)]
      ensures currentConvId == (if old(currentConvId).None? then Some(mintedId) else old(currentConvId))
      ensures db.conversations == old(db.conversations)[username.value :=
        Conversations.Save(Conversations.ListOf(old(db.conversations), username.value),
          currentConvId.value, chatHistory, Title(userInput, |chatHistory|), now)]
      ensures db.users == old(db.users) && db.context == old(db.context)
    {
      chatHistory := chatHistory + [Conversations.Message(Conversations.Assistant, response)];
      if currentConvId.None? {
        currentConvId := Some(mintedId);
      }
      var title := if |chatHistory| == 2 then Prefix(userInput, TitleLength) else PlaceholderTitle;
      db.SaveConversation(username.value, currentConvId.value, chatHistory, title, now);
    }
  }

  /** The stored title of a conversation is the one of its first save: later
      turns on the same id never change it, whatever title they pass. */
  lemma {:induction false} TitleSurvivesLaterTurns(convs: seq<Conversations.Conversation>, id: String, messages: seq<Conversations.Message>, title: String, now: int, i: nat)
    requires Conversations.UniqueIds(convs)
    requires i < |convs| && convs[i].id == id
    ensures Conversations.Save(convs, id, messages, title, now)[i].title == convs[i].title
    ensures Conversations.Save(convs, id, messages, title, now)[i].createdAt == convs[i].createdAt
  {
    Conversations.SaveExisting(convs, id, messages, title, now, i);
  }

  /** A new user "a@x.com" signs up with "secret1" on a fresh store and signs
      in to a fresh session: logged in, nothing stored, nothing in the history. */
  method SignedInNewUser(hash: String -> String, t0: int) returns (session: ChatSession)
    ensures fresh(session) && fresh(session.db)
    ensures session.db.Valid()
    ensures session.loggedIn && session.username == Some("a@x.com")
    ensures session.chatHistory == [] && session.currentConvId == None
    ensures session.db.conversations == map[] && session.db.context == map[]
  {
    var db := new UserDatabase(hash);
    var e1 := SignUp(db, "a@x.com", "secret1", "secret1", true, t0);
    assert db.users == map["a@x.com" := Credentials.UserRecord(hash("secret1"), t0, Credentials.DefaultPreferences)];
    session := new ChatSession(db);
    var e2 := session.SignIn("a@x.com", "secret1");
    assert e2 == None;
  }

  /** That user's first message "Hello": the history is the two entries, the
      minted id is used, the stored record is titled "Hello" and the
      interaction count is 1. */
  method HelloTurn(session: ChatSession, modelReply: String, t1: int, mintedId: String)
    returns (stored: seq<Conversations.Conversation>, count: nat)
    requires session.db.Valid()
    requires session.loggedIn && session.username == Some("a@x.com")
    requires session.chatHistory == [] && session.currentConvId == None
    requires session.db.conversations == map[] && session.db.context == map[]
    modifies session`chatHistory, session`currentConvId, session.db
    ensures session.chatHistory == [Conversations.Message(Conversations.User, "Hello"), Conversations.Message(Conversations.Assistant, modelReply)]
    ensures session.currentConvId == Some(mintedId)
    ensures stored == [Conversations.Conversation(mintedId, "Hello", session.chatHistory, t1, t1)]
    ensures count == 1
  {
    HelloIsNotTrigger();
    session.Turn("Hello", modelReply, t1, mintedId);
    ghost var history := session.chatHistory;
    var record := Conversations.Conversation(mintedId, "Hello", history, t1, t1);
    assert Title("Hello", |history|) == "Hello";
    Conversations.SaveNew([], mintedId, history, "Hello", t1);
    assert session.db.conversations == map["a@x.com" := [record]];
    stored := session.db.GetUserConversations("a@x.com", t1);
    assert record in stored;
    count := session.db.GetUserContext("a@x.com").interactionCount;
  }

  /** "Hello" gets the model's reply, not the canned one. */
  lemma HelloIsNotTrigger()
    ensures !IsTrigger("Hello")
  {
    NotTriggerPlain("Hello");
  }

  /** A message with no whitespace at its ends and a length other than the
      phrase's never triggers. */
  lemma {:induction false} NotTriggerPlain(s: String)
    requires s != [] && !IsSpace(s[0]) && !IsSpace(s[|s| - 1])
    requires |s| != |TriggerPhrase|
    ensures !IsTrigger(s)
  {
    StripNoOp(s);
    NotTriggerByLength(s);
  }
}
