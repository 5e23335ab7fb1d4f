/**
 * The per-user context record behind `get_user_context` and
 * `update_user_context`: a bounded FIFO list of topic snippets, an
 * interaction counter and the time of the last interaction.
 */
module Context {
  import opened Wrappers
  import opened Text

  /** At most this many topics are kept (`[-50:]`). */
  const MaxTopics: nat := 50
  /** A topic keeps at most this many characters of its message (`[:100]`). */
  const MaxSnippet: nat := 100
  /** The memory preamble is built from this many recent topics (`[-5:]`). */
  const SummaryTopics: nat := 5

  datatype Topic = Topic(message: String, timestamp: int)

  datatype ContextRecord = ContextRecord(topics: seq<Topic>, interactionCount: nat, lastInteraction: Option<int>)

  type ContextStore = map<String, ContextRecord>

  /** The record of a user who never sent a message. */
  const Zero := ContextRecord([], 0, None)

  /** The shape `update_user_context` maintains. */
  ghost predicate WellFormed(rec: ContextRecord)
  {
    && |rec.topics| <= MaxTopics
    && (forall i :: 0 <= i < |rec.topics| ==> |rec.topics[i].message| <= MaxSnippet)
  }

  /** The topic recorded for a message sent at `now`. */
  function Snippet(message: String, now: int): (t: Topic)
    ensures |t.message| == Min(|message|, MaxSnippet) && t.message <= message
    ensures |message| <= MaxSnippet ==> t.message == message
    ensures t.timestamp == now
  {
    Topic(Prefix(message, MaxSnippet), now)
  }

  /** `get_user_context`: total; the zero record for an unknown user. */
  function Get(store: ContextStore, username: String): (r: ContextRecord)
    ensures username !in store ==> r == Zero
    ensures username in store ==> r == store[username]
  {
    if username in store then store[username] else Zero
  }

  /** One interaction on one record: append the snippet, keep the last 50, count it. */
  function Updated(rec: ContextRecord, message: String, now: int): ContextRecord
  {
    ContextRecord(LastN(rec.topics + [Snippet(message, now)], MaxTopics), rec.interactionCount + 1, Some(now))
  }

  /** After one interaction the topics are the last min(50, n + 1) entries of
      the old list followed by the new snippet, the count is one higher and
      the last interaction is now. */
  lemma {:induction false} UpdatedFacts(rec: ContextRecord, message: String, now: int)
    ensures var r := Updated(rec, message, now);
      && |r.topics| == Min(|rec.topics| + 1, MaxTopics)
      && r.topics[|r.topics| - 1] == Snippet(message, now)
      && r.topics == (rec.topics + [Snippet(message, now)])[|rec.topics| + 1 - |r.topics|..]
      && r.interactionCount == rec.interactionCount + 1
      && r.lastInteraction == Some(now)
  {
  }

  /** `update_user_context` on the loaded store. */
  function Update(store: ContextStore, username: String, message: String, now: int): ContextStore
  {
    store[username := Updated(Get(store, username), message, now)]
  }

  /** An update creates the user's record if needed, changes only that record,
      and leaves every other user's record as it was. */
  lemma {:induction false} UpdateTouchesOnlyUser(store: ContextStore, username: String, message: String, now: int)
    ensures var r := Update(store, username, message, now);
      && r.Keys == store.Keys + {username}
      && r[username] == Updated(Get(store, username), message, now)
      && (forall u :: u in store && u != username ==> r[u] == store[u])
  {
    PutTouchesOnlyKey(store, username, Updated(Get(store, username), message, now));
  }

  /** Storing one user's record adds at most that key and keeps every other entry. */
  lemma PutTouchesOnlyKey(store: ContextStore, username: String, rec: ContextRecord)
    ensures var r := store[username := rec];
      && r.Keys == store.Keys + {username}
      && r[username] == rec
      && (forall u :: u in store && u != username ==> r[u] == store[u])
  {
  }

  /** The FIFO window: below the cap nothing is dropped; at the cap exactly the oldest is. */
  lemma {:induction false} UpdatedWindow(rec: ContextRecord, message: String, now: int)
    requires WellFormed(rec)
    ensures |rec.topics| < MaxTopics ==> Updated(rec, message, now).topics == rec.topics + [Snippet(message, now)]
    ensures |rec.topics| == MaxTopics ==> Updated(rec, message, now).topics == rec.topics[1..] + [Snippet(message, now)]
  {
  }

  /** An update keeps the record well formed. */
  lemma {:induction false} UpdatedWellFormed(rec: ContextRecord, message: String, now: int)
    requires WellFormed(rec)
    ensures WellFormed(Updated(rec, message, now))
  {
    var s := rec.topics + [Snippet(message, now)];
    var r := Updated(rec, message, now).topics;
    forall i | 0 <= i < |r| ensures |r[i].message| <= MaxSnippet {
      assert r[i] == s[|s| - |r| + i];
    }
  }

  /** A run of interactions, oldest first, each a message and its time. */
  function Replay(rec: ContextRecord, inputs: seq<(String, int)>): ContextRecord
    decreases |inputs|
  {
    if inputs == [] then rec
    else
      var last := inputs[|inputs| - 1];
      Updated(Replay(rec, inputs[..|inputs| - 1]), last.0, last.1)
  }

  /** The snippets a run of interactions records, oldest first. */
  function Snippets(inputs: seq<(String, int)>): seq<Topic>
  {
    seq(|inputs|, i requires 0 <= i < |inputs| => Snippet(inputs[i].0, inputs[i].1))
  }

  /** However many updates are made, the record holds the newest 50 snippets
      in insertion order, and the counter has gone up once per update. */
  lemma {:induction false} ReplayKeepsNewest(rec: ContextRecord, inputs: seq<(String, int)>)
    ensures Replay(rec, inputs).interactionCount == rec.interactionCount + |inputs|
    ensures inputs != [] ==> Replay(rec, inputs).topics == LastN(rec.topics + Snippets(inputs), MaxTopics)
    decreases |inputs|
  {
    if inputs != [] {
      var init := inputs[..|inputs| - 1];
      var last := inputs[|inputs| - 1];
      var t := Snippet(last.0, last.1);
      ReplayKeepsNewest(rec, init);
      assert Snippets(inputs) == Snippets(init) + [t] by {
        var a, b := Snippets(inputs), Snippets(init) + [t];
        assert |a| == |inputs| == |b|;
        forall i | 0 <= i < |inputs| ensures a[i] == b[i] {
          if i < |init| {
            assert inputs[i] == init[i];
          }
        }
      }
      ReplayStep(rec.topics, Snippets(init), Replay(rec, init).topics, t);
    }
  }

  /** The induction step of ReplayKeepsNewest, on the topic lists alone. */
  lemma {:induction false} ReplayStep(base: seq<Topic>, earlier: seq<Topic>, before: seq<Topic>, t: Topic)
    requires earlier == [] ==> before == base
    requires earlier != [] ==> before == LastN(base + earlier, MaxTopics)
    ensures LastN(before + [t], MaxTopics) == LastN(base + (earlier + [t]), MaxTopics)
  {
    assert base + (earlier + [t]) == (base + earlier) + [t];
    if earlier != [] {
      LastNAppend(base + earlier, t, MaxTopics);
    }
  }

  /** Starting from the zero record, the topics after any run of updates are
      exactly the newest 50 snippets, and the count is the number of updates. */
  lemma {:induction false} FromZero(inputs: seq<(String, int)>)
    ensures Replay(Zero, inputs).topics == LastN(Snippets(inputs), MaxTopics)
    ensures Replay(Zero, inputs).interactionCount == |inputs|
  {
    ReplayKeepsNewest(Zero, inputs);
    assert Zero.topics + Snippets(inputs) == Snippets(inputs);
  }

  /** The memory preamble `init_llm` builds: none for an empty topic list,
      otherwise "Previous context: " and the newest five messages joined by "; ". */
  function Summary(rec: ContextRecord): Option<String>
  {
    if rec.topics == [] then None
    else
      var recent := LastN(rec.topics, SummaryTopics);
      Some("Previous context: " + Join("; ", seq(|recent|, i requires 0 <= i < |recent| => recent[i].message)))
  }

  /** The preamble exists iff there are topics, and depends only on the newest five. */
  lemma {:induction false} SummaryUsesNewestFive(rec: ContextRecord)
    ensures Summary(rec).Some? <==> rec.topics != []
    ensures Summary(rec) == Summary(rec.(topics := LastN(rec.topics, SummaryTopics)))
  {
    LastNIdempotent(rec.topics, SummaryTopics);
  }
}
