/**
 * The per-user list of conversation records behind `save_conversation`,
 * `delete_conversation` and `get_user_conversations`.
 * Timestamps are integers in microseconds, the resolution of the ISO-8601
 * strings the application stores.
 */
module Conversations {
  import opened Wrappers
  import opened Text

  /** `timedelta(days=7)` in microseconds. */
  const SevenDays: int := 7 * 24 * 60 * 60 * 1000000
  const OneHour: int := 60 * 60 * 1000000

  datatype Role = User | Assistant

  datatype Message = Message(role: Role, text: String)

  datatype Conversation = Conversation(id: String, title: String, messages: seq<Message>, createdAt: int, updatedAt: int)

  /** `conversations.get(username, [])`: a user's stored list, empty when absent. */
  function ListOf(store: map<String, seq<Conversation>>, username: String): (r: seq<Conversation>)
    ensures username !in store ==> r == []
    ensures username in store ==> r == store[username]
  {
    if username in store then store[username] else []
  }

  /** `next(c for c in convs if c['id'] == conv_id)`: the first record with that id. */
  function FindById(convs: seq<Conversation>, id: String): (r: Option<nat>)
    ensures r.None? <==> forall i :: 0 <= i < |convs| ==> convs[i].id != id
    ensures r.Some? ==> r.value < |convs| && convs[r.value].id == id
    ensures r.Some? ==> forall j :: 0 <= j < r.value ==> convs[j].id != id
  {
    if convs == [] then None
    else if convs[0].id == id then Some(0)
    else match FindById(convs[1..], id)
      case None => None
      case Some(k) => Some(k + 1)
  }

  /** No two records of one user share an id. */
  predicate UniqueIds(convs: seq<Conversation>)
  {
    forall i, j :: 0 <= i < j < |convs| ==> convs[i].id != convs[j].id
  }

  /** `save_conversation` on one user's list: update the record with that id
      in place, or append a new one. */
  function Save(convs: seq<Conversation>, id: String, messages: seq<Message>, title: String, now: int): (r: seq<Conversation>)
    ensures FindById(convs, id).Some? ==> |r| == |convs|
    ensures FindById(convs, id).None? ==> |r| == |convs| + 1 && r[..|convs|] == convs
  {
    match FindById(convs, id)
    case Some(i) => convs[i := convs[i].(messages := messages, updatedAt := now)]
    case None => convs + [Conversation(id, title, messages, now, now)]
  }

  /** Updating an existing id replaces only that record's messages and
      update time; its title and creation time stay, and every other record stays. */
  lemma {:induction false} SaveExisting(convs: seq<Conversation>, id: String, messages: seq<Message>, title: String, now: int, i: nat)
    requires UniqueIds(convs)
    requires i < |convs| && convs[i].id == id
    ensures var r := Save(convs, id, messages, title, now);
      && |r| == |convs|
      && r[i] == Conversation(id, convs[i].title, messages, convs[i].createdAt, now)
      && (forall j :: 0 <= j < |convs| && j != i ==> r[j] == convs[j])
  {
    assert FindById(convs, id) == Some(i);
  }

  /** Saving a new id appends exactly one record, with the given title and
      both timestamps set to now. */
  lemma {:induction false} SaveNew(convs: seq<Conversation>, id: String, messages: seq<Message>, title: String, now: int)
    requires forall j :: 0 <= j < |convs| ==> convs[j].id != id
    ensures Save(convs, id, messages, title, now) == convs + [Conversation(id, title, messages, now, now)]
  {
  }

  /** Saving keeps the ids unique and leaves exactly one record with the saved id. */
  lemma {:induction false} SaveKeepsIdsUnique(convs: seq<Conversation>, id: String, messages: seq<Message>, title: String, now: int)
    requires UniqueIds(convs)
    ensures var r := Save(convs, id, messages, title, now);
      && UniqueIds(r)
      && FindById(r, id).Some?
      && (forall j :: 0 <= j < |r| && r[j].id == id ==> j == FindById(r, id).value)
  {
    var r := Save(convs, id, messages, title, now);
    match FindById(convs, id)
    case Some(i) =>
      assert forall j :: 0 <= j < |r| ==> r[j].id == convs[j].id;
    case None =>
      assert forall j :: 0 <= j < |convs| ==> r[j] == convs[j];
      assert r[|convs|].id == id;
  }

  /** Saving the same id twice: one record, the second messages, the first
      creation time and title, the second update time. */
  lemma {:induction false} SaveTwice(convs: seq<Conversation>, id: String, m1: seq<Message>, m2: seq<Message>, t1: String, t2: String, now1: int, now2: int)
    requires UniqueIds(convs)
    requires forall j :: 0 <= j < |convs| ==> convs[j].id != id
    ensures Save(Save(convs, id, m1, t1, now1), id, m2, t2, now2)
         == convs + [Conversation(id, t1, m2, now1, now2)]
  {
    var once := Save(convs, id, m1, t1, now1);
    SaveNew(convs, id, m1, t1, now1);
    SaveKeepsIdsUnique(convs, id, m1, t1, now1);
    SaveExisting(once, id, m2, t2, now2, |convs|);
    var twice := Save(once, id, m2, t2, now2);
    assert twice == convs + [Conversation(id, t1, m2, now1, now2)] by {
      assert |twice| == |convs| + 1;
      forall j | 0 <= j < |twice| ensures twice[j] == (convs + [Conversation(id, t1, m2, now1, now2)])[j] {
      }
    }
  }

  /** `delete_conversation` on one user's list: the records whose id differs, in order. */
  function Delete(convs: seq<Conversation>, id: String): (r: seq<Conversation>)
    ensures |r| <= |convs|
    ensures forall c :: c in r <==> c in convs && c.id != id
  {
    if convs == [] then []
    else if convs[0].id == id then Delete(convs[1..], id)
    else [convs[0]] + Delete(convs[1..], id)
  }

  /** Deleting works record by record, so the survivors keep their relative order. */
  lemma {:induction false} DeleteAppend(a: seq<Conversation>, b: seq<Conversation>, id: String)
    ensures Delete(a + b, id) == Delete(a, id) + Delete(b, id)
  {
    if a == [] {
      assert a + b == b;
    } else {
      assert (a + b)[0] == a[0] && (a + b)[1..] == a[1..] + b;
      DeleteAppend(a[1..], b, id);
    }
  }

  /** Deleting an id that is not there changes nothing. */
  lemma {:induction false} DeleteAbsent(convs: seq<Conversation>, id: String)
    requires forall j :: 0 <= j < |convs| ==> convs[j].id != id
    ensures Delete(convs, id) == convs
  {
    if convs != [] {
      DeleteAbsent(convs[1..], id);
    }
  }

  /** With unique ids, deleting a present id removes exactly that one record. */
  lemma {:induction false} DeleteOne(convs: seq<Conversation>, id: String, i: nat)
    requires UniqueIds(convs)
    requires i < |convs| && convs[i].id == id
    ensures Delete(convs, id) == convs[..i] + convs[i + 1..]
  {
    assert convs == convs[..i] + ([convs[i]] + convs[i + 1..]);
    DeleteAppend(convs[..i], [convs[i]] + convs[i + 1..], id);
    DeleteAppend([convs[i]], convs[i + 1..], id);
    DeleteAbsent(convs[..i], id);
    var after := convs[i + 1..];
    forall j | 0 <= j < |after| ensures after[j].id != id {
      assert after[j] == convs[i + 1 + j];
    }
    DeleteAbsent(after, id);
    assert Delete([convs[i]], id) == [] by {
      assert [convs[i]][1..] == [];
    }
  }

  /** Deleting keeps the ids unique. */
  lemma {:induction false} DeleteKeepsIdsUnique(convs: seq<Conversation>, id: String)
    requires UniqueIds(convs)
    ensures UniqueIds(Delete(convs, id))
  {
    if convs != [] {
      DeleteKeepsIdsUnique(convs[1..], id);
      var rest := Delete(convs[1..], id);
      assert forall c :: c in rest ==> c in convs[1..];
      assert forall j :: 0 <= j < |convs[1..]| ==> convs[1..][j].id != convs[0].id;
    }
  }

  /** `get_user_conversations`: the records created strictly after `now - 7 days`, in stored order. */
  function Recent(convs: seq<Conversation>, now: int): (r: seq<Conversation>)
    ensures |r| <= |convs|
    ensures forall c :: c in r <==> c in convs && c.createdAt > now - SevenDays
  {
    if convs == [] then []
    else if convs[0].createdAt > now - SevenDays then [convs[0]] + Recent(convs[1..], now)
    else Recent(convs[1..], now)
  }

  /** The filter works record by record, so the stored order is kept. */
  lemma {:induction false} RecentAppend(a: seq<Conversation>, b: seq<Conversation>, now: int)
    ensures Recent(a + b, now) == Recent(a, now) + Recent(b, now)
  {
    if a == [] {
      assert a + b == b;
    } else {
      assert (a + b)[0] == a[0] && (a + b)[1..] == a[1..] + b;
      RecentAppend(a[1..], b, now);
    }
  }

  /** Filtering keeps the ids unique. */
  lemma {:induction false} RecentKeepsIdsUnique(convs: seq<Conversation>, now: int)
    requires UniqueIds(convs)
    ensures UniqueIds(Recent(convs, now))
  {
    if convs != [] {
      RecentKeepsIdsUnique(convs[1..], now);
      var rest := Recent(convs[1..], now);
      assert forall c :: c in rest ==> c in convs[1..];
      assert forall j :: 0 <= j < |convs[1..]| ==> convs[1..][j].id != convs[0].id;
    }
  }

  /** The window is relative to the query time: a later query sees a sub-list
      of what an earlier one saw, and nothing stored is changed. */
  lemma {:induction false} RecentLater(convs: seq<Conversation>, now1: int, now2: int)
    requires now1 <= now2
    ensures Recent(Recent(convs, now1), now2) == Recent(convs, now2)
  {
    if convs != [] {
      RecentLater(convs[1..], now1, now2);
    }
  }

  /** A record from eight days ago is hidden; one from an hour ago is shown. */
  lemma {:induction false} RecentWindowExamples(old8: Conversation, new1: Conversation, now: int)
    requires old8.createdAt == now - 8 * 24 * OneHour
    requires new1.createdAt == now - OneHour
    ensures Recent([old8, new1], now) == [new1]
  {
    assert [old8, new1][1..] == [new1];
    assert [new1][1..] == [];
  }
}
