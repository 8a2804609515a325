/**
 * The SQLite-backed store (notebooks/models_sqlite.py, class VocabDatabase)
 * over in-memory tables, each keyed by its primary key:
 *
 *   users            user_id     -> username (UNIQUE), created_at, last_active
 *   user_vocabulary  id          -> user_id, word, definition, examples, notes,
 *                                   difficulty_level, review_count, last_reviewed,
 *                                   created_at; UNIQUE(user_id, word)
 *   chat_sessions    chat_id     -> user_id, name, created_at, last_message_at,
 *                                   message_count
 *   chat_messages    id          -> chat_id, role (CHECK user/assistant/system),
 *                                   content, created_at
 *
 * One counter stands for `datetime.now()` and for the AUTOINCREMENT row ids:
 * every write reads it and then advances it. `uuid.uuid4()` is a parameter
 * (`newId`) of the operations that draw one. SQLite does not enforce the
 * FOREIGN KEY clauses unless asked to, and this store never asks, so rows may
 * name users or chats that do not exist.
 */
module SqliteStore {
  import opened Wrappers
  import opened Ordering

  datatype UserRow = UserRow(username: string, createdAt: nat, lastActive: nat)
  datatype VocabRow = VocabRow(userId: string, word: string, definition: string, examples: seq<string>,
                               notes: string, difficultyLevel: int, reviewCount: nat,
                               lastReviewed: Option<nat>, createdAt: nat)
  datatype SessionRow = SessionRow(userId: string, name: string, createdAt: nat, lastMessageAt: nat, messageCount: nat)
  datatype MessageRow = MessageRow(chatId: string, role: string, content: string, createdAt: nat)

  /** The dictionaries the read operations return. */
  datatype UserInfo = UserInfo(userId: string, username: string, createdAt: nat, lastActive: nat)
  datatype VocabItem = VocabItem(word: string, definition: string, examples: seq<string>, notes: string,
                                 difficultyLevel: int, reviewCount: nat, lastReviewed: Option<nat>, createdAt: nat)
  datatype ChatSummary = ChatSummary(id: string, name: string, createdAt: nat, lastMessageAt: nat, messageCount: nat)
  datatype MessageView = MessageView(role: string, content: string, createdAt: nat)
  datatype DatabaseStats = DatabaseStats(totalUsers: nat, totalVocabulary: nat, totalChatSessions: nat,
                                         totalChatMessages: nat, avgVocabularyPerUser: real)

  /**
   * The errors the writes raise: add_vocabulary's ValueError, and the
   * IntegrityError SQLite raises for a taken primary key or a role outside
   * the CHECK list.
   */
  datatype DbError = DuplicateWord(word: string) | PrimaryKeyTaken(key: string) | RoleNotAllowed(role: string)

  const ROLES: set<string> := {"user", "assistant", "system"}

  /** The column default of difficulty_level. */
  const DEFAULT_DIFFICULTY := 1

  predicate UniqueUsernames(users: map<string, UserRow>) {
    forall a, b :: a in users && b in users && users[a].username == users[b].username ==> a == b
  }

  /** The row is the user's entry for that word. */
  predicate IsEntry(row: VocabRow, userId: string, word: string) {
    row.userId == userId && row.word == word
  }

  /** UNIQUE(user_id, word). */
  predicate UniqueEntries(vocabulary: map<nat, VocabRow>) {
    forall a, b :: a in vocabulary && b in vocabulary && IsEntry(vocabulary[b], vocabulary[a].userId, vocabulary[a].word) ==> a == b
  }

  predicate IdsBefore<V>(table: map<nat, V>, clock: nat) {
    forall id :: id in table ==> id < clock
  }

  /** `LIMIT n` is added when `limit` is truthy; SQLite reads a negative LIMIT as no limit. */
  predicate Cuts(limit: Option<int>, n: nat) {
    limit.Some? && 0 < limit.value < n
  }

  /** The rows a query returns once its LIMIT clause is applied. */
  function ApplyLimit<T>(rows: seq<T>, limit: Option<int>): (r: seq<T>)
    ensures r <= rows
    ensures !Cuts(limit, |rows|) ==> r == rows
    ensures Cuts(limit, |rows|) ==> |r| == limit.value
  {
    if Cuts(limit, |rows|) then rows[..limit.value] else rows
  }

  /**
   * `ORDER BY key LIMIT limit` over the selected rows: ordered by the key, the
   * same rows when the limit does not cut, and when it does, every row left
   * out has a key at least as large as every row kept.
   */
  function OrderBy<T>(rows: seq<T>, key: T -> int, limit: Option<int>): (r: seq<T>)
    ensures SortedByInt(r, key)
    ensures |r| == if Cuts(limit, |rows|) then limit.value else |rows|
    ensures forall x :: x in r ==> x in rows
    ensures forall x :: x in rows && x !in r ==> Cuts(limit, |rows|) && forall y :: y in r ==> key(y) <= key(x)
  {
    OrderByKeepsSmallest(rows, key, limit);
    ApplyLimit(SortByInt(rows, key), limit)
  }

  lemma OrderByKeepsSmallest<T>(rows: seq<T>, key: T -> int, limit: Option<int>)
    ensures var sorted := SortByInt(rows, key);
            var r := ApplyLimit(sorted, limit);
            |r| == (if Cuts(limit, |rows|) then limit.value else |rows|) &&
            (forall x :: x in r ==> x in rows) &&
            forall x :: x in rows && x !in r ==> Cuts(limit, |rows|) && forall y :: y in r ==> key(y) <= key(x)
  {
    var sorted := SortByInt(rows, key);
    assert |sorted| == |multiset(sorted)| == |multiset(rows)| == |rows|;
    forall x ensures x in sorted <==> x in rows {
      assert x in sorted <==> x in multiset(sorted);
    }
    var r := ApplyLimit(sorted, limit);
    assert r == sorted[..|r|];
    forall x | x in rows && x !in r
      ensures Cuts(limit, |rows|) && forall y :: y in r ==> key(y) <= key(x)
    {
      SortedPrefixKeepsSmallest(sorted, key, |r|, x);
    }
  }

  function AsVocabItem(row: VocabRow): VocabItem {
    VocabItem(row.word, row.definition, row.examples, row.notes, row.difficultyLevel,
              row.reviewCount, row.lastReviewed, row.createdAt)
  }

  function AsMessageView(row: MessageRow): MessageView {
    MessageView(row.role, row.content, row.createdAt)
  }

  function AsChatSummary(id: string, row: SessionRow): ChatSummary {
    ChatSummary(id, row.name, row.createdAt, row.lastMessageAt, row.messageCount)
  }

  /** Sort keys: `ORDER BY created_at DESC`, `ORDER BY last_message_at DESC`, `ORDER BY created_at ASC`. */
  function NewestVocabularyFirst(item: VocabItem): int {
    0 - item.createdAt as int
  }

  function LatestChatFirst(c: ChatSummary): int {
    0 - c.lastMessageAt as int
  }

  function OldestMessageFirst(m: MessageView): int {
    m.createdAt
  }

  /**
   * The vocabulary rows `ids` of `rows`, collected as `items` and ordered
   * newest first with `limit`: the order, the rows kept and the rows cut.
   */
  lemma NewestVocabularyOrder(rows: map<nat, VocabRow>, ids: set<nat>, items: seq<VocabItem>, limit: Option<int>)
    requires ids <= rows.Keys
    requires |items| == |ids|
    requires forall item :: item in items <==> exists id :: id in ids && AsVocabItem(rows[id]) == item
    ensures var r := OrderBy(items, NewestVocabularyFirst, limit);
            (forall i, j :: 0 <= i < j < |r| ==> r[i].createdAt >= r[j].createdAt) &&
            (forall item :: item in r ==> exists id :: id in ids && AsVocabItem(rows[id]) == item) &&
            |r| == (if Cuts(limit, |ids|) then limit.value else |ids|) &&
            forall id :: id in ids && AsVocabItem(rows[id]) !in r ==>
              Cuts(limit, |ids|) && forall item :: item in r ==> item.createdAt >= rows[id].createdAt
  {
    var r := OrderBy(items, NewestVocabularyFirst, limit);
    forall i, j | 0 <= i < j < |r| ensures r[i].createdAt >= r[j].createdAt {
      assert NewestVocabularyFirst(r[i]) <= NewestVocabularyFirst(r[j]);
    }
    forall id | id in ids && AsVocabItem(rows[id]) !in r
      ensures Cuts(limit, |ids|) && forall item :: item in r ==> item.createdAt >= rows[id].createdAt
    {
      var x := AsVocabItem(rows[id]);
      assert x in items;
      forall item | item in r ensures item.createdAt >= rows[id].createdAt {
        assert NewestVocabularyFirst(item) <= NewestVocabularyFirst(x);
      }
    }
  }

  /**
   * The message rows `ids` of `rows`, collected as `items` and ordered oldest
   * first with `limit`: the order, the messages kept and the messages cut.
   */
  lemma OldestMessageOrder(rows: map<nat, MessageRow>, ids: set<nat>, items: seq<MessageView>, limit: Option<int>)
    requires ids <= rows.Keys
    requires |items| == |ids|
    requires forall m :: m in items <==> exists id :: id in ids && AsMessageView(rows[id]) == m
    ensures var r := OrderBy(items, OldestMessageFirst, limit);
            (forall i, j :: 0 <= i < j < |r| ==> r[i].createdAt <= r[j].createdAt) &&
            (forall m :: m in r ==> exists id :: id in ids && AsMessageView(rows[id]) == m) &&
            |r| == (if Cuts(limit, |ids|) then limit.value else |ids|) &&
            forall id :: id in ids && AsMessageView(rows[id]) !in r ==>
              Cuts(limit, |ids|) && forall m :: m in r ==> m.createdAt <= rows[id].createdAt
  {
    var r := OrderBy(items, OldestMessageFirst, limit);
    forall i, j | 0 <= i < j < |r| ensures r[i].createdAt <= r[j].createdAt {
      assert OldestMessageFirst(r[i]) <= OldestMessageFirst(r[j]);
    }
    forall id | id in ids && AsMessageView(rows[id]) !in r
      ensures Cuts(limit, |ids|) && forall m :: m in r ==> m.createdAt <= rows[id].createdAt
    {
      assert AsMessageView(rows[id]) in items;
    }
  }

  /** Sorting by LatestChatFirst keeps the summaries and puts the latest message first. */
  lemma LatestChatFirstSorted(items: seq<ChatSummary>, r: seq<ChatSummary>)
    requires r == SortByInt(items, LatestChatFirst)
    ensures |r| == |items|
    ensures forall c :: c in r <==> c in items
    ensures forall i, j :: 0 <= i < j < |r| ==> r[i].lastMessageAt >= r[j].lastMessageAt
  {
    SortByIntKeepsItems(items, LatestChatFirst);
    forall i, j | 0 <= i < j < |r| ensures r[i].lastMessageAt >= r[j].lastMessageAt {
      assert LatestChatFirst(r[i]) <= LatestChatFirst(r[j]);
    }
  }

  /** A row after one review at time `now`. */
  function Reviewed(row: VocabRow, now: nat): VocabRow {
    row.(reviewCount := row.reviewCount + 1, lastReviewed := Some(now))
  }

  /** The averaging of get_database_stats: vocabulary over users, 0 without users. */
  function Average(total: nat, count: nat): (avg: real)
    ensures count > 0 ==> avg * count as real == total as real
    ensures count == 0 ==> avg == 0.0
    ensures avg >= 0.0
  {
    if count > 0 then total as real / count as real else 0.0
  }

  class VocabDatabase {
    var users: map<string, UserRow>
    var vocabulary: map<nat, VocabRow>
    var sessions: map<string, SessionRow>
    var chatMessages: map<nat, MessageRow>
    var clock: nat

    /**
     * The table constraints: usernames are unique, a user has at most one row
     * per word, every message role passed the CHECK, and every AUTOINCREMENT id
     * was drawn before the current tick.
     */
    ghost predicate Valid()
      reads this
    {
      UniqueUsernames(users) && UniqueEntries(vocabulary) &&
      (forall id :: id in chatMessages ==> chatMessages[id].role in ROLES) &&
      IdsBefore(vocabulary, clock) && IdsBefore(chatMessages, clock)
    }

    /** init_db: the four tables, empty. */
    constructor()
      ensures Valid()
      ensures users == map[] && vocabulary == map[] && sessions == map[] && chatMessages == map[]
    {
      users := map[];
      vocabulary := map[];
      sessions := map[];
      chatMessages := map[];
      clock := 0;
    }

    /** The ids of the user's vocabulary rows (`WHERE user_id = ?`). */
    function VocabularyIdsOf(userId: string): set<nat>
      reads this
    {
      set id | id in vocabulary && vocabulary[id].userId == userId
    }

    /** The ids of the chat's messages (`WHERE chat_id = ?`). */
    function MessageIdsOf(chatId: string): set<nat>
      reads this
    {
      set id | id in chatMessages && chatMessages[id].chatId == chatId
    }

    predicate HasUsername(username: string)
      reads this
    {
      exists id :: id in users && users[id].username == username
    }

    predicate HasEntry(userId: string, word: string)
      reads this
    {
      exists id :: id in vocabulary && IsEntry(vocabulary[id], userId, word)
    }

    // -------------------------------------------------------------------------
    // Users
    // -------------------------------------------------------------------------

    /** get_user_info: the user's row as a dictionary, or None for an unknown id. */
    function GetUserInfo(userId: string): (r: Option<UserInfo>)
      reads this
      ensures r.Some? <==> userId in users
      ensures r.Some? ==> r.value.userId == userId && r.value.username == users[userId].username &&
                          r.value.createdAt == users[userId].createdAt && r.value.lastActive == users[userId].lastActive
    {
      if userId in users then
        var row := users[userId];
        Some(UserInfo(userId, row.username, row.createdAt, row.lastActive))
      else None
    }

    /**
     * get_or_create_user: for a known username, the existing id, with only its
     * last_active moved to now; otherwise one new user under the drawn uuid.
     * The uuid clashing with an existing user_id is the primary key's
     * IntegrityError, and nothing changes.
     */
    method GetOrCreateUser(username: string, newId: string) returns (r: Result<string, DbError>)
      requires Valid()
      modifies this
      ensures Valid()
      ensures r.Ok? ==> GetUserInfo(r.value).Some? && GetUserInfo(r.value).value.username == username
      ensures old(HasUsername(username)) ==>
                r.Ok? && r.value in old(users) && old(users)[r.value].username == username &&
                users == old(users)[r.value := old(users)[r.value].(lastActive := old(clock))] &&
                clock == old(clock) + 1
      ensures !old(HasUsername(username)) && newId in old(users) ==>
                r == Err(PrimaryKeyTaken(newId)) && users == old(users) && clock == old(clock)
      ensures !old(HasUsername(username)) && newId !in old(users) ==>
                r == Ok(newId) && users == old(users)[newId := UserRow(username, old(clock), old(clock))] &&
                clock == old(clock) + 1
      ensures vocabulary == old(vocabulary) && sessions == old(sessions) && chatMessages == old(chatMessages)
    {
      if id :| id in users && users[id].username == username {
        users := users[id := users[id].(lastActive := clock)];
        clock := clock + 1;
        return Ok(id);
      }
      if newId in users {
        return Err(PrimaryKeyTaken(newId));
      }
      users := users[newId := UserRow(username, clock, clock)];
      clock := clock + 1;
      return Ok(newId);
    }

    // -------------------------------------------------------------------------
    // Vocabulary
    // -------------------------------------------------------------------------

    /**
     * add_vocabulary: a word the user already has raises ValueError and nothing
     * changes; otherwise exactly one row is inserted under a fresh id, with
     * review_count 0 and no review yet, and True is returned.
     */
    method AddVocabulary(userId: string, word: string, definition: string, examples: seq<string>,
                         notes: string := "", difficultyLevel: int := DEFAULT_DIFFICULTY)
      returns (r: Result<bool, DbError>)
      requires Valid()
      modifies this
      ensures Valid()
      ensures old(HasEntry(userId, word)) ==>
                r == Err(DuplicateWord(word)) && vocabulary == old(vocabulary) && clock == old(clock)
      ensures !old(HasEntry(userId, word)) ==>
                r == Ok(true) && old(clock) !in old(vocabulary) &&
                vocabulary == old(vocabulary)[old(clock) := VocabRow(userId, word, definition, examples, notes,
                                                                    difficultyLevel, 0, None, old(clock))] &&
                clock == old(clock) + 1
      ensures HasEntry(userId, word)
      ensures users == old(users) && sessions == old(sessions) && chatMessages == old(chatMessages)
    {
      if id :| id in vocabulary && IsEntry(vocabulary[id], userId, word) {
        return Err(DuplicateWord(word));
      }
      var id := clock;
      vocabulary := vocabulary[id := VocabRow(userId, word, definition, examples, notes, difficultyLevel, 0, None, clock)];
      clock := clock + 1;
      assert IsEntry(vocabulary[id], userId, word);
      return Ok(true);
    }

    /**
     * get_user_vocabulary: the user's rows, newest first, cut to `limit` when
     * it is positive. Without a cut every row of the user is there; with one,
     * every row left out is no newer than any row returned.
     */
    method GetUserVocabulary(userId: string, limit: Option<int> := None) returns (r: seq<VocabItem>)
      ensures forall i, j :: 0 <= i < j < |r| ==> r[i].createdAt >= r[j].createdAt
      ensures forall item :: item in r ==> exists id :: id in VocabularyIdsOf(userId) && AsVocabItem(vocabulary[id]) == item
      ensures |r| == if Cuts(limit, |VocabularyIdsOf(userId)|) then limit.value else |VocabularyIdsOf(userId)|
      ensures forall id :: id in VocabularyIdsOf(userId) && AsVocabItem(vocabulary[id]) !in r ==>
                Cuts(limit, |VocabularyIdsOf(userId)|) &&
                forall item :: item in r ==> item.createdAt >= vocabulary[id].createdAt
    {
      var owned := VocabularyIdsOf(userId);
      var items: seq<VocabItem> := [];
      var visited: set<nat> := {};
      while visited != owned
        invariant visited <= owned
        invariant |items| == |visited|
        invariant forall item :: item in items <==> exists id :: id in visited && AsVocabItem(vocabulary[id]) == item
        decreases owned - visited
      {
        var id :| id in owned && id !in visited;
        items := items + [AsVocabItem(vocabulary[id])];
        visited := visited + {id};
      }
      assert |items| == |visited|;
      r := OrderBy(items, NewestVocabularyFirst, limit);
      NewestVocabularyOrder(vocabulary, owned, items, limit);
    }

    /**
     * delete_vocabulary: removes the user's row for that word and answers
     * whether there was one; since a user has at most one row per word,
     * exactly that one row goes and every other row stays.
     */
    method DeleteVocabulary(userId: string, word: string) returns (deleted: bool)
      requires Valid()
      modifies this
      ensures Valid()
      ensures deleted <==> old(HasEntry(userId, word))
      ensures deleted ==> exists id :: id in old(vocabulary) && IsEntry(old(vocabulary)[id], userId, word) &&
                                       vocabulary == old(vocabulary) - {id}
      ensures !deleted ==> vocabulary == old(vocabulary)
      ensures !HasEntry(userId, word)
      ensures users == old(users) && sessions == old(sessions) && chatMessages == old(chatMessages) && clock == old(clock)
    {
      var before := vocabulary;
      vocabulary := map id | id in before && !IsEntry(before[id], userId, word) :: before[id];
      if id :| id in before && IsEntry(before[id], userId, word) {
        assert vocabulary == before - {id};
        return true;
      }
      assert vocabulary == before;
      return false;
    }

    /**
     * update_vocabulary_review: adds one to review_count of the user's row for
     * that word and stamps last_reviewed with now; answers whether a row
     * matched. Exactly that row changes.
     */
    method UpdateVocabularyReview(userId: string, word: string) returns (updated: bool)
      requires Valid()
      modifies this
      ensures Valid()
      ensures updated <==> old(HasEntry(userId, word))
      ensures updated ==> exists id :: id in old(vocabulary) && IsEntry(old(vocabulary)[id], userId, word) &&
                                       vocabulary == old(vocabulary)[id := Reviewed(old(vocabulary)[id], old(clock))] &&
                                       vocabulary[id].reviewCount == old(vocabulary)[id].reviewCount + 1
      ensures !updated ==> vocabulary == old(vocabulary)
      ensures clock == old(clock) + 1
      ensures users == old(users) && sessions == old(sessions) && chatMessages == old(chatMessages)
    {
      var before := vocabulary;
      var now := clock;
      vocabulary := map id | id in before :: if IsEntry(before[id], userId, word) then Reviewed(before[id], now) else before[id];
      clock := clock + 1;
      if id :| id in before && IsEntry(before[id], userId, word) {
        assert vocabulary == before[id := Reviewed(before[id], now)];
        return true;
      }
      assert vocabulary == before;
      return false;
    }

    // -------------------------------------------------------------------------
    // Chats and messages
    // -------------------------------------------------------------------------

    /**
     * create_chat_session: the session goes under `chatId` when one is given
     * (an empty string included) and under the drawn uuid otherwise, with no
     * messages yet; an id already taken is the primary key's IntegrityError.
     */
    method CreateChatSession(userId: string, name: string, chatId: Option<string>, newId: string)
      returns (r: Result<string, DbError>)
      requires Valid()
      modifies this
      ensures Valid()
      ensures var id := if chatId.Some? then chatId.value else newId;
              if id in old(sessions) then r == Err(PrimaryKeyTaken(id)) && sessions == old(sessions) && clock == old(clock)
              else r == Ok(id) && sessions == old(sessions)[id := SessionRow(userId, name, old(clock), old(clock), 0)] &&
                   clock == old(clock) + 1
      ensures users == old(users) && vocabulary == old(vocabulary) && chatMessages == old(chatMessages)
    {
      var id := if chatId.Some? then chatId.value else newId;
      if id in sessions {
        return Err(PrimaryKeyTaken(id));
      }
      sessions := sessions[id := SessionRow(userId, name, clock, clock, 0)];
      clock := clock + 1;
      return Ok(id);
    }

    /** get_user_chats: one summary per session of the user, latest activity first. */
    method GetUserChats(userId: string) returns (r: seq<ChatSummary>)
      ensures |r| == |set id | id in sessions && sessions[id].userId == userId|
      ensures forall c :: c in r <==> c.id in sessions && sessions[c.id].userId == userId && AsChatSummary(c.id, sessions[c.id]) == c
      ensures forall i, j :: 0 <= i < j < |r| ==> r[i].lastMessageAt >= r[j].lastMessageAt
    {
      var owned := set id | id in sessions && sessions[id].userId == userId;
      var items: seq<ChatSummary> := [];
      var visited: set<string> := {};
      while visited != owned
        invariant visited <= owned
        invariant |items| == |visited|
        invariant forall c :: c in items <==> c.id in visited && AsChatSummary(c.id, sessions[c.id]) == c
        decreases owned - visited
      {
        var id :| id in owned && id !in visited;
        items := items + [AsChatSummary(id, sessions[id])];
        visited := visited + {id};
      }
      r := SortByInt(items, LatestChatFirst);
      LatestChatFirstSorted(items, r);
    }

    /**
     * add_chat_message: a role outside the CHECK list is an IntegrityError and
     * nothing changes. Otherwise one message is inserted under a fresh id and,
     * when the session exists, its message_count goes up by exactly one and
     * its last_message_at becomes now.
     */
    method AddChatMessage(chatId: string, role: string, content: string) returns (error: Option<DbError>)
      requires Valid()
      modifies this
      ensures Valid()
      ensures role !in ROLES ==> error == Some(RoleNotAllowed(role)) &&
                                 chatMessages == old(chatMessages) && sessions == old(sessions) && clock == old(clock)
      ensures role in ROLES ==>
                error == None && old(clock) !in old(chatMessages) &&
                chatMessages == old(chatMessages)[old(clock) := MessageRow(chatId, role, content, old(clock))] &&
                clock == old(clock) + 1
      ensures role in ROLES && chatId in old(sessions) ==>
                chatId in sessions && sessions[chatId].messageCount == old(sessions)[chatId].messageCount + 1 &&
                sessions == old(sessions)[chatId := old(sessions)[chatId].(lastMessageAt := old(clock),
                                                                          messageCount := old(sessions)[chatId].messageCount + 1)]
      ensures chatId !in old(sessions) ==> sessions == old(sessions)
      ensures users == old(users) && vocabulary == old(vocabulary)
    {
      if role !in ROLES {
        return Some(RoleNotAllowed(role));
      }
      chatMessages := chatMessages[clock := MessageRow(chatId, role, content, clock)];
      if chatId in sessions {
        var s := sessions[chatId];
        sessions := sessions[chatId := s.(lastMessageAt := clock, messageCount := s.messageCount + 1)];
      }
      clock := clock + 1;
      return None;
    }

    /**
     * get_chat_messages: the chat's messages, oldest first, cut to `limit`
     * when it is positive. Without a cut every message is there; with one,
     * every message left out is no older than any message returned.
     */
    method GetChatMessages(chatId: string, limit: Option<int> := None) returns (r: seq<MessageView>)
      ensures forall i, j :: 0 <= i < j < |r| ==> r[i].createdAt <= r[j].createdAt
      ensures forall m :: m in r ==> exists id :: id in MessageIdsOf(chatId) && AsMessageView(chatMessages[id]) == m
      ensures |r| == if Cuts(limit, |MessageIdsOf(chatId)|) then limit.value else |MessageIdsOf(chatId)|
      ensures forall id :: id in MessageIdsOf(chatId) && AsMessageView(chatMessages[id]) !in r ==>
                Cuts(limit, |MessageIdsOf(chatId)|) &&
                forall m :: m in r ==> m.createdAt <= chatMessages[id].createdAt
    {
      var inChat := MessageIdsOf(chatId);
      var items: seq<MessageView> := [];
      var visited: set<nat> := {};
      while visited != inChat
        invariant visited <= inChat
        invariant |items| == |visited|
        invariant forall m :: m in items <==> exists id :: id in visited && AsMessageView(chatMessages[id]) == m
        decreases inChat - visited
      {
        var id :| id in inChat && id !in visited;
        items := items + [AsMessageView(chatMessages[id])];
        visited := visited + {id};
      }
      assert |items| == |visited|;
      r := OrderBy(items, OldestMessageFirst, limit);
      OldestMessageOrder(chatMessages, inChat, items, limit);
    }

    /**
     * delete_chat_session: deletes every message of the chat, then the session
     * itself; answers whether the session existed.
     */
    method DeleteChatSession(chatId: string) returns (deleted: bool)
      requires Valid()
      modifies this
      ensures Valid()
      ensures deleted <==> chatId in old(sessions)
      ensures sessions == old(sessions) - {chatId}
      ensures chatMessages == map id | id in old(chatMessages) && old(chatMessages)[id].chatId != chatId :: old(chatMessages)[id]
      ensures forall id :: id in chatMessages ==> chatMessages[id].chatId != chatId
      ensures users == old(users) && vocabulary == old(vocabulary) && clock == old(clock)
    {
      deleted := chatId in sessions;
      chatMessages := map id | id in chatMessages && chatMessages[id].chatId != chatId :: chatMessages[id];
      sessions := sessions - {chatId};
    }

    /** update_chat_name: renames the session and answers whether it existed. */
    method UpdateChatName(chatId: string, newName: string) returns (updated: bool)
      requires Valid()
      modifies this
      ensures Valid()
      ensures updated <==> chatId in old(sessions)
      ensures updated ==> sessions == old(sessions)[chatId := old(sessions)[chatId].(name := newName)]
      ensures !updated ==> sessions == old(sessions)
      ensures users == old(users) && vocabulary == old(vocabulary) && chatMessages == old(chatMessages) && clock == old(clock)
    {
      if chatId !in sessions {
        return false;
      }
      sessions := sessions[chatId := sessions[chatId].(name := newName)];
      return true;
    }

    /** get_database_stats: the row count of each table and the vocabulary per user. */
    function GetDatabaseStats(): (r: DatabaseStats)
      reads this
      ensures r.totalUsers == |users| && r.totalVocabulary == |vocabulary| &&
              r.totalChatSessions == |sessions| && r.totalChatMessages == |chatMessages|
      ensures r.totalUsers > 0 ==> r.avgVocabularyPerUser * r.totalUsers as real == r.totalVocabulary as real
      ensures r.totalUsers == 0 ==> r.avgVocabularyPerUser == 0.0
    {
      DatabaseStats(|users|, |vocabulary|, |sessions|, |chatMessages|, Average(|vocabulary|, |users|))
    }
  }
}
