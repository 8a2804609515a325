/**
 * The Firebase-backed store (src/database.py, class VocabDatabase) over an
 * in-memory copy of its tree:
 *
 *   users/<user key>                      {username, created_at}
 *   vocabulary/<user id>/<entry key>      {word, definition, examples, notes, created_at}
 *   chats/<user id>/<chat id>             {name, created_at}
 *   messages/<chat id>/<message key>      {role, content, created_at}
 *
 * A single clock stands for both `datetime.now()` and Firebase's push-key
 * generator: every write takes the current tick as its timestamp and, when it
 * pushes, as its key, then advances the clock. Firebase does not store empty
 * nodes, so a missing child and an empty one read the same: an entry written
 * with an empty example list comes back without its `examples` child.
 */
module FirebaseStore {
  import opened Wrappers
  import opened Ordering

  /** A node key: one generated by `push()` (ordered by creation) or one chosen by the caller. */
  datatype Key = Pushed(tick: nat) | Named(name: string)

  datatype UserRecord = UserRecord(username: string, createdAt: nat)
  datatype VocabEntry = VocabEntry(word: string, definition: string, examples: seq<string>, notes: string, createdAt: nat)
  datatype ChatRecord = ChatRecord(name: string, createdAt: nat)
  datatype MessageRecord = MessageRecord(role: string, content: string, createdAt: nat)

  /** The dictionaries the read operations return. */
  datatype VocabItem = VocabItem(word: string, definition: string, examples: seq<string>, notes: string)
  datatype ChatSummary = ChatSummary(id: Key, name: string, createdAt: nat)
  datatype MessageView = MessageView(role: string, content: string, createdAt: nat)

  /**
   * add_vocabulary's ValueError, and the KeyError of get_user_vocabulary on an
   * entry whose `examples` child Firebase dropped.
   */
  datatype StoreError = DuplicateWord(word: string) | MissingExamples

  predicate KeyBefore(k: Key, clock: nat) {
    k.Pushed? ==> k.tick < clock
  }

  predicate KeysBefore<V>(m: map<Key, V>, clock: nat) {
    forall k :: k in m ==> KeyBefore(k, clock)
  }

  predicate NestedKeysBefore<V>(m: map<Key, map<Key, V>>, clock: nat) {
    forall u :: u in m ==> KeysBefore(m[u], clock)
  }

  predicate UniqueUsernames(users: map<Key, UserRecord>) {
    forall a, b :: a in users && b in users && users[a].username == users[b].username ==> a == b
  }

  predicate UniqueWords(entries: map<Key, VocabEntry>) {
    forall a, b :: a in entries && b in entries && entries[a].word == entries[b].word ==> a == b
  }

  /** `chatId` is one of the sessions filed under `userId`. */
  predicate Owns(chats: map<Key, map<Key, ChatRecord>>, userId: Key, chatId: Key) {
    userId in chats && chatId in chats[userId]
  }

  /** The tree with one session renamed, its timestamp kept. */
  function Renamed(chats: map<Key, map<Key, ChatRecord>>, userId: Key, chatId: Key, newName: string): map<Key, map<Key, ChatRecord>>
    requires Owns(chats, userId, chatId)
  {
    chats[userId := chats[userId][chatId := ChatRecord(newName, chats[userId][chatId].createdAt)]]
  }

  function AsVocabItem(e: VocabEntry): VocabItem {
    VocabItem(e.word, e.definition, e.examples, e.notes)
  }

  function WordOf(item: VocabItem): string {
    item.word
  }

  function NewestFirst(c: ChatSummary): int {
    0 - c.createdAt as int
  }

  function OldestFirst(m: MessageView): int {
    m.createdAt
  }

  /** The items of `entries`, collected as `items` and sorted by word. */
  lemma SortedVocabItems(entries: map<Key, VocabEntry>, items: seq<VocabItem>)
    requires |items| == |entries|
    requires forall item :: item in items <==> exists k :: k in entries && AsVocabItem(entries[k]) == item
    ensures var r := SortByText(items, WordOf);
            |r| == |entries| &&
            (forall item :: item in r <==> exists k :: k in entries && AsVocabItem(entries[k]) == item) &&
            SortedByText(r, WordOf)
  {
    SortByTextKeepsItems(items, WordOf);
  }

  /** Sorting by NewestFirst keeps the summaries and puts the newest session first. */
  lemma NewestFirstSorted(items: seq<ChatSummary>)
    ensures |SortByInt(items, NewestFirst)| == |items|
    ensures forall c :: c in SortByInt(items, NewestFirst) <==> c in items
    ensures var r := SortByInt(items, NewestFirst);
            forall i, j :: 0 <= i < j < |r| ==> r[i].createdAt >= r[j].createdAt
  {
    var r := SortByInt(items, NewestFirst);
    SortByIntKeepsItems(items, NewestFirst);
    forall i, j | 0 <= i < j < |r| ensures r[i].createdAt >= r[j].createdAt {
      assert NewestFirst(r[i]) <= NewestFirst(r[j]);
    }
  }

  /** Some entry was written with no examples, so Firebase holds no `examples` child for it. */
  predicate HasEmptyExamples(entries: map<Key, VocabEntry>) {
    exists k :: k in entries && entries[k].examples == []
  }

  /** The entries of a map other than those whose word is `word`. */
  function WithoutWord(entries: map<Key, VocabEntry>, word: string): map<Key, VocabEntry> {
    map k | k in entries && entries[k].word != word :: entries[k]
  }

  class VocabDatabase {
    var users: map<Key, UserRecord>
    var vocabulary: map<Key, map<Key, VocabEntry>>
    var chats: map<Key, map<Key, ChatRecord>>
    var messages: map<Key, map<Key, MessageRecord>>
    var clock: nat

    /**
     * Every pushed key was generated before the current tick; usernames are
     * unique among users; a word occurs at most once in a user's vocabulary.
     */
    ghost predicate Valid()
      reads this
    {
      KeysBefore(users, clock) && NestedKeysBefore(vocabulary, clock) &&
      NestedKeysBefore(chats, clock) && NestedKeysBefore(messages, clock) &&
      UniqueUsernames(users) && (forall u :: u in vocabulary ==> UniqueWords(vocabulary[u]))
    }

    constructor()
      ensures Valid()
      ensures users == map[] && vocabulary == map[] && chats == map[] && messages == map[]
    {
      users := map[];
      vocabulary := map[];
      chats := map[];
      messages := map[];
      clock := 0;
    }

    function VocabOf(userId: Key): map<Key, VocabEntry>
      reads this
    {
      if userId in vocabulary then vocabulary[userId] else map[]
    }

    function ChatsOf(userId: Key): map<Key, ChatRecord>
      reads this
    {
      if userId in chats then chats[userId] else map[]
    }

    function MessagesOf(chatId: Key): map<Key, MessageRecord>
      reads this
    {
      if chatId in messages then messages[chatId] else map[]
    }

    predicate HasWord(userId: Key, word: string)
      reads this
    {
      exists k :: k in VocabOf(userId) && VocabOf(userId)[k].word == word
    }

    predicate HasUser(username: string)
      reads this
    {
      exists k :: k in users && users[k].username == username
    }

    // -------------------------------------------------------------------------
    // Users
    // -------------------------------------------------------------------------

    /**
     * get_or_create_user: the key of the user with that name; when there is none,
     * one new user with that name under a fresh key. Usernames stay unique, so a
     * second call with the same name returns the same key and changes nothing.
     */
    method GetOrCreateUser(username: string) returns (userId: Key)
      requires Valid()
      modifies this
      ensures Valid()
      ensures userId in users && users[userId].username == username
      ensures old(HasUser(username)) ==> userId in old(users) && users == old(users) && clock == old(clock)
      ensures !old(HasUser(username)) ==>
                userId == Pushed(old(clock)) && userId !in old(users) &&
                users == old(users)[userId := UserRecord(username, old(clock))] && clock == old(clock) + 1
      ensures vocabulary == old(vocabulary) && chats == old(chats) && messages == old(messages)
    {
      if k :| k in users && users[k].username == username {
        return k;
      }
      userId := Pushed(clock);
      users := users[userId := UserRecord(username, clock)];
      clock := clock + 1;
    }

    // -------------------------------------------------------------------------
    // Vocabulary
    // -------------------------------------------------------------------------

    /**
     * add_vocabulary: rejects a word already in the user's list; otherwise pushes
     * exactly one new entry under a fresh key and returns True.
     */
    method AddVocabulary(userId: Key, word: string, definition: string, examples: seq<string>, notes: string)
      returns (r: Result<bool, StoreError>)
      requires Valid()
      modifies this
      ensures Valid()
      ensures old(HasWord(userId, word)) ==> r == Err(DuplicateWord(word)) && vocabulary == old(vocabulary) && clock == old(clock)
      ensures !old(HasWord(userId, word)) ==>
                r == Ok(true) && Pushed(old(clock)) !in old(VocabOf(userId)) &&
                vocabulary == old(vocabulary)[userId := old(VocabOf(userId))[Pushed(old(clock)) :=
                                                 VocabEntry(word, definition, examples, notes, old(clock))]] &&
                clock == old(clock) + 1
      ensures users == old(users) && chats == old(chats) && messages == old(messages)
    {
      if HasWord(userId, word) {
        return Err(DuplicateWord(word));
      }
      var entries := VocabOf(userId);
      var key := Pushed(clock);
      assert KeysBefore(entries, clock);
      vocabulary := vocabulary[userId := entries[key := VocabEntry(word, definition, examples, notes, clock)]];
      clock := clock + 1;
      return Ok(true);
    }

    /**
     * get_user_vocabulary: one item per entry of the user (without its
     * timestamp), sorted by word; [] for a user with no entries. Reading
     * `value['examples']` of an entry stored with no examples raises KeyError.
     */
    method GetUserVocabulary(userId: Key) returns (r: Result<seq<VocabItem>, StoreError>)
      requires Valid()
      ensures r.Err? <==> HasEmptyExamples(VocabOf(userId))
      ensures r.Err? ==> r.error == MissingExamples
      ensures r.Ok? ==> |r.value| == |VocabOf(userId)|
      ensures r.Ok? ==> forall item :: item in r.value <==> exists k :: k in VocabOf(userId) && AsVocabItem(VocabOf(userId)[k]) == item
      ensures r.Ok? ==> SortedByText(r.value, WordOf)
    {
      var entries := VocabOf(userId);
      if |entries| == 0 {
        return Ok([]);
      }
      var items: seq<VocabItem> := [];
      var visited: set<Key> := {};
      while visited != entries.Keys
        invariant visited <= entries.Keys
        invariant |items| == |visited|
        invariant forall item :: item in items <==> exists k :: k in visited && AsVocabItem(entries[k]) == item
        invariant forall k :: k in visited ==> entries[k].examples != []
        decreases entries.Keys - visited
      {
        var k :| k in entries.Keys && k !in visited;
        if entries[k].examples == [] {
          return Err(MissingExamples);
        }
        items := items + [AsVocabItem(entries[k])];
        visited := visited + {k};
      }
      assert |entries.Keys| == |entries|;
      SortedVocabItems(entries, items);
      return Ok(SortByText(items, WordOf));
    }

    /**
     * delete_vocabulary: removes every entry of the user whose word matches and
     * answers whether there was one; every other entry and user is untouched.
     */
    method DeleteVocabulary(userId: Key, word: string) returns (deleted: bool)
      requires Valid()
      modifies this
      ensures Valid()
      ensures deleted <==> old(HasWord(userId, word))
      ensures deleted ==> vocabulary == old(vocabulary)[userId := WithoutWord(old(VocabOf(userId)), word)]
      ensures !deleted ==> vocabulary == old(vocabulary)
      ensures users == old(users) && chats == old(chats) && messages == old(messages) && clock == old(clock)
    {
      if !HasWord(userId, word) {
        return false;
      }
      var entries := VocabOf(userId);
      var matching := set k | k in entries && entries[k].word == word;
      var remaining := entries;
      var toDelete := matching;
      while toDelete != {}
        invariant toDelete <= matching
        invariant remaining == map k | k in entries && k !in (matching - toDelete) :: entries[k]
        decreases toDelete
      {
        var k :| k in toDelete;
        remaining := map j | j in remaining && j != k :: remaining[j];
        toDelete := toDelete - {k};
      }
      assert remaining == WithoutWord(entries, word);
      vocabulary := vocabulary[userId := remaining];
      return true;
    }

    // -------------------------------------------------------------------------
    // Chats and messages
    // -------------------------------------------------------------------------

    /**
     * create_chat_session: with a non-empty chat id the session is written under
     * that id (replacing any session there) and the id is returned; otherwise
     * it is pushed under a fresh key.
     */
    method CreateChatSession(userId: Key, name: string, chatId: Option<string>) returns (id: Key)
      requires Valid()
      modifies this
      ensures Valid()
      ensures chatId.Some? && chatId.value != [] ==> id == Named(chatId.value)
      ensures !(chatId.Some? && chatId.value != []) ==> id == Pushed(old(clock)) && id !in old(ChatsOf(userId))
      ensures chats == old(chats)[userId := old(ChatsOf(userId))[id := ChatRecord(name, old(clock))]]
      ensures users == old(users) && vocabulary == old(vocabulary) && messages == old(messages)
      ensures clock == old(clock) + 1
    {
      var sessions := ChatsOf(userId);
      if chatId.Some? && chatId.value != [] {
        id := Named(chatId.value);
      } else {
        id := Pushed(clock);
        assert KeysBefore(sessions, clock);
      }
      chats := chats[userId := sessions[id := ChatRecord(name, clock)]];
      clock := clock + 1;
    }

    /** get_user_chats: one summary per session of the user, newest first. */
    method GetUserChats(userId: Key) returns (r: seq<ChatSummary>)
      ensures |r| == |ChatsOf(userId)|
      ensures forall c :: c in r <==> c.id in ChatsOf(userId) && ChatsOf(userId)[c.id] == ChatRecord(c.name, c.createdAt)
      ensures forall i, j :: 0 <= i < j < |r| ==> r[i].createdAt >= r[j].createdAt
    {
      var sessions := ChatsOf(userId);
      if |sessions| == 0 {
        return [];
      }
      var items: seq<ChatSummary> := [];
      var visited: set<Key> := {};
      while visited != sessions.Keys
        invariant visited <= sessions.Keys
        invariant |items| == |visited|
        invariant forall c :: c in items <==> c.id in visited && sessions[c.id] == ChatRecord(c.name, c.createdAt)
        decreases sessions.Keys - visited
      {
        var k :| k in sessions.Keys && k !in visited;
        items := items + [ChatSummary(k, sessions[k].name, sessions[k].createdAt)];
        visited := visited + {k};
      }
      r := SortByInt(items, NewestFirst);
      NewestFirstSorted(items);
      assert |sessions.Keys| == |sessions|;
    }

    /** add_chat_message: pushes exactly one message under a fresh key of that chat. */
    method AddChatMessage(chatId: Key, role: string, content: string)
      requires Valid()
      modifies this
      ensures Valid()
      ensures Pushed(old(clock)) !in old(MessagesOf(chatId))
      ensures messages == old(messages)[chatId := old(MessagesOf(chatId))[Pushed(old(clock)) :=
                                           MessageRecord(role, content, old(clock))]]
      ensures users == old(users) && vocabulary == old(vocabulary) && chats == old(chats)
      ensures clock == old(clock) + 1
    {
      var chatMessages := MessagesOf(chatId);
      var key := Pushed(clock);
      assert KeysBefore(chatMessages, clock);
      messages := messages[chatId := chatMessages[key := MessageRecord(role, content, clock)]];
      clock := clock + 1;
    }

    /** get_chat_messages: the chat's messages without their keys, oldest first; [] if none. */
    method GetChatMessages(chatId: Key) returns (r: seq<MessageView>)
      ensures |r| == |MessagesOf(chatId)|
      ensures forall m :: m in r <==> exists k :: k in MessagesOf(chatId) && MessagesOf(chatId)[k] == MessageRecord(m.role, m.content, m.createdAt)
      ensures forall i, j :: 0 <= i < j < |r| ==> r[i].createdAt <= r[j].createdAt
    {
      var chatMessages := MessagesOf(chatId);
      if |chatMessages| == 0 {
        return [];
      }
      var items: seq<MessageView> := [];
      var visited: set<Key> := {};
      while visited != chatMessages.Keys
        invariant visited <= chatMessages.Keys
        invariant |items| == |visited|
        invariant forall m :: m in items <==> exists k :: k in visited && chatMessages[k] == MessageRecord(m.role, m.content, m.createdAt)
        decreases chatMessages.Keys - visited
      {
        var k :| k in chatMessages.Keys && k !in visited;
        var record := chatMessages[k];
        items := items + [MessageView(record.role, record.content, record.createdAt)];
        visited := visited + {k};
      }
      r := SortByInt(items, OldestFirst);
      SortByIntKeepsItems(items, OldestFirst);
      assert |chatMessages.Keys| == |chatMessages|;
    }

    /**
     * delete_chat_session: always deletes the chat's messages; then removes the
     * session from the user who owns it and answers True, or answers False when
     * no user owns it.
     */
    method DeleteChatSession(chatId: Key) returns (deleted: bool)
      requires Valid()
      modifies this
      ensures Valid()
      ensures messages == old(messages) - {chatId}
      ensures deleted <==> exists u :: Owns(old(chats), u, chatId)
      ensures deleted ==> exists u :: Owns(old(chats), u, chatId) && chats == old(chats)[u := old(chats)[u] - {chatId}]
      ensures !deleted ==> chats == old(chats)
      ensures users == old(users) && vocabulary == old(vocabulary) && clock == old(clock)
    {
      messages := messages - {chatId};
      var before := chats;
      // The source stops at the first owner in the order the database lists
      // users; that order is not modelled, so any owner may be chosen.
      if u :| u in chats && chatId in chats[u] {
        chats := chats[u := chats[u] - {chatId}];
        assert Owns(before, u, chatId);
        return true;
      }
      return false;
    }

    /**
     * update_chat_name: renames the session in the owning user's chats, keeping
     * its timestamp, and answers True; False when no user owns the chat.
     */
    method UpdateChatName(chatId: Key, newName: string) returns (updated: bool)
      requires Valid()
      modifies this
      ensures Valid()
      ensures updated <==> exists u :: Owns(old(chats), u, chatId)
      ensures updated ==> exists u :: Owns(old(chats), u, chatId) && chats == Renamed(old(chats), u, chatId, newName)
      ensures !updated ==> chats == old(chats)
      ensures users == old(users) && vocabulary == old(vocabulary) && messages == old(messages) && clock == old(clock)
    {
      var before := chats;
      // Any owner stands for the first one in the database's listing order.
      if u :| u in chats && chatId in chats[u] {
        chats := Renamed(chats, u, chatId, newName);
        assert Owns(before, u, chatId);
        return true;
      }
      return false;
    }
  }

}
