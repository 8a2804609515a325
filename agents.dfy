/**
 * The per-turn orchestration of the vocabulary chatbot (src/agents.py): the
 * history window loaded from the chat store, the router ("agent") node, the
 * tool node, the response generator, the fixed routing graph and one whole
 * turn. The language model, the retriever and the tools' prompt texts are
 * parameters or opaque constants.
 */
module Agents {
  import opened Wrappers
  import opened Text

  // ---------------------------------------------------------------------------
  // Messages and state
  // ---------------------------------------------------------------------------

  /** A tool invocation requested by the model: tool name, its single string argument, call id. */
  datatype ToolCall = ToolCall(name: string, argument: string, id: string)

  /** HumanMessage, AIMessage (with its tool calls) and ToolMessage. */
  datatype Message =
    | Human(content: string)
    | Ai(content: string, toolCalls: seq<ToolCall>)
    | ToolResult(content: string, toolCallId: string)

  /** What the model returns: text plus the tool calls it chose to issue. */
  datatype ModelReply = ModelReply(text: string, calls: seq<ToolCall>)

  /** A stored chat message as the chat store returns it (already oldest first). */
  datatype StoredMessage = StoredMessage(role: string, content: string)

  /** VocabState: the messages, the open-ended context mapping and the user id. */
  datatype VocabState = VocabState(messages: seq<Message>, context: map<string, string>, userId: string)

  /** What a node returns: new messages to append, and the context and user id to keep. */
  datatype NodeUpdate = NodeUpdate(messages: seq<Message>, context: map<string, string>, userId: string)

  /** Python's IndexError when the generator indexes `messages[-1]` or `messages[-2]` of a short list. */
  datatype GraphError = IndexError

  /** The message reducer: a node's messages are appended, its context and user id replace the old ones. */
  function Apply(s: VocabState, u: NodeUpdate): VocabState {
    VocabState(s.messages + u.messages, u.context, u.userId)
  }

  function Last<T>(xs: seq<T>): T
    requires xs != []
  {
    xs[|xs| - 1]
  }

  // ---------------------------------------------------------------------------
  // History window (get_recent_chat_history)
  // ---------------------------------------------------------------------------

  const USER_ROLE: string := "user"
  const ASSISTANT_ROLE: string := "assistant"

  function Min(x: int, y: int): int {
    if x <= y then x else y
  }

  function Max0(x: int): nat {
    if x < 0 then 0 else x
  }

  /** Number of stored messages with the given role. */
  function CountRole(s: seq<StoredMessage>, role: string): nat {
    if s == [] then 0 else CountRole(s[..|s| - 1], role) + (if s[|s| - 1].role == role then 1 else 0)
  }

  function CountHuman(ms: seq<Message>): nat {
    if ms == [] then 0 else CountHuman(ms[..|ms| - 1]) + (if Last(ms).Human? then 1 else 0)
  }

  function CountAi(ms: seq<Message>): nat {
    if ms == [] then 0 else CountAi(ms[..|ms| - 1]) + (if Last(ms).Ai? then 1 else 0)
  }

  /**
   * The backward scan: `s` is what is left to scan (its last element is scanned
   * next), `users` and `assistants` are the messages of each role already kept,
   * `quota` is the per-role limit. Each kept message goes in front of the later ones.
   */
  function WindowFrom(s: seq<StoredMessage>, quota: int, users: nat, assistants: nat): seq<Message> {
    if s == [] then []
    else
      var m := Last(s);
      if m.role == USER_ROLE && users < quota then
        WindowFrom(s[..|s| - 1], quota, users + 1, assistants) + [Human(m.content)]
      else if m.role == ASSISTANT_ROLE && assistants < quota then
        WindowFrom(s[..|s| - 1], quota, users, assistants + 1) + [Ai(m.content, [])]
      else
        WindowFrom(s[..|s| - 1], quota, users, assistants)
  }

  /** The window for `max_messages`: `max_messages // 2` messages per role at most. */
  function HistoryWindow(stored: seq<StoredMessage>, maxMessages: int): seq<Message> {
    WindowFrom(stored, maxMessages / 2, 0, 0)
  }

  lemma {:induction false} WindowSaturated(s: seq<StoredMessage>, quota: int, users: nat, assistants: nat)
    requires users >= quota && assistants >= quota
    ensures WindowFrom(s, quota, users, assistants) == []
  {
    if s != [] {
      WindowSaturated(s[..|s| - 1], quota, users, assistants);
    }
  }

  /**
   * get_recent_chat_history: scans the stored messages newest first, keeps at most
   * `max_messages // 2` of each role, inserts each kept message at the front, and
   * stops once both quotas are full.
   */
  method GetRecentChatHistory(stored: seq<StoredMessage>, maxMessages: int) returns (recent: seq<Message>)
    ensures recent == HistoryWindow(stored, maxMessages)
    ensures stored == [] ==> recent == []
  {
    if |stored| == 0 {
      return [];
    }
    var maxPerRole := maxMessages / 2;
    recent := [];
    var userCount: nat := 0;
    var assistantCount: nat := 0;
    var i := |stored|;
    assert stored[..i] == stored;
    while i > 0
      invariant 0 <= i <= |stored|
      invariant HistoryWindow(stored, maxMessages) == WindowFrom(stored[..i], maxPerRole, userCount, assistantCount) + recent
    {
      assert stored[..i][..i - 1] == stored[..i - 1];
      i := i - 1;
      var msg := stored[i];
      if msg.role == USER_ROLE && userCount < maxPerRole {
        recent := [Human(msg.content)] + recent;
        userCount := userCount + 1;
      } else if msg.role == ASSISTANT_ROLE && assistantCount < maxPerRole {
        recent := [Ai(msg.content, [])] + recent;
        assistantCount := assistantCount + 1;
      }
      if userCount >= maxPerRole && assistantCount >= maxPerRole {
        WindowSaturated(stored[..i], maxPerRole, userCount, assistantCount);
        break;
      }
    }
    assert stored[..0] == [];
  }

  /** Appending one message adds one to its own kind's count and nothing to the other. */
  lemma CountsSnoc(w: seq<Message>, x: Message)
    ensures CountHuman(w + [x]) == CountHuman(w) + (if x.Human? then 1 else 0)
    ensures CountAi(w + [x]) == CountAi(w) + (if x.Ai? then 1 else 0)
  {
    assert (w + [x])[..|w|] == w;
  }

  /** Every message of the window is a user or an assistant message. */
  lemma {:induction false} WindowFromLength(s: seq<StoredMessage>, quota: int, users: nat, assistants: nat)
    ensures |WindowFrom(s, quota, users, assistants)| ==
            CountHuman(WindowFrom(s, quota, users, assistants)) + CountAi(WindowFrom(s, quota, users, assistants))
  {
    if s != [] {
      var m := Last(s);
      var init := s[..|s| - 1];
      var w := WindowFrom(s, quota, users, assistants);
      if m.role == USER_ROLE && users < quota {
        var w0 := WindowFrom(init, quota, users + 1, assistants);
        WindowFromLength(init, quota, users + 1, assistants);
        assert w == w0 + [Human(m.content)];
        CountsSnoc(w0, Human(m.content));
      } else if m.role == ASSISTANT_ROLE && assistants < quota {
        var w0 := WindowFrom(init, quota, users, assistants + 1);
        WindowFromLength(init, quota, users, assistants + 1);
        assert w == w0 + [Ai(m.content, [])];
        CountsSnoc(w0, Ai(m.content, []));
      } else {
        WindowFromLength(init, quota, users, assistants);
      }
    }
  }

  /** Users already kept after the scan looks at `m`. */
  function UsersAfter(m: StoredMessage, quota: int, users: nat): nat {
    if m.role == USER_ROLE && users < quota then users + 1 else users
  }

  /** Assistant messages already kept after the scan looks at `m`. */
  function AssistantsAfter(m: StoredMessage, quota: int, users: nat, assistants: nat): nat {
    if m.role == USER_ROLE && users < quota then assistants
    else if m.role == ASSISTANT_ROLE && assistants < quota then assistants + 1
    else assistants
  }

  /** One step of the scan: what the newest message adds to each count of the window. */
  lemma WindowStepCounts(s: seq<StoredMessage>, quota: int, users: nat, assistants: nat)
    requires s != []
    ensures var m := Last(s);
            var w0 := WindowFrom(s[..|s| - 1], quota, UsersAfter(m, quota, users), AssistantsAfter(m, quota, users, assistants));
            CountHuman(WindowFrom(s, quota, users, assistants)) ==
              CountHuman(w0) + (if m.role == USER_ROLE && users < quota then 1 else 0) &&
            CountAi(WindowFrom(s, quota, users, assistants)) ==
              CountAi(w0) + (if m.role != USER_ROLE && m.role == ASSISTANT_ROLE && assistants < quota then 1 else 0)
  {
    var m := Last(s);
    var init := s[..|s| - 1];
    var w0 := WindowFrom(init, quota, UsersAfter(m, quota, users), AssistantsAfter(m, quota, users, assistants));
    if m.role == USER_ROLE && users < quota {
      assert WindowFrom(s, quota, users, assistants) == w0 + [Human(m.content)];
      CountsSnoc(w0, Human(m.content));
    } else if m.role == ASSISTANT_ROLE && assistants < quota {
      assert WindowFrom(s, quota, users, assistants) == w0 + [Ai(m.content, [])];
      CountsSnoc(w0, Ai(m.content, []));
    } else {
      assert WindowFrom(s, quota, users, assistants) == w0;
    }
  }

  /** The window keeps min(u, q) user messages. */
  lemma {:induction false} WindowFromUsers(s: seq<StoredMessage>, quota: int, users: nat, assistants: nat)
    ensures CountHuman(WindowFrom(s, quota, users, assistants)) == Min(CountRole(s, USER_ROLE), Max0(quota - users))
  {
    if s != [] {
      var m := Last(s);
      var init := s[..|s| - 1];
      var u := UsersAfter(m, quota, users);
      var a := AssistantsAfter(m, quota, users, assistants);
      assert CountRole(s, USER_ROLE) == CountRole(init, USER_ROLE) + (if m.role == USER_ROLE then 1 else 0);
      WindowStepCounts(s, quota, users, assistants);
      WindowFromUsers(init, quota, u, a);
    }
  }

  /** The window keeps min(a, q) assistant messages. */
  lemma {:induction false} WindowFromAssistants(s: seq<StoredMessage>, quota: int, users: nat, assistants: nat)
    ensures CountAi(WindowFrom(s, quota, users, assistants)) == Min(CountRole(s, ASSISTANT_ROLE), Max0(quota - assistants))
  {
    if s != [] {
      var m := Last(s);
      var init := s[..|s| - 1];
      var u := UsersAfter(m, quota, users);
      var a := AssistantsAfter(m, quota, users, assistants);
      assert CountRole(s, ASSISTANT_ROLE) == CountRole(init, ASSISTANT_ROLE) + (if m.role == ASSISTANT_ROLE then 1 else 0);
      WindowStepCounts(s, quota, users, assistants);
      WindowFromAssistants(init, quota, u, a);
    }
  }

  /**
   * History windowing: for `u` user and `a` assistant messages, the window holds
   * exactly min(u, m // 2) user messages, min(a, m // 2) assistant messages, and
   * no other message.
   */
  lemma WindowCounts(stored: seq<StoredMessage>, maxMessages: int)
    ensures CountHuman(HistoryWindow(stored, maxMessages)) == Min(CountRole(stored, USER_ROLE), Max0(maxMessages / 2))
    ensures CountAi(HistoryWindow(stored, maxMessages)) == Min(CountRole(stored, ASSISTANT_ROLE), Max0(maxMessages / 2))
    ensures |HistoryWindow(stored, maxMessages)| ==
            Min(CountRole(stored, USER_ROLE), Max0(maxMessages / 2)) +
            Min(CountRole(stored, ASSISTANT_ROLE), Max0(maxMessages / 2))
  {
    WindowFromUsers(stored, maxMessages / 2, 0, 0);
    WindowFromAssistants(stored, maxMessages / 2, 0, 0);
    WindowFromLength(stored, maxMessages / 2, 0, 0);
  }

  /** A stored message as the window presents it. */
  function AsMessage(m: StoredMessage): Message {
    if m.role == USER_ROLE then Human(m.content) else Ai(m.content, [])
  }

  /** A message is kept when fewer than its role's quota of same-role messages come after it. */
  predicate Kept(m: StoredMessage, after: seq<StoredMessage>, userQuota: int, assistantQuota: int) {
    (m.role == USER_ROLE && CountRole(after, USER_ROLE) < userQuota) ||
    (m.role == ASSISTANT_ROLE && CountRole(after, ASSISTANT_ROLE) < assistantQuota)
  }

  /** Reference definition, read front to back: the kept messages in their stored order. */
  function KeptMessages(s: seq<StoredMessage>, userQuota: int, assistantQuota: int): seq<Message> {
    if s == [] then []
    else (if Kept(s[0], s[1..], userQuota, assistantQuota) then [AsMessage(s[0])] else [])
         + KeptMessages(s[1..], userQuota, assistantQuota)
  }

  lemma CountRoleSnoc(s: seq<StoredMessage>, m: StoredMessage, role: string)
    ensures CountRole(s + [m], role) == CountRole(s, role) + (if m.role == role then 1 else 0)
  {
    assert (s + [m])[..|s|] == s;
  }

  /** A message one more message of a role is after sees that role's quota one smaller. */
  lemma KeptBeforeSnoc(x: StoredMessage, rest: seq<StoredMessage>, m: StoredMessage, userQuota: int, assistantQuota: int)
    ensures Kept(x, rest + [m], userQuota, assistantQuota) ==
            Kept(x, rest, userQuota - (if m.role == USER_ROLE then 1 else 0),
                          assistantQuota - (if m.role == ASSISTANT_ROLE then 1 else 0))
  {
    CountRoleSnoc(rest, m, USER_ROLE);
    CountRoleSnoc(rest, m, ASSISTANT_ROLE);
  }

  lemma {:induction false} KeptMessagesSnoc(init: seq<StoredMessage>, m: StoredMessage, userQuota: int, assistantQuota: int)
    ensures KeptMessages(init + [m], userQuota, assistantQuota) ==
            KeptMessages(init, userQuota - (if m.role == USER_ROLE then 1 else 0),
                               assistantQuota - (if m.role == ASSISTANT_ROLE then 1 else 0))
            + (if Kept(m, [], userQuota, assistantQuota) then [AsMessage(m)] else [])
  {
    var uq := userQuota - (if m.role == USER_ROLE then 1 else 0);
    var aq := assistantQuota - (if m.role == ASSISTANT_ROLE then 1 else 0);
    var last := if Kept(m, [], userQuota, assistantQuota) then [AsMessage(m)] else [];
    if init == [] {
      assert [m][1..] == [];
      assert KeptMessages([m], userQuota, assistantQuota) == last + KeptMessages([], userQuota, assistantQuota);
    } else {
      var x := init[0];
      var rest := init[1..];
      var s := init + [m];
      assert s[0] == x;
      assert s[1..] == rest + [m];
      KeptBeforeSnoc(x, rest, m, userQuota, assistantQuota);
      var head := if Kept(x, rest, uq, aq) then [AsMessage(x)] else [];
      assert KeptMessages(s, userQuota, assistantQuota) == head + KeptMessages(rest + [m], userQuota, assistantQuota);
      KeptMessagesSnoc(rest, m, userQuota, assistantQuota);
      assert KeptMessages(init, uq, aq) == head + KeptMessages(rest, uq, aq);
    }
  }

  /** KeptMessagesSnoc for a non-empty sequence split before its last message. */
  lemma KeptMessagesOfLast(s: seq<StoredMessage>, userQuota: int, assistantQuota: int)
    requires s != []
    ensures var m := Last(s);
            KeptMessages(s, userQuota, assistantQuota) ==
            KeptMessages(s[..|s| - 1], userQuota - (if m.role == USER_ROLE then 1 else 0),
                                       assistantQuota - (if m.role == ASSISTANT_ROLE then 1 else 0))
            + (if Kept(m, [], userQuota, assistantQuota) then [AsMessage(m)] else [])
  {
    var init := s[..|s| - 1];
    assert init + [Last(s)] == s;
    KeptMessagesSnoc(init, Last(s), userQuota, assistantQuota);
  }

  /** Once a role's quota is used up, using it up further changes nothing. */
  lemma {:induction false} KeptMessagesExhausted(s: seq<StoredMessage>, u1: int, u2: int, a1: int, a2: int)
    requires u1 == u2 || (u1 <= 0 && u2 <= 0)
    requires a1 == a2 || (a1 <= 0 && a2 <= 0)
    ensures KeptMessages(s, u1, a1) == KeptMessages(s, u2, a2)
  {
    if s != [] {
      KeptMessagesExhausted(s[1..], u1, u2, a1, a2);
    }
  }

  /** 1 when WindowFrom takes `m` for `role`, whose counter stands at `count`. */
  function Taken(m: StoredMessage, role: string, quota: int, count: nat): nat {
    if m.role == role && count < quota then 1 else 0
  }

  /** One step of WindowFrom: the last message goes in when its role's quota is not used up. */
  lemma WindowFromLast(s: seq<StoredMessage>, quota: int, users: nat, assistants: nat)
    requires s != []
    ensures var m := Last(s);
            var du, da := Taken(m, USER_ROLE, quota, users), Taken(m, ASSISTANT_ROLE, quota, assistants);
            WindowFrom(s, quota, users, assistants) ==
            WindowFrom(s[..|s| - 1], quota, users + du, assistants + da) + (if du + da == 1 then [AsMessage(m)] else [])
  {
  }

  /**
   * The KeptMessages step for a last message `m`, rewritten with the quotas
   * WindowFrom's counters leave.
   */
  lemma KeptMessagesLast(init: seq<StoredMessage>, m: StoredMessage, quota: int, users: nat, assistants: nat)
    ensures var uq, aq := quota - users, quota - assistants;
            var du, da := Taken(m, USER_ROLE, quota, users), Taken(m, ASSISTANT_ROLE, quota, assistants);
            KeptMessages(init, uq - (if m.role == USER_ROLE then 1 else 0), aq - (if m.role == ASSISTANT_ROLE then 1 else 0))
            + (if Kept(m, [], uq, aq) then [AsMessage(m)] else []) ==
            KeptMessages(init, quota - (users + du), quota - (assistants + da)) + (if du + da == 1 then [AsMessage(m)] else [])
  {
    var uq, aq := quota - users, quota - assistants;
    if m.role == USER_ROLE {
      KeptMessagesExhausted(init, uq - 1, if users < quota then uq - 1 else uq, aq, aq);
    } else if m.role == ASSISTANT_ROLE {
      KeptMessagesExhausted(init, uq, uq, aq - 1, if assistants < quota then aq - 1 else aq);
    }
  }

  /** One step of the induction below: from the window of all but the last message to the whole window. */
  lemma WindowFromIsKeptStep(s: seq<StoredMessage>, quota: int, users: nat, assistants: nat)
    requires s != []
    requires var m := Last(s);
             var du, da := Taken(m, USER_ROLE, quota, users), Taken(m, ASSISTANT_ROLE, quota, assistants);
             WindowFrom(s[..|s| - 1], quota, users + du, assistants + da) ==
             KeptMessages(s[..|s| - 1], quota - (users + du), quota - (assistants + da))
    ensures WindowFrom(s, quota, users, assistants) == KeptMessages(s, quota - users, quota - assistants)
  {
    WindowFromLast(s, quota, users, assistants);
    KeptMessagesOfLast(s, quota - users, quota - assistants);
    KeptMessagesLast(s[..|s| - 1], Last(s), quota, users, assistants);
  }

  lemma {:induction false} WindowFromIsKept(s: seq<StoredMessage>, quota: int, users: nat, assistants: nat)
    ensures WindowFrom(s, quota, users, assistants) == KeptMessages(s, quota - users, quota - assistants)
  {
    if s != [] {
      var m := Last(s);
      var du, da := Taken(m, USER_ROLE, quota, users), Taken(m, ASSISTANT_ROLE, quota, assistants);
      WindowFromIsKept(s[..|s| - 1], quota, users + du, assistants + da);
      WindowFromIsKeptStep(s, quota, users, assistants);
    }
  }

  /**
   * The window is the subsequence, in stored order, of the user and assistant
   * messages that have fewer than `max_messages // 2` messages of their own role
   * after them: for each role it keeps that role's most recent messages, and no
   * other role ever appears.
   */
  lemma WindowIsMostRecentPerRole(stored: seq<StoredMessage>, maxMessages: int)
    ensures HistoryWindow(stored, maxMessages) == KeptMessages(stored, maxMessages / 2, maxMessages / 2)
  {
    WindowFromIsKept(stored, maxMessages / 2, 0, 0);
  }

  // ---------------------------------------------------------------------------
  // Router node (agent)
  // ---------------------------------------------------------------------------

  /** The router's fixed instruction (prompt text, opaque here). */
  const ROUTER_INSTRUCTION: string := "<router instruction: call a tool or reply DIRECT_RESPONSE>"

  /** The model's reply as the AIMessage appended to the state. */
  function AiMessage(reply: ModelReply): (m: Message)
    ensures m.Ai? && m.content == reply.text && m.toolCalls == reply.calls
  {
    Ai(reply.text, reply.calls)
  }

  /**
   * agent: the model (with the three tools bound) sees the instruction followed by
   * the messages; its reply is the one appended message; context and user id pass through.
   */
  function AgentStep(s: VocabState, router: seq<Message> -> ModelReply): (u: NodeUpdate)
    ensures u.context == s.context && u.userId == s.userId
    ensures |u.messages| == 1 && u.messages[0].Ai?
    ensures u.messages[0] == AiMessage(router([Human(ROUTER_INSTRUCTION)] + s.messages))
  {
    NodeUpdate([AiMessage(router([Human(ROUTER_INSTRUCTION)] + s.messages))], s.context, s.userId)
  }

  // ---------------------------------------------------------------------------
  // Tools and retrieval
  // ---------------------------------------------------------------------------

  /** A retrieved document: its text and its metadata. */
  datatype Document = Document(pageContent: string, metadata: map<string, string>)

  function PageContents(docs: seq<Document>): (r: seq<string>)
    ensures |r| == |docs| && forall i :: 0 <= i < |docs| ==> r[i] == docs[i].pageContent
  {
    seq(|docs|, i requires 0 <= i < |docs| => docs[i].pageContent)
  }

  /** `"\n".join(doc.page_content for doc in docs)`. */
  function RetrievalContext(docs: seq<Document>): string {
    Join("\n", PageContents(docs))
  }

  /**
   * The retrieval context is built in retrieval order for any texts: no
   * documents give "", one gives its text, and each further document adds a
   * newline and its text at the end.
   */
  lemma RetrievalContextSnoc(docs: seq<Document>, d: Document)
    ensures RetrievalContext([]) == ""
    ensures RetrievalContext([d]) == d.pageContent
    ensures |docs| >= 1 ==> RetrievalContext(docs + [d]) == RetrievalContext(docs) + "\n" + d.pageContent
  {
    assert PageContents([d]) == [d.pageContent];
    if |docs| >= 1 {
      assert PageContents(docs + [d]) == PageContents(docs) + [d.pageContent];
      JoinSnoc("\n", PageContents(docs), d.pageContent);
    }
  }

  /**
   * When no text contains a newline, splitting the context on newlines gives
   * the documents' texts back, in retrieval order.
   */
  lemma RetrievalContextOrder(docs: seq<Document>)
    requires |docs| >= 1
    requires forall i :: 0 <= i < |docs| ==> '\n' !in docs[i].pageContent
    ensures Split(RetrievalContext(docs), '\n') == PageContents(docs)
  {
    SplitJoin(PageContents(docs), '\n');
  }

  /** The word-lookup prompt text (opaque) and the category and quiz templates split at their `{context}` slot. */
  const SEARCH_TEMPLATE: string := "<word lookup instructions>"
  const CATEGORY_BEFORE: string := "<category instructions, before context>"
  const CATEGORY_AFTER: string := "<category instructions, after context>"
  const QUIZ_BEFORE: string := "<quiz instructions, before context>"
  const QUIZ_AFTER: string := "<quiz instructions, after context>"

  /** The word-lookup prompt: the template, then "查詢單字: " and the query itself. */
  function SearchPrompt(query: string): (p: string)
    ensures |p| >= |query| && p[|p| - |query|..] == query
    ensures Contains(p, query)
  {
    var p := SEARCH_TEMPLATE + "\n\n查詢單字: " + query;
    assert OccursAt(p, query, |p| - |query|);
    p
  }

  /** search_vocabulary: one model call on the filled template, no retrieval. */
  function SearchVocabulary(query: string, llm: string -> string): string {
    llm(SearchPrompt(query))
  }

  /** The category or quiz prompt with the retrieval context in its slot. */
  function FillContext(before: string, context: string, after: string): (p: string)
    ensures OccursAt(p, context, |before|)
  {
    before + context + after
  }

  /**
   * get_category_vocabulary: retrieve on the category, join, fill the template,
   * one model call. The reply answers a prompt holding the retrieved texts,
   * newline-joined, right after the template's opening part.
   */
  function CategoryVocabulary(category: string, retriever: string -> seq<Document>, llm: string -> string): (r: string)
    ensures exists p :: OccursAt(p, RetrievalContext(retriever(category)), |CATEGORY_BEFORE|) && r == llm(p)
  {
    llm(FillContext(CATEGORY_BEFORE, RetrievalContext(retriever(category)), CATEGORY_AFTER))
  }

  /**
   * generate_quiz: retrieve on the topic, join, fill the template, one model
   * call; the same retrieved context as the category tool, in the quiz template.
   */
  function GenerateQuiz(category: string, retriever: string -> seq<Document>, llm: string -> string): (r: string)
    ensures exists p :: OccursAt(p, RetrievalContext(retriever(category)), |QUIZ_BEFORE|) && r == llm(p)
  {
    llm(FillContext(QUIZ_BEFORE, RetrievalContext(retriever(category)), QUIZ_AFTER))
  }

  /**
   * Neither retrieval tool puts its argument in the prompt: two arguments for
   * which the retriever finds the same documents get the same reply.
   */
  lemma RetrievalToolsSeeOnlyDocuments(c1: string, c2: string, retriever: string -> seq<Document>, llm: string -> string)
    requires retriever(c1) == retriever(c2)
    ensures CategoryVocabulary(c1, retriever, llm) == CategoryVocabulary(c2, retriever, llm)
    ensures GenerateQuiz(c1, retriever, llm) == GenerateQuiz(c2, retriever, llm)
  {
  }

  const SEARCH_TOOL: string := "search_vocabulary_details"
  const CATEGORY_TOOL: string := "category_vocabulary_list"
  const QUIZ_TOOL: string := "vocabulary_quiz_generator"

  /** The names of the bound tools, in the order of the `tools` list, as LangGraph's ToolNode lists them. */
  const AVAILABLE_TOOLS: string := "search_vocabulary_details, category_vocabulary_list, vocabulary_quiz_generator"

  /**
   * LangGraph's ToolNode text for a call naming no bound tool: the requested
   * name and the node's bound names, comma-separated.
   */
  function UnknownToolText(name: string, available: string): string {
    "Error: " + name + " is not a valid tool, try one of [" + available + "]."
  }

  /**
   * The tool node's dispatch by name: each of the three bound names runs its
   * own function on the call's single argument, and any other name gets the
   * error text instead of a tool run.
   */
  function RunTool(call: ToolCall, retriever: string -> seq<Document>, llm: string -> string): (r: string)
    ensures call.name == SEARCH_TOOL ==> r == SearchVocabulary(call.argument, llm)
    ensures call.name == CATEGORY_TOOL ==> r == CategoryVocabulary(call.argument, retriever, llm)
    ensures call.name == QUIZ_TOOL ==> r == GenerateQuiz(call.argument, retriever, llm)
    ensures call.name !in {SEARCH_TOOL, CATEGORY_TOOL, QUIZ_TOOL} ==> r == UnknownToolText(call.name, AVAILABLE_TOOLS)
  {
    if call.name == SEARCH_TOOL then SearchVocabulary(call.argument, llm)
    else if call.name == CATEGORY_TOOL then CategoryVocabulary(call.argument, retriever, llm)
    else if call.name == QUIZ_TOOL then GenerateQuiz(call.argument, retriever, llm)
    else UnknownToolText(call.name, AVAILABLE_TOOLS)
  }

  /** The word-lookup tool never consults the retriever. */
  lemma SearchIgnoresRetriever(call: ToolCall, r1: string -> seq<Document>, r2: string -> seq<Document>, llm: string -> string)
    requires call.name == SEARCH_TOOL
    ensures RunTool(call, r1, llm) == RunTool(call, r2, llm) == llm(SearchPrompt(call.argument))
  {
  }

  /** The tool node: one ToolMessage per call of the last AIMessage, in order, each linked to its call id. */
  function ToolsStep(s: VocabState, retriever: string -> seq<Document>, llm: string -> string): (u: NodeUpdate)
    requires s.messages != [] && Last(s.messages).Ai?
    ensures u.context == s.context && u.userId == s.userId
    ensures |u.messages| == |Last(s.messages).toolCalls|
    ensures forall i :: 0 <= i < |u.messages| ==>
              u.messages[i] == ToolResult(RunTool(Last(s.messages).toolCalls[i], retriever, llm),
                                          Last(s.messages).toolCalls[i].id)
  {
    var calls := Last(s.messages).toolCalls;
    NodeUpdate(seq(|calls|, i requires 0 <= i < |calls| => ToolResult(RunTool(calls[i], retriever, llm), calls[i].id)),
               s.context, s.userId)
  }

  // ---------------------------------------------------------------------------
  // Response generator (generate_response)
  // ---------------------------------------------------------------------------

  /** "用戶" for a HumanMessage, "助手" for every other message. */
  function RoleLabel(m: Message): string {
    if m.Human? then "用戶" else "助手"
  }

  function HistoryLine(m: Message): string {
    RoleLabel(m) + ": " + m.content
  }

  function HistoryLines(ms: seq<Message>): (r: seq<string>)
    ensures |r| == |ms| && forall i :: 0 <= i < |ms| ==> r[i] == HistoryLine(ms[i])
  {
    seq(|ms|, i requires 0 <= i < |ms| => HistoryLine(ms[i]))
  }

  /** The formatted history: its lines joined with newlines. */
  function HistoryText(ms: seq<Message>): string {
    Join("\n", HistoryLines(ms))
  }

  /** The generator's loop: one "role: content" line per message, then the join. */
  method FormatChatHistory(ms: seq<Message>) returns (formatted: string)
    ensures formatted == HistoryText(ms)
  {
    var chatHistory: seq<string> := [];
    var i := 0;
    while i < |ms|
      invariant 0 <= i <= |ms|
      invariant chatHistory == HistoryLines(ms[..i])
    {
      chatHistory := chatHistory + [HistoryLine(ms[i])];
      i := i + 1;
    }
    assert ms[..i] == ms;
    formatted := Join("\n", chatHistory);
  }

  /**
   * The formatted history is built in message order for any texts: no messages
   * give "", one gives its line, and each further message adds a newline and
   * its "role: content" line at the end.
   */
  lemma HistoryTextSnoc(ms: seq<Message>, m: Message)
    ensures HistoryText([]) == ""
    ensures HistoryText([m]) == RoleLabel(m) + ": " + m.content
    ensures |ms| >= 1 ==> HistoryText(ms + [m]) == HistoryText(ms) + "\n" + RoleLabel(m) + ": " + m.content
  {
    assert HistoryLines([m]) == [HistoryLine(m)];
    if |ms| >= 1 {
      assert HistoryLines(ms + [m]) == HistoryLines(ms) + [HistoryLine(m)];
      JoinSnoc("\n", HistoryLines(ms), HistoryLine(m));
    }
  }

  /**
   * One history line per message, in order: when no message text contains a
   * newline, the formatted history splits back into exactly those lines, and a
   * line is labelled 用戶 exactly when its message is a HumanMessage.
   */
  lemma HistoryTextLines(ms: seq<Message>)
    requires |ms| >= 1
    requires forall i :: 0 <= i < |ms| ==> '\n' !in ms[i].content
    ensures Split(HistoryText(ms), '\n') == HistoryLines(ms)
    ensures forall i :: 0 <= i < |ms| ==> (HistoryLines(ms)[i][..2] == "用戶" <==> ms[i].Human?)
  {
    forall i | 0 <= i < |ms| ensures HistoryLines(ms)[i][..2] == "用戶" <==> ms[i].Human? {
      assert HistoryLines(ms)[i][..2] == RoleLabel(ms[i]);
      assert "助手" != "用戶" by { assert "助手"[0] != "用戶"[0]; }
    }
    forall i | 0 <= i < |ms| ensures '\n' !in HistoryLines(ms)[i] {
      assert HistoryLines(ms)[i] == RoleLabel(ms[i]) + ": " + ms[i].content;
    }
    SplitJoin(HistoryLines(ms), '\n');
  }

  /** The friendly-assistant instructions (opaque) followed by the history and the question. */
  const ANSWER_TEMPLATE: string := "<friendly English-learning assistant instructions>"

  function AnswerPrompt(history: string, question: string): (p: string)
    ensures Contains(p, history) && |p| >= |question| && p[|p| - |question|..] == question
  {
    var head := ANSWER_TEMPLATE + "\n\n=== 聊天歷史 ===\n";
    var p := head + history + "\n\n=== 最新問題 ===\n" + question;
    assert OccursAt(p, history, |head|);
    p
  }

  /**
   * generate_response: a ToolMessage last is passed through as the one new message
   * with no model call; otherwise the history is every message but the last two,
   * the question is the second-to-last message, and the model's answer is appended.
   * Short message lists raise IndexError as `messages[-1]` / `messages[-2]` do.
   */
  method GenerateResponse(s: VocabState, llm: string -> string) returns (r: Result<NodeUpdate, GraphError>)
    ensures s.messages == [] ==> r == Err(IndexError)
    ensures s.messages != [] && Last(s.messages).ToolResult? ==>
              r == Ok(NodeUpdate([Last(s.messages)], s.context, s.userId))
    ensures |s.messages| == 1 && !Last(s.messages).ToolResult? ==> r == Err(IndexError)
    ensures |s.messages| >= 2 && !Last(s.messages).ToolResult? ==>
              var n := |s.messages|;
              r == Ok(NodeUpdate([Ai(llm(AnswerPrompt(HistoryText(s.messages[..n - 2]), s.messages[n - 2].content)), [])],
                                 s.context, s.userId))
    ensures r.Ok? ==> |r.value.messages| == 1 && r.value.context == s.context && r.value.userId == s.userId
  {
    var messages := s.messages;
    if |messages| == 0 {
      return Err(IndexError);
    }
    var lastMessage := messages[|messages| - 1];
    if lastMessage.ToolResult? {
      return Ok(NodeUpdate([lastMessage], s.context, s.userId));
    }
    if |messages| < 2 {
      return Err(IndexError);
    }
    var formattedHistory := FormatChatHistory(messages[..|messages| - 2]);
    var currentQuestion := messages[|messages| - 2].content;
    var response := llm(AnswerPrompt(formattedHistory, currentQuestion));
    return Ok(NodeUpdate([Ai(response, [])], s.context, s.userId));
  }

  // ---------------------------------------------------------------------------
  // The routing graph (create_vocab_chain)
  // ---------------------------------------------------------------------------

  datatype Node = Start | Agent | Tools | Generate | End

  /** tools_condition: "tools" iff the message is an AIMessage carrying at least one tool call. */
  predicate HasToolCalls(m: Message) {
    m.Ai? && |m.toolCalls| > 0
  }

  /** The wiring: START→agent, agent→tools or generate, tools→generate, generate→END. */
  function Next(n: Node, last: Message): (next: Node)
    ensures n == Agent ==> (next == Tools <==> HasToolCalls(last)) && (next == Generate <==> !HasToolCalls(last))
    ensures n == Tools ==> next == Generate
    ensures n == Generate ==> next == End
  {
    match n
    case Start => Agent
    case Agent => if HasToolCalls(last) then Tools else Generate
    case Tools => Generate
    case Generate => End
    case End => End
  }

  function Rank(n: Node): nat {
    match n
    case Start => 0
    case Agent => 1
    case Tools => 2
    case Generate => 3
    case End => 4
  }

  /** A run of the graph: each node after the first is the successor of the one before it. */
  predicate IsRun(p: seq<Node>, lasts: seq<Message>) {
    |lasts| == |p| && forall i :: 0 <= i < |p| - 1 ==> p[i] != End && p[i + 1] == Next(p[i], lasts[i])
  }

  lemma {:induction false} RunRankIncreases(p: seq<Node>, lasts: seq<Message>, i: nat, j: nat)
    requires IsRun(p, lasts)
    requires i < j < |p|
    ensures Rank(p[j]) - Rank(p[i]) >= j - i
    decreases j - i
  {
    assert Rank(p[i]) < Rank(p[i + 1]);
    if i + 1 < j {
      RunRankIncreases(p, lasts, i + 1, j);
    }
  }

  /**
   * No loops: along any run every node occurs at most once, so agent is never
   * re-entered, and a run has at most five nodes.
   */
  lemma RunVisitsEachNodeOnce(p: seq<Node>, lasts: seq<Message>)
    requires IsRun(p, lasts)
    ensures forall i, j :: 0 <= i < j < |p| ==> p[i] != p[j]
    ensures |p| <= 5
  {
    forall i, j | 0 <= i < j < |p| ensures p[i] != p[j] {
      RunRankIncreases(p, lasts, i, j);
    }
    if |p| > 5 {
      RunRankIncreases(p, lasts, 0, 5);
    }
  }

  // ---------------------------------------------------------------------------
  // One turn (process_vocab_query)
  // ---------------------------------------------------------------------------

  /** The state a turn starts from: previous history followed by the new messages, empty context. */
  function TurnInput(previous: seq<Message>, newMessages: seq<Message>, userId: string): (s: VocabState)
    ensures |s.messages| == |previous| + |newMessages|
    ensures s.messages[..|previous|] == previous && s.messages[|previous|..] == newMessages
    ensures s.context == map[] && s.userId == userId
  {
    VocabState(previous + newMessages, map[], userId)
  }

  /** After the tool node, the last message is the result of the last call. */
  lemma LastToolResult(s: VocabState, retriever: string -> seq<Document>, llm: string -> string)
    requires s.messages != [] && Last(s.messages).Ai? && |Last(s.messages).toolCalls| > 0
    ensures var calls := Last(s.messages).toolCalls;
            Last(Apply(s, ToolsStep(s, retriever, llm)).messages) == ToolResult(RunTool(Last(calls), retriever, llm), Last(calls).id)
  {
    var tools := ToolsStep(s, retriever, llm);
    assert Last(Apply(s, tools).messages) == Last(tools.messages);
  }

  /** Appending one item leaves what came before the old last item, and that item, in place. */
  lemma SnocPrefix<T>(xs: seq<T>, x: T)
    requires xs != []
    ensures (xs + [x])[..|xs| - 1] == xs[..|xs| - 1] && (xs + [x])[|xs| - 1] == Last(xs)
  {
  }

  /**
   * The compiled graph on one state: agent, the optional tools detour, generate,
   * and the content of generate's message. With a tool call the answer is the raw
   * output of the last requested tool; without, it is the model's answer to the
   * last message with the earlier ones as history; with neither, IndexError.
   */
  method InvokeGraph(state: VocabState, router: seq<Message> -> ModelReply, retriever: string -> seq<Document>,
                     llm: string -> string)
    returns (answer: Result<string, GraphError>)
    ensures var reply := router([Human(ROUTER_INSTRUCTION)] + state.messages);
            |reply.calls| > 0 ==> answer == Ok(RunTool(Last(reply.calls), retriever, llm))
    ensures var input := state.messages;
            var reply := router([Human(ROUTER_INSTRUCTION)] + input);
            |reply.calls| == 0 && input != [] ==>
              answer == Ok(llm(AnswerPrompt(HistoryText(input[..|input| - 1]), Last(input).content)))
    ensures var reply := router([Human(ROUTER_INSTRUCTION)] + state.messages);
            |reply.calls| == 0 && state.messages == [] ==> answer == Err(IndexError)
  {
    var reply := router([Human(ROUTER_INSTRUCTION)] + state.messages);
    var afterAgent := Apply(state, AgentStep(state, router));
    assert afterAgent.messages == state.messages + [Ai(reply.text, reply.calls)];
    var node := Next(Agent, Last(afterAgent.messages));
    if node == Tools {
      var beforeGenerate := Apply(afterAgent, ToolsStep(afterAgent, retriever, llm));
      LastToolResult(afterAgent, retriever, llm);
      var generated := GenerateResponse(beforeGenerate, llm);
      answer := Ok(Last(generated.value.messages).content);
    } else {
      var generated := GenerateResponse(afterAgent, llm);
      answer := if generated.Ok? then Ok(Last(generated.value.messages).content) else Err(generated.error);
      if state.messages != [] {
        SnocPrefix(state.messages, Ai(reply.text, reply.calls));
      }
    }
  }

  /**
   * process_vocab_query: load the window, put the new messages after it, invoke
   * the graph and answer with what it answers. Without a tool call the question
   * is the last message of the input: the last new message, or the last window
   * message when there are no new ones.
   */
  method ProcessVocabQuery(stored: seq<StoredMessage>, maxHistory: int, newMessages: seq<Message>, userId: string,
                           router: seq<Message> -> ModelReply, retriever: string -> seq<Document>,
                           llm: string -> string)
    returns (answer: Result<string, GraphError>)
    ensures var input := TurnInput(HistoryWindow(stored, maxHistory), newMessages, userId).messages;
            var reply := router([Human(ROUTER_INSTRUCTION)] + input);
            |reply.calls| > 0 ==> answer == Ok(RunTool(Last(reply.calls), retriever, llm))
    ensures var input := TurnInput(HistoryWindow(stored, maxHistory), newMessages, userId).messages;
            var reply := router([Human(ROUTER_INSTRUCTION)] + input);
            |reply.calls| == 0 && input != [] ==>
              answer == Ok(llm(AnswerPrompt(HistoryText(input[..|input| - 1]), Last(input).content)))
    ensures var input := TurnInput(HistoryWindow(stored, maxHistory), newMessages, userId).messages;
            var reply := router([Human(ROUTER_INSTRUCTION)] + input);
            |reply.calls| == 0 && input == [] ==> answer == Err(IndexError)
  {
    var previous := GetRecentChatHistory(stored, maxHistory);
    var state := TurnInput(previous, newMessages, userId);
    answer := InvokeGraph(state, router, retriever, llm);
  }
}
