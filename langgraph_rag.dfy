/**
 * The retrieval tutorial graph (notebooks/langgraph_examples/langgraph_rag.py):
 * an agent that may call the retriever tool, a relevance scorer that sends relevant
 * documents to the answer generator and irrelevant ones to a question
 * rewriter, and the rewriter's loop back to the agent. The chat model, the
 * scorer, the retriever and the RAG chain are parameters.
 */
module LanggraphRag {
  import opened Wrappers
  import opened Agents

  /** The exact score the relevance model must return for the documents to count as relevant. */
  const RELEVANT_SCORE: string := "yes"

  /** The rewrite prompt around the original question (opaque text). */
  const REWRITE_BEFORE: string := "<look at the input and reason about its intent; the initial question:>"
  const REWRITE_AFTER: string := "<formulate an improved question:>"

  datatype Decision = GenerateAnswer | RewriteQuestion

  /**
   * grade_documents: the question is the first message, the documents are the
   * last message's content; only the exact score "yes" sends them on to
   * generation.
   */
  function GradeDocuments(messages: seq<Message>, scorer: (string, string) -> string): (d: Decision)
    requires messages != []
    ensures d == GenerateAnswer <==> scorer(messages[0].content, Last(messages).content) == RELEVANT_SCORE
    ensures d == RewriteQuestion <==> scorer(messages[0].content, Last(messages).content) != RELEVANT_SCORE
  {
    var question := messages[0].content;
    var docs := Last(messages).content;
    if scorer(question, docs) == RELEVANT_SCORE then GenerateAnswer else RewriteQuestion
  }

  /** agent: the model's reply to the whole conversation, as the one new message. */
  function AgentNode(messages: seq<Message>, model: seq<Message> -> ModelReply): (added: seq<Message>)
    ensures |added| == 1 && added[0] == Ai(model(messages).text, model(messages).calls)
  {
    var reply := model(messages);
    [Ai(reply.text, reply.calls)]
  }

  /** The rewrite prompt holds the original question between the two fixed parts. */
  function RewritePrompt(question: string): (p: string)
    ensures |p| == |REWRITE_BEFORE| + |question| + |REWRITE_AFTER|
    ensures p[..|REWRITE_BEFORE|] == REWRITE_BEFORE
    ensures p[|REWRITE_BEFORE|..|REWRITE_BEFORE| + |question|] == question
    ensures p[|REWRITE_BEFORE| + |question|..] == REWRITE_AFTER
  {
    REWRITE_BEFORE + question + REWRITE_AFTER
  }

  /** rewrite: one new message, the model's rewording of the first message's question. */
  function RewriteNode(messages: seq<Message>, llm: string -> string): (added: seq<Message>)
    requires messages != []
    ensures |added| == 1 && added[0] == Ai(llm(RewritePrompt(messages[0].content)), [])
  {
    [Ai(llm(RewritePrompt(messages[0].content)), [])]
  }

  /**
   * generate: one new message, the RAG chain's answer given the last message's
   * content as context and the first message's content as question. The
   * chain returns a plain string, which the message reducer stores as a human
   * message.
   */
  function GenerateNode(messages: seq<Message>, rag: (string, string) -> string): (added: seq<Message>)
    requires messages != []
    ensures |added| == 1 && added[0] == Human(rag(Last(messages).content, messages[0].content))
  {
    [Human(rag(Last(messages).content, messages[0].content))]
  }

  /** The one tool the retrieve node binds, under the name `create_retriever_tool` gives it. */
  const RETRIEVER_TOOL: string := "retrieve_blog_posts"

  /**
   * The retrieve node (a ToolNode over the retriever tool alone): one tool
   * message per tool call of the last (AI) message, in call order. A call to
   * the retriever gets the retrieved text; a call naming any other tool gets
   * ToolNode's unknown-tool text, listing the retriever as the only choice.
   */
  function RetrieveNode(messages: seq<Message>, retrieve: string -> string): (added: seq<Message>)
    requires messages != [] && Last(messages).Ai?
    ensures |added| == |Last(messages).toolCalls|
    ensures forall k :: 0 <= k < |added| && Last(messages).toolCalls[k].name == RETRIEVER_TOOL ==>
              added[k] == ToolResult(retrieve(Last(messages).toolCalls[k].argument), Last(messages).toolCalls[k].id)
    ensures forall k :: 0 <= k < |added| && Last(messages).toolCalls[k].name != RETRIEVER_TOOL ==>
              added[k] == ToolResult(UnknownToolText(Last(messages).toolCalls[k].name, RETRIEVER_TOOL),
                                     Last(messages).toolCalls[k].id)
  {
    var calls := Last(messages).toolCalls;
    seq(|calls|, k requires 0 <= k < |calls| =>
      ToolResult(if calls[k].name == RETRIEVER_TOOL then retrieve(calls[k].argument)
                 else UnknownToolText(calls[k].name, RETRIEVER_TOOL), calls[k].id))
  }

  /** Rewriting reads nothing but the first message's content. */
  lemma RewriteUsesOnlyTheQuestion(m1: seq<Message>, m2: seq<Message>, llm: string -> string)
    requires m1 != [] && m2 != [] && m1[0].content == m2[0].content
    ensures RewriteNode(m1, llm) == RewriteNode(m2, llm)
  {
  }

  // ---------------------------------------------------------------------------
  // The workflow
  // ---------------------------------------------------------------------------

  datatype RagNode = RagStart | AgentStep | RetrieveStep | RewriteStep | GenerateStep | RagEnd

  /** tools_condition: to the retriever iff the last message is an AI message with tool calls. */
  predicate CallsTools(messages: seq<Message>) {
    messages != [] && Last(messages).Ai? && Last(messages).toolCalls != []
  }

  /**
   * The edges: START → agent; agent → retrieve or END by tools_condition;
   * retrieve → generate or rewrite by the grade; rewrite → agent; generate → END.
   */
  function Successor(n: RagNode, messages: seq<Message>, scorer: (string, string) -> string): (next: RagNode)
    requires n != RagEnd
    requires n == RetrieveStep ==> messages != []
    ensures n == AgentStep ==> (next == RetrieveStep <==> CallsTools(messages)) && (next == RagEnd <==> !CallsTools(messages))
    ensures next == GenerateStep <==> n == RetrieveStep && GradeDocuments(messages, scorer) == GenerateAnswer
    ensures next == AgentStep <==> n == RagStart || n == RewriteStep
  {
    match n
    case RagStart => AgentStep
    case AgentStep => if CallsTools(messages) then RetrieveStep else RagEnd
    case RetrieveStep => if GradeDocuments(messages, scorer) == GenerateAnswer then GenerateStep else RewriteStep
    case RewriteStep => AgentStep
    case GenerateStep => RagEnd
  }

  /** A walk from START; `history[i]` is the message list when leaving `p[i]`. */
  predicate IsRagWalk(p: seq<RagNode>, history: seq<seq<Message>>, scorer: (string, string) -> string) {
    |p| >= 1 && p[0] == RagStart && |history| >= |p| - 1 &&
    (forall i :: 0 <= i < |p| - 1 ==>
       p[i] != RagEnd && (p[i] == RetrieveStep ==> history[i] != []) &&
       p[i + 1] == Successor(p[i], history[i], scorer))
  }

  function Rank(n: RagNode): nat {
    match n
    case RagStart => 0
    case AgentStep => 1
    case RetrieveStep => 2
    case RewriteStep => 3
    case GenerateStep => 3
    case RagEnd => 4
  }

  /** Away from the rewriter, every step moves strictly forward. */
  lemma {:induction false} RankIncreasesWithoutRewrite(p: seq<RagNode>, history: seq<seq<Message>>,
                                                       scorer: (string, string) -> string, i: nat, j: nat)
    requires IsRagWalk(p, history, scorer) && i <= j < |p|
    requires forall k :: i <= k < j ==> p[k] != RewriteStep
    ensures Rank(p[j]) - Rank(p[i]) >= j - i
    decreases j - i
  {
    if i < j {
      RankIncreasesWithoutRewrite(p, history, scorer, i, j - 1);
      assert p[j] == Successor(p[j - 1], history[j - 1], scorer);
    }
  }

  /** Every cycle of the workflow goes through the rewriter: a node seen twice had a rewrite in between. */
  lemma EveryCycleRewrites(p: seq<RagNode>, history: seq<seq<Message>>, scorer: (string, string) -> string, i: nat, j: nat)
    requires IsRagWalk(p, history, scorer) && i < j < |p| && p[i] == p[j]
    ensures exists k :: i <= k < j && p[k] == RewriteStep
  {
    if forall k :: i <= k < j ==> p[k] != RewriteStep {
      RankIncreasesWithoutRewrite(p, history, scorer, i, j);
    }
  }

  /** The message list after a sequence of node updates, each appended in turn. */
  function AppendAll(messages: seq<Message>, updates: seq<seq<Message>>): seq<Message>
    decreases |updates|
  {
    if updates == [] then messages else AppendAll(messages + updates[0], updates[1..])
  }

  /**
   * Nodes only append, so the first message — the question grading, rewriting
   * and generation all read — is the user's original question throughout,
   * whatever the rewriter produced.
   */
  lemma {:induction false} QuestionStaysFirst(messages: seq<Message>, updates: seq<seq<Message>>)
    requires messages != []
    ensures |AppendAll(messages, updates)| >= |messages|
    ensures AppendAll(messages, updates)[..|messages|] == messages
    decreases |updates|
  {
    if updates != [] {
      QuestionStaysFirst(messages + updates[0], updates[1..]);
      assert (messages + updates[0])[..|messages|] == messages;
    }
  }
}
