# VocabVoyage core, modelled in Dafny

VocabVoyage is an English-vocabulary learning assistant. A user chats with an
agent built as a LangGraph graph. A router node decides whether one of three
tools answers the question: a word lookup, a list of words on a category drawn
from a Chroma vector store, or a quiz on a topic. Otherwise a response
generator answers from the recent chat history. Users, their vocabulary
books, chat sessions and messages live in a Firebase Realtime Database store.
A SQLite store with the same interface also exists, with review counts and
statistics. Settings come from environment variables.

Offline, a generator asks a language model for 150 words on each of ten
topics and writes one text file per topic. A loader turns those files into
documents with metadata and statistics for the vector store. Two tutorial
graphs complete the repository: a calculator / human-assistance agent and a
retrieve–grade–rewrite RAG loop.

This project models those parts and proves what they promise:

| file | what it models |
|---|---|
| `config.dfy` (`Config`) | the configuration records and their checks, environment lookup, loading, environment classification and the Firebase credential choice |
| `firebase_store.dfy` (`FirebaseStore`) | the Firebase store, as a class over the database tree |
| `sqlite_store.dfy` (`SqliteStore`) | the SQLite store, as a class over its four tables |
| `agents.dfy` (`Agents`) | the chat history window, the router, tool and generator nodes, the routing graph and one whole turn |
| `langgraph_tools.dfy` (`LanggraphTools`) | the calculator tool and the chatbot / tools / human graph |
| `langgraph_rag.dfy` (`LanggraphRag`) | the RAG graph |
| `vocab_generator.dfy` (`VocabularyGenerator`) | the vocabulary generator |
| `chroma_loader.dfy` (`ChromaLoader`) | the vocabulary loader |
| `text.dfy` (`Text`) | the Python string operations these rely on |
| `ordering.dfy` (`Ordering`) | `sorted` |
| `wrappers.dfy` (`Wrappers`) | `Option` and `Result` |

**How the model stands in for the outside world**
- Language models, the retriever, the relevance scorer and the RAG chain are function parameters.
- The process environment is a map.
- A directory listing is a sequence of entries.
- `datetime.now()`, Firebase push keys and AUTOINCREMENT ids are one counter that every write advances.
- `uuid.uuid4()` is a parameter of the operations that draw one.

Operations that update state in place are class methods over `map` fields. Each one states its whole new state and keeps the store's invariant:
- usernames are unique;
- a word appears at most once per user;
- every generated key or id is older than the clock.

Computations that loop are methods proved equal to a reference function. Properties relating several operations are lemmas.

## Model

| member | source | states |
|---|---|---|
| Config.CheckFirebase | src/config.py:46-50 | accepted iff the database URL is non-empty and a credentials path or JSON text is truthy; an empty URL is reported first |
| Config.CheckOpenAI | src/config.py:84-91 | accepted iff the key is non-empty, the temperature lies in [0, 2] and a token limit, when given, is positive; the first failing check names the error: empty key, then temperature, then a non-positive token limit |
| Config.CheckChroma | src/config.py:114-124 | accepted iff directory and collection are non-empty, k > 0 and the search type is a known one; directory checked first, then collection, then k |
| Config.CheckStreamlit | src/config.py:147-151 | accepted iff the layout and the sidebar state are among the allowed values; an unknown layout is reported first |
| Config.CheckChat | src/config.py:192-196 | accepted iff both limits are positive; a non-positive history size is reported first |
| Config.DefaultsAreValid | src/config.py:102-164 | an environment setting none of the Chroma, Streamlit and chat variables loads the default records, which pass their checks |
| Config.GetEnvVar | src/config.py:284-289 | error exactly when required and the looked-up value is falsy; otherwise the set value (even ""), else the default, else "" |
| Config.GetEnvVarOptional | src/config.py:284-289 | a non-required lookup never fails and yields the set value or the default |
| Config.GetOptionalInt | src/config.py:301-307 | None for an unset or empty variable; otherwise `int()` of the text, None when that fails |
| Config.GetOptionalIntRoundTrip | src/config.py:301-307 | a variable set to `str(n)` reads back as `n` |
| Config.ToInt | src/config.py:246 | succeeds exactly when the stripped text is an optional sign and digit groups joined by single underscores, with that literal's value; otherwise the error names the variable |
| Config.LoadFirebase | src/config.py:226-230 | loads iff FIREBASE_DATABASE_URL is set and non-empty and the credentials path (default FirebaseKey.json) or the JSON text (default "") is non-empty; a missing URL and missing credentials are the two errors; a loaded record holds those three values |
| Config.LoadOpenAI | src/config.py:233-239 | loads iff the key is set and non-empty, `float` accepts the temperature, it lies in [0, 2] and a given token limit is positive; each failure names its error in that order; a loaded record holds the key, the model with its default, the temperature and the optional token limit |
| Config.LoadChroma | src/config.py:242-247 | loads iff `int` accepts CHROMA_SEARCH_K and the record built from the variables and defaults passes its check; a non-integer k is NotAnInteger, otherwise the check's first error is returned |
| Config.LoadStreamlit | src/config.py:250-255 | the record from its variables and defaults; an error exactly when layout or sidebar state is not allowed |
| Config.LoadChat | src/config.py:258-262 | loads iff `int` accepts both limits and both are positive; the errors come in order: history not an integer, length not an integer, history not positive, length not positive; a loaded record holds both values and the default name |
| Config.LoadConfigurations | src/config.py:218-267 | succeeds exactly when all five records load; the first failing one is reported; environment, debug flag (case-insensitive "true") and log level with their defaults |
| Config.IsDevelopment | src/config.py:358-360 | a name classified as development is never a production name |
| Config.IsProduction | src/config.py:362-364 | a name classified as production is never a development name |
| Config.EnvironmentsDisjoint | src/config.py:358-364 | no name is both development and production |
| Config.ClassificationIgnoresCase | src/config.py:358-364 | lower-casing the name first changes neither answer |
| Config.DefaultEnvironmentIsProduction | src/config.py:265 | with ENV unset the application is production and not development |
| Config.GetRetrieverConfig | src/config.py:385-388 | search type and k of the Chroma record; for an accepted record k > 0 and the type is a known one |
| Config.CredentialSourceAsWritten | src/config.py:342-356 | the JSON text is used whenever it is not None, even when it is "" |
| Config.CredentialFileIgnoredAsWritten | src/config.py:57-60 | with FIREBASE_CREDENTIALS unset and FirebaseKey.json present, the loaded record still picks the empty JSON text, never the file |
| Config.ChooseCredentialSource | src/config.py:342-356 | non-empty JSON text first, else an existing credentials file, else the error; never an empty JSON text |
| Config.CredentialSourcesAgree | src/config.py:342-356 | the two choices agree whenever the JSON text is not "" |
| FirebaseStore.VocabDatabase.constructor | src/database.py:52-53 | a store over an empty tree, satisfying the invariant |
| FirebaseStore.VocabDatabase.GetOrCreateUser | src/database.py:70-85 | an existing user's key with nothing changed, or exactly one new user under a fresh key; usernames stay unique, so calling twice gives the same key |
| FirebaseStore.VocabDatabase.AddVocabulary | src/database.py:110-128 | a word the user has is rejected with nothing changed; otherwise exactly one new entry under a fresh key; words stay unique per user |
| FirebaseStore.VocabDatabase.GetUserVocabulary | src/database.py:145-160 | a KeyError exactly when one of the user's entries was written with no examples (Firebase drops the empty list, so `value['examples']` is missing); otherwise one item per entry, sorted by word, and [] without entries |
| FirebaseStore.VocabDatabase.DeleteVocabulary | src/database.py:178-188 | true iff the user had the word; exactly the entries with that word go; nothing else changes |
| FirebaseStore.VocabDatabase.CreateChatSession | src/database.py:207-223 | a truthy chat id is used as the key (overwriting); otherwise a fresh pushed key; the session is stored under the user |
| FirebaseStore.VocabDatabase.GetUserChats | src/database.py:240-254 | exactly the user's sessions with id, name and time, newest first |
| FirebaseStore.VocabDatabase.AddChatMessage | src/database.py:270-280 | exactly one new message under a fresh key of that chat; nothing else changes |
| FirebaseStore.VocabDatabase.GetChatMessages | src/database.py:297-311 | exactly the chat's messages, oldest first; [] without messages |
| FirebaseStore.VocabDatabase.DeleteChatSession | src/database.py:328-342 | the chat's messages always go; true iff some user owned the session, which then goes from that user |
| FirebaseStore.VocabDatabase.UpdateChatName | src/database.py:361-376 | true iff some user owns the session, which is renamed with its timestamp kept; otherwise nothing changes |
| SqliteStore.ApplyLimit | notebooks/models_sqlite.py:408-409 | a prefix of the rows; the limit cuts only when it is positive and smaller than the row count |
| SqliteStore.OrderBy | notebooks/models_sqlite.py:402-409 | sorted by the key, drawn from the rows, of the limited length, and every row left out has a key no smaller than every row kept |
| SqliteStore.OrderByKeepsSmallest | notebooks/models_sqlite.py:621-627 | a cut prefix of a sorted list keeps the smallest keys |
| SqliteStore.Average | notebooks/models_sqlite.py:753-756 | vocabulary per user times users is the vocabulary; 0 without users |
| SqliteStore.VocabDatabase.constructor | notebooks/models_sqlite.py:171-250 | four empty tables satisfying the table constraints |
| SqliteStore.VocabDatabase.GetUserInfo | notebooks/models_sqlite.py:316-328 | the user's row exactly when the id is known, else None |
| SqliteStore.VocabDatabase.GetOrCreateUser | notebooks/models_sqlite.py:274-293 | a known username returns its id and only refreshes last_active; otherwise a new user under the drawn id, or the primary key error when that id is taken |
| SqliteStore.VocabDatabase.AddVocabulary | notebooks/models_sqlite.py:362-378 | an existing (user, word) raises ValueError with nothing changed; otherwise exactly one new row with review count 0; the pair is then present |
| SqliteStore.VocabDatabase.GetUserVocabulary | notebooks/models_sqlite.py:402-427 | the user's rows, newest first, all of them without a cut, and with a cut every row left out is no newer than any returned |
| SqliteStore.VocabDatabase.DeleteVocabulary | notebooks/models_sqlite.py:447-458 | true iff the pair existed; exactly that row goes; afterwards the pair is absent |
| SqliteStore.VocabDatabase.UpdateVocabularyReview | notebooks/models_sqlite.py:483-490 | true iff the pair exists; exactly that row gains one review and the current time |
| SqliteStore.VocabDatabase.CreateChatSession | notebooks/models_sqlite.py:519-528 | the given id (even "") or the drawn one; a taken id is the primary key error; a new session has no messages |
| SqliteStore.VocabDatabase.GetUserChats | notebooks/models_sqlite.py:551-566 | exactly the user's sessions, latest message first |
| SqliteStore.VocabDatabase.AddChatMessage | notebooks/models_sqlite.py:589-597 | a role outside user/assistant/system is an error with nothing changed; otherwise one new message, and an existing session gains exactly one to its count and the new time |
| SqliteStore.VocabDatabase.GetChatMessages | notebooks/models_sqlite.py:621-640 | the chat's messages, oldest first, all of them without a cut, and with a cut every message left out is no older than any returned |
| SqliteStore.VocabDatabase.DeleteChatSession | notebooks/models_sqlite.py:660-674 | all of the chat's messages and the session go; true iff the session existed |
| SqliteStore.VocabDatabase.UpdateChatName | notebooks/models_sqlite.py:698-710 | true iff the session exists, which is renamed; nothing else changes |
| SqliteStore.VocabDatabase.GetDatabaseStats | notebooks/models_sqlite.py:734-758 | the row count of each table and the exact average per user, 0 without users |
| Agents.GetRecentChatHistory | src/agents.py:47-75 | the loop's result is the history window; [] without stored messages |
| Agents.WindowSaturated | src/agents.py:72-73 | once both quotas are full nothing more is kept (the early stop loses nothing) |
| Agents.CountsSnoc | src/agents.py:64-69 | appending a message adds one to its own role's count only |
| Agents.WindowFromLength | src/agents.py:63-69 | the window is made of user and assistant messages only |
| Agents.WindowStepCounts | src/agents.py:63-69 | what the newest scanned message adds to each role's count |
| Agents.WindowFromUsers | src/agents.py:63-66 | the scan keeps min(user messages, remaining user quota) user messages |
| Agents.WindowFromAssistants | src/agents.py:67-69 | the scan keeps min(assistant messages, remaining assistant quota) assistant messages |
| Agents.WindowCounts | src/agents.py:56-69 | the window holds exactly min(u, max // 2) user and min(a, max // 2) assistant messages and nothing else |
| Agents.CountRoleSnoc | src/agents.py:64-69 | one more stored message adds one to its own role's count only |
| Agents.KeptBeforeSnoc | src/agents.py:63-69 | a message followed by one more message of a role sees that role's quota one smaller |
| Agents.KeptMessagesSnoc | src/agents.py:63-69 | the reference selection of `s + [m]` is that of `s` under the quotas `m` uses, followed by `m` when it is kept |
| Agents.KeptMessagesExhausted | src/agents.py:72-73 | once a quota is used up, using it up further selects nothing more |
| Agents.WindowFromIsKept | src/agents.py:63-73 | the backward scan equals the forward reference selection |
| Agents.WindowIsMostRecentPerRole | src/agents.py:56-75 | the window is, in stored order, exactly the user/assistant messages with fewer than max // 2 same-role messages after them |
| Agents.AgentStep | src/agents.py:240-269 | one AI message, the router's reply to the instruction followed by the messages; context and user id unchanged |
| Agents.RetrievalContextSnoc | src/agents.py:429 | for any texts, the context of no documents is "", of one its text, and each further document appends a newline and its text |
| Agents.RetrievalContextOrder | src/agents.py:429 | when no document text contains a newline, splitting the joined context gives back each document's text in order |
| Agents.SearchPrompt | src/agents.py:394-401 | the word-lookup prompt ends with the query |
| Agents.FillContext | src/agents.py:440-447 | the retrieval context sits in the template's slot |
| Agents.CategoryVocabulary | src/agents.py:406-449 | the reply is the model's answer to a prompt holding the retrieved documents' newline-joined texts right after the category template's opening part |
| Agents.GenerateQuiz | src/agents.py:452-495 | the reply is the model's answer to a prompt holding the same retrieved context right after the quiz template's opening part |
| Agents.RetrievalToolsSeeOnlyDocuments | src/agents.py:428-447 | the category and quiz tools never put their argument in the prompt: arguments with the same retrieved documents get the same reply |
| Agents.RunTool | src/agents.py:499-556 | each bound tool name runs its own tool on the call's argument; any other name gets LangGraph's unknown-tool text |
| Agents.SearchIgnoresRetriever | src/agents.py:367-403 | the lookup tool is one model call on its prompt, whatever the retriever |
| Agents.ToolsStep | src/agents.py:499-556 | one tool message per tool call of the last AI message, in order, each linked to its call id and holding that tool's output |
| Agents.FormatChatHistory | src/agents.py:309-313 | the loop's result is the joined history |
| Agents.HistoryTextSnoc | src/agents.py:309-313 | for any texts, the history of no messages is "", of one its "role: content" line, and each further message appends a newline and its line |
| Agents.HistoryTextLines | src/agents.py:309-313 | when no message text contains a newline, the history splits back into one line per message; for any texts, a line is labelled 用戶 exactly for a human message |
| Agents.AnswerPrompt | src/agents.py:319-327 | the answer prompt contains the history and ends with the question |
| Agents.GenerateResponse | src/agents.py:289-333 | a tool message last passes through; otherwise the model answers the second-to-last message with all earlier messages as history; fewer than two messages raise IndexError |
| Agents.Next | src/agents.py:584-600 | START→agent; agent→tools iff the reply has tool calls, else generate; tools→generate; generate→END |
| Agents.RunRankIncreases | src/agents.py:584-600 | each step of a run moves strictly forward in the graph |
| Agents.RunVisitsEachNodeOnce | src/agents.py:584-600 | no node is visited twice, so a run has at most five nodes |
| Agents.TurnInput | src/agents.py:633-640 | the history window followed by the new messages, an empty context and the user id |
| Agents.InvokeGraph | src/agents.py:643-652 | with tool calls the answer is the last tool's output; without, the model's answer to the last message with the earlier ones as history; with no message at all, IndexError |
| Agents.ProcessVocabQuery | src/agents.py:626-652 | one turn answers like the graph on the window followed by the new messages: the last tool's output after a tool call, otherwise the model's answer to the input's last message (the last window message when no new message is given), IndexError on an empty input |
| LanggraphTools.DigitRun | notebooks/langgraph_examples/langgraph_tools.py:92 | the leading run of digits fits in the text |
| LanggraphTools.DigitRunIs | notebooks/langgraph_examples/langgraph_tools.py:92 | the run is exactly the digit prefix that ends at a non-digit or the end |
| LanggraphTools.DigitRunDigits | notebooks/langgraph_examples/langgraph_tools.py:92 | the run holds only digits and stops at a non-digit |
| LanggraphTools.NumberLength | notebooks/langgraph_examples/langgraph_tools.py:92 | the number the pattern matches at the start is non-empty and is a number token |
| LanggraphTools.Tokenize | notebooks/langgraph_examples/langgraph_tools.py:92 | every token is a number or one of + - * /; blank-joined tokens come back unchanged (TokenizeJoin) |
| LanggraphTools.NumberLengthOfToken | notebooks/langgraph_examples/langgraph_tools.py:92 | a number followed by a blank or the end is matched whole |
| LanggraphTools.TokenizeLeading | notebooks/langgraph_examples/langgraph_tools.py:92 | a leading token followed by a blank is the first token |
| LanggraphTools.TokenizeJoin | notebooks/langgraph_examples/langgraph_tools.py:92 | tokens written out with blanks tokenize back to themselves |
| LanggraphTools.Power10 | notebooks/langgraph_examples/langgraph_tools.py:98 | powers of ten are positive |
| LanggraphTools.ParseNumber | notebooks/langgraph_examples/langgraph_tools.py:106 | `float` succeeds exactly on number tokens |
| LanggraphTools.ApplyOperator | notebooks/langgraph_examples/langgraph_tools.py:109-120 | fails exactly on division by zero or an unsupported operator, each with its own error |
| LanggraphTools.FoldStep | notebooks/langgraph_examples/langgraph_tools.py:101-120 | one loop turn: a bad operand is a number-format error, else the operator is applied and the loop goes on |
| LanggraphTools.Calculate | notebooks/langgraph_examples/langgraph_tools.py:92-122 | fewer than three tokens is the format error; a well-formed number/operator chain gets its left-to-right value |
| LanggraphTools.MathCalculator | notebooks/langgraph_examples/langgraph_tools.py:92-125 | the loop returns the reference evaluation of the expression, every error path included |
| LanggraphTools.FoldErrorKinds | notebooks/langgraph_examples/langgraph_tools.py:119-125 | on tokenized input an unsupported operator is always a number in operator position, and a format error an operator in number position |
| LanggraphTools.CalculateErrorKinds | notebooks/langgraph_examples/langgraph_tools.py:119-125 | the same for any expression |
| LanggraphTools.ChainPrefix | notebooks/langgraph_examples/langgraph_tools.py:101-106 | an odd-length prefix of a number/operator chain is a chain |
| LanggraphTools.ChainErrorPersists | notebooks/langgraph_examples/langgraph_tools.py:116-120 | once a prefix fails, the whole chain fails the same way |
| LanggraphTools.FoldIsChainValue | notebooks/langgraph_examples/langgraph_tools.py:101-118 | the loop from a position finishes the chain value of the prefix before it |
| LanggraphTools.EvaluateIsLeftToRight | notebooks/langgraph_examples/langgraph_tools.py:98-122 | the calculator evaluates a chain strictly left to right |
| LanggraphTools.NoPrecedence | notebooks/langgraph_examples/langgraph_tools.py:101-114 | "2 + 3 * 4" evaluates to 20 |
| LanggraphTools.FoldIgnoresTrailingOperator | notebooks/langgraph_examples/langgraph_tools.py:101-103 | a last operator without an operand does not change the loop's result |
| LanggraphTools.TrailingOperatorIgnored | notebooks/langgraph_examples/langgraph_tools.py:101-103 | the same for the whole evaluation |
| LanggraphTools.FoldStopsAtZeroDivisor | notebooks/langgraph_examples/langgraph_tools.py:115-117 | dividing by zero ends the evaluation with that error, whatever follows |
| LanggraphTools.Chatbot | notebooks/langgraph_examples/langgraph_tools.py:213-225 | one AI message; the flag is set iff the first tool call requests assistance |
| LanggraphTools.CreateResponse | notebooks/langgraph_examples/langgraph_tools.py:240-243 | a tool message answering the first tool call; an error exactly when there is none |
| LanggraphTools.HumanNode | notebooks/langgraph_examples/langgraph_tools.py:259-272 | the flag is cleared; a tool message last adds nothing; otherwise one tool message with the source's fixed Chinese answer to the first call; an empty list is an error |
| LanggraphTools.SelectNextNode | notebooks/langgraph_examples/langgraph_tools.py:294-302 | human iff the flag is set; tools iff not and the last message has tool calls; else END |
| LanggraphTools.RouteAfterChatbot | notebooks/langgraph_examples/langgraph_tools.py:217-222 | after the chatbot, the route is decided by its reply alone |
| LanggraphTools.HumanAnswersRequest | notebooks/langgraph_examples/langgraph_tools.py:259-266 | an assistance request goes to the human node, which answers it with the fixed text and clears the flag |
| LanggraphTools.Successor | notebooks/langgraph_examples/langgraph_tools.py:317-332 | every node but the chatbot leads back to it; the chatbot leads elsewhere |
| LanggraphTools.ChatbotAlternates | notebooks/langgraph_examples/langgraph_tools.py:317-332 | along a walk the chatbot is every other node |
| LanggraphTools.EndOnlyAfterChatbot | notebooks/langgraph_examples/langgraph_tools.py:320-328 | END is reached only from the chatbot on the END route |
| LanggraphRag.GradeDocuments | notebooks/langgraph_examples/langgraph_rag.py:178-194 | generate iff the scorer says exactly "yes" on the first message and the last message's content, else rewrite |
| LanggraphRag.AgentNode | notebooks/langgraph_examples/langgraph_rag.py:211-221 | one AI message, the model's reply to all messages |
| LanggraphRag.RewritePrompt | notebooks/langgraph_examples/langgraph_rag.py:242-252 | the original question between the two fixed parts |
| LanggraphRag.RewriteNode | notebooks/langgraph_examples/langgraph_rag.py:238-258 | one message, the model's rewording of the first message |
| LanggraphRag.GenerateNode | notebooks/langgraph_examples/langgraph_rag.py:275-297 | one message, the RAG chain's answer from the last message's documents and the first message's question |
| LanggraphRag.RetrieveNode | notebooks/langgraph_examples/langgraph_rag.py:308 | one tool message per tool call of the last AI message, in order, under the call's id: the retrieved text for a `retrieve_blog_posts` call, LangGraph's unknown-tool text naming `retrieve_blog_posts` for any other name |
| LanggraphRag.RewriteUsesOnlyTheQuestion | notebooks/langgraph_examples/langgraph_rag.py:239 | the rewrite depends only on the first message |
| LanggraphRag.Successor | notebooks/langgraph_examples/langgraph_rag.py:314-335 | agent→retrieve iff tool calls, else END; retrieve→generate iff relevant, else rewrite; rewrite→agent; generate→END |
| LanggraphRag.RankIncreasesWithoutRewrite | notebooks/langgraph_examples/langgraph_rag.py:314-335 | away from the rewriter every step moves forward |
| LanggraphRag.EveryCycleRewrites | notebooks/langgraph_examples/langgraph_rag.py:327-335 | a node is only revisited after a rewrite |
| LanggraphRag.QuestionStaysFirst | notebooks/langgraph_examples/langgraph_rag.py:132 | appending node outputs keeps the original messages, so the question stays first |
| ChromaLoader.LastDot | notebooks/vocabulary_write_to_chroma.py:156 | the index of the last '.', or -1 |
| ChromaLoader.Suffix | notebooks/vocabulary_write_to_chroma.py:90 | empty, or a dot and at least one dot-free character |
| ChromaLoader.Stem | notebooks/vocabulary_write_to_chroma.py:156 | stem followed by suffix is the name |
| ChromaLoader.StemOfTxtName | notebooks/vocabulary_write_to_chroma.py:156 | "base.txt" has stem base and suffix .txt |
| ChromaLoader.TopicFromFilename | notebooks/vocabulary_write_to_chroma.py:156-161 | as long as the stem; no '_' left; blanks exactly where the stem had '_' or a blank; every other letter upper-cased after a non-letter and lower-cased after a letter, as `str.title()` does |
| ChromaLoader.NonBlankLines | notebooks/vocabulary_write_to_chroma.py:181 | at most one line per input line, each non-empty with no blank at either end |
| ChromaLoader.NonBlankLinesKept | notebooks/vocabulary_write_to_chroma.py:181 | every line that is non-empty after `strip()` is kept, stripped, and nothing else is |
| ChromaLoader.NonBlankLinesAppend | notebooks/vocabulary_write_to_chroma.py:181 | the kept lines of two texts are those of the first followed by those of the second, so order is kept |
| ChromaLoader.DashLines | notebooks/vocabulary_write_to_chroma.py:182 | a line is kept exactly when it holds a '-' |
| ChromaLoader.DashLinesAppend | notebooks/vocabulary_write_to_chroma.py:182 | the dash lines of two texts are those of the first followed by those of the second, so order is kept |
| ChromaLoader.ExtractMetadata | notebooks/vocabulary_write_to_chroma.py:174-193 | exactly six keys: topic, fixed type and language, line and dash-line counts as decimal text, and "true" iff a topic header appears |
| ChromaLoader.MetadataCountsBounded | notebooks/vocabulary_write_to_chroma.py:184-185 | both counts parse back with `int` and the vocabulary count is at most the line count |
| ChromaLoader.LoadedDocuments | notebooks/vocabulary_write_to_chroma.py:89-117 | at most one document per listing entry |
| ChromaLoader.LoadedDocumentsExactly | notebooks/vocabulary_write_to_chroma.py:89-117 | a document comes from each readable, non-blank .txt file and from nothing else |
| ChromaLoader.LoadStep | notebooks/vocabulary_write_to_chroma.py:89-129 | what one more entry adds to the documents and the counters |
| ChromaLoader.LoadVocabularyFiles | notebooks/vocabulary_write_to_chroma.py:80-143 | a missing directory gives nothing; otherwise the loaded documents, and processed plus skipped is the number of files |
| ChromaLoader.SumOfUpdate | notebooks/vocabulary_write_to_chroma.py:323-325 | replacing a row changes a figure's total by the difference |
| ChromaLoader.RowIndex | notebooks/vocabulary_write_to_chroma.py:316 | the topic's row, or -1 exactly when it has none |
| ChromaLoader.SumOfAppend | notebooks/vocabulary_write_to_chroma.py:316-321 | a new row adds its figures to the totals |
| ChromaLoader.AddToTopic | notebooks/vocabulary_write_to_chroma.py:316-325 | the topic's row is created or bumped, other rows kept, topics stay distinct, each total grows by the document's figures |
| ChromaLoader.OnAppend | notebooks/vocabulary_write_to_chroma.py:311-313 | one more document adds to its own topic's figures only |
| ChromaLoader.BumpedRowAgrees | notebooks/vocabulary_write_to_chroma.py:323-325 | a bumped row agrees with the documents including the new one |
| ChromaLoader.NewRowAgrees | notebooks/vocabulary_write_to_chroma.py:316-325 | a fresh row agrees with the documents including the new one |
| ChromaLoader.UnseenStaysUnseen | notebooks/vocabulary_write_to_chroma.py:316-321 | a topic without a row has no document |
| ChromaLoader.AddToTopicAgrees | notebooks/vocabulary_write_to_chroma.py:316-325 | counting a document in keeps every row in agreement with the documents |
| ChromaLoader.StatsStep | notebooks/vocabulary_write_to_chroma.py:328-329 | what one more document adds to the totals |
| ChromaLoader.TotalsStep | notebooks/vocabulary_write_to_chroma.py:328-329 | the totals keep matching the documents counted so far |
| ChromaLoader.RowsStep | notebooks/vocabulary_write_to_chroma.py:316-325 | the rows keep matching the documents counted so far |
| ChromaLoader.CountStep | notebooks/vocabulary_write_to_chroma.py:310-329 | one loop turn keeps the statistics summarising the documents so far |
| ChromaLoader.GenerateStatistics | notebooks/vocabulary_write_to_chroma.py:303-331 | fails iff a count is not an integer, at the first such document; otherwise totals and per-topic rows summarise the documents and the rows sum to the totals |
| ChromaLoader.LoadedCountsParse | notebooks/vocabulary_write_to_chroma.py:184 | statistics over loaded documents never fail |
| VocabularyGenerator.TopicLines | notebooks/vocabulary_generator.py:88-91 | one line per topic |
| VocabularyGenerator.TopicLinesAt | notebooks/vocabulary_generator.py:89 | line k is topic k, marked with an arrow exactly when it is the current topic |
| VocabularyGenerator.TopicListIsJoin | notebooks/vocabulary_generator.py:88-91 | the list is its lines joined with newlines |
| VocabularyGenerator.TopicListLines | notebooks/vocabulary_generator.py:88-91 | the list splits back into its lines |
| VocabularyGenerator.AfterFirst | notebooks/vocabulary_generator.py:135 | the text after the first separator, or all of it when there is none |
| VocabularyGenerator.FirstIndex | notebooks/vocabulary_generator.py:135 | where `split(c, 1)` cuts: a position holding the separator with no separator before it |
| VocabularyGenerator.ExtractWord | notebooks/vocabulary_generator.py:133-135 | the extracted word holds no '-' |
| VocabularyGenerator.ExtractWordIs | notebooks/vocabulary_generator.py:133-135 | the word is the text before the first '-', lower-cased and stripped; when that text holds a '.', it is what follows the first '.', lower-cased and stripped |
| VocabularyGenerator.LowerHasNoUpperCase | notebooks/vocabulary_generator.py:133 | lower-cased text has no upper-case letter |
| VocabularyGenerator.AfterFirstKeepsNoUpperCase | notebooks/vocabulary_generator.py:135 | cutting at the first '.' keeps text lower-case |
| VocabularyGenerator.StripKeepsNoUpperCase | notebooks/vocabulary_generator.py:135 | stripping keeps text lower-case |
| VocabularyGenerator.ExtractWordIsLowerCase | notebooks/vocabulary_generator.py:133-135 | extracted words are lower-case and stripped, so duplicate checks ignore case |
| VocabularyGenerator.WordsOf | notebooks/vocabulary_generator.py:129-136 | at most one word per line, none holding '-' |
| VocabularyGenerator.WordsOfLines | notebooks/vocabulary_generator.py:129-136 | every word comes from a line with '-', and each such line gives its word |
| VocabularyGenerator.ExtractNewWords | notebooks/vocabulary_generator.py:129-136 | the loop's result is the words of the reply's lines |
| VocabularyGenerator.SavedFileName | notebooks/vocabulary_generator.py:171 | the file name ends in ".txt" |
| VocabularyGenerator.Rule | notebooks/vocabulary_generator.py:177 | n '=' characters |
| VocabularyGenerator.SavedFileContent | notebooks/vocabulary_generator.py:175-178 | "主題：", the topic, a newline, fifty '=', two newlines, then the reply, each at its position, with that exact length |
| VocabularyGenerator.SavedFileLines | notebooks/vocabulary_generator.py:175-178 | read back line by line: the header line with the topic, the rule, an empty line, then the reply's own lines |
| VocabularyGenerator.AmpersandTopicFileName | notebooks/vocabulary_generator.py:170-171 | "A & B" with single-word parts is saved as "a_b.txt" |
| VocabularyGenerator.LowerPreservesAbsence | notebooks/vocabulary_generator.py:171 | lower-casing creates no character other than a lower-case letter |
| VocabularyGenerator.LowerAmpersandWindow | notebooks/vocabulary_generator.py:171 | " & " after lower-casing was " & " before |
| VocabularyGenerator.LowerKeepsAmpersandOut | notebooks/vocabulary_generator.py:171 | lower-casing creates no " & " |
| VocabularyGenerator.SpacesRoundTrip | notebooks/vocabulary_generator.py:171 | blanks turned into '_' and back give the text back when it had no '_' |
| VocabularyGenerator.FileNameTopicRoundTrip | notebooks/vocabulary_generator.py:171 | for a topic without '_' or " & ", the loader's topic for the saved file name is the title-cased topic |
| VocabularyGenerator.AmpersandTopicLosesAmpersand | notebooks/vocabulary_generator.py:171 | for "A & B" the loader reads back "A B" title-cased, never the "&" topic |
| VocabularyGenerator.SavedFileHasTopicHeader | notebooks/vocabulary_generator.py:176 | every saved file carries the header the loader detects |
| VocabularyGenerator.EstimateTime | notebooks/vocabulary_generator.py:312-317 | minutes and seconds (under 60) add up to topics times delay |
| VocabularyGenerator.SuccessCount | notebooks/vocabulary_generator.py:260-265 | at most one success per topic |
| VocabularyGenerator.RunStepSuccess | notebooks/vocabulary_generator.py:260-265 | a topic adds one success exactly when its reply is non-empty and saving it succeeds |
| VocabularyGenerator.RunStepWords | notebooks/vocabulary_generator.py:144 | a topic adds the words of its reply |
| VocabularyGenerator.AllSucceed | notebooks/vocabulary_generator.py:249-273 | when every topic succeeds, every topic is counted |
| VocabularyGenerator.NoReplies | notebooks/vocabulary_generator.py:149-151 | when every call fails, nothing is counted and no word is added |
| VocabularyGenerator.UnionSize | notebooks/vocabulary_generator.py:139-144 | the set grows by the new words minus the duplicates |
| VocabularyGenerator.Generator.constructor | notebooks/vocabulary_generator.py:41-65 | the ten topics and no words yet |
| VocabularyGenerator.Generator.GenerateVocabulary | notebooks/vocabulary_generator.py:71-151 | the reply to the topic's prompt; duplicates are its words already seen; the seen set gains exactly its words |
| VocabularyGenerator.Generator.RunGeneration | notebooks/vocabulary_generator.py:249-273 | successes plus failures is the topic count; successes are the topics whose reply is non-empty and saved; the seen set gains every reply's words |
| Text.Strip | notebooks/vocabulary_write_to_chroma.py:181 | `str.strip()`: no blank at either end, empty iff all blank |
| Text.StripIsSlice | notebooks/vocabulary_write_to_chroma.py:181 | the stripped text is a slice of the input with only whitespace cut off on either side |
| Text.Lower | src/config.py:360 | `str.lower()` character by character |
| Text.TitleAfter | notebooks/vocabulary_write_to_chroma.py:159 | `str.title()`: same length, a cased character is upper-cased after an uncased one and lower-cased after a cased one, every other character kept |
| Text.Split | notebooks/vocabulary_write_to_chroma.py:181 | `str.split(c)`: at least one field, none holding c |
| Text.JoinSplit | notebooks/vocabulary_write_to_chroma.py:181 | joining the fields with the separator gives the text back |
| Text.JoinSnoc | src/agents.py:429 | `sep.join` of one more string appends the separator and that string, whatever the strings hold |
| Text.SplitJoin | src/agents.py:313 | fields without the separator, joined and split again, come back |
| Text.Contains | notebooks/vocabulary_write_to_chroma.py:188 | `in` on strings: an occurrence at some position |
| Text.ParseInt | src/config.py:303-305 | `int()` succeeds exactly when the stripped text is an optional sign then ASCII digit groups joined by single underscores, and returns that literal's value |
| Text.ParseIntToString | src/config.py:303-305 | `int(str(n)) == n` |
| Text.TitleOfLower | notebooks/vocabulary_write_to_chroma.py:159 | title-casing ignores the letters' original case |
| Ordering.SortByText | src/database.py:160 | `sorted` by a string key: a permutation in ascending order |
| Ordering.SortByInt | src/database.py:254 | `sorted` by a numeric key: a permutation in ascending order |
| Ordering.TextLeTotal | src/database.py:160 | string order is total |
| Ordering.TextLeTransitive | src/database.py:160 | string order is transitive |
| Ordering.TextLeAntisymmetric | src/database.py:160 | string order is antisymmetric |

## Left out
- Language models, embeddings, the Chroma store, the retriever, the relevance scorer and the RAG chain: they are function parameters or opaque prompt constants. No prompt wording is modelled.
- Connections are not modelled: Firebase app initialisation, the SQLite connection with its Cloud Storage copy, and commits and rollbacks. A failed database call's `except` path (returning False or re-raising) is not modelled beyond the errors named in the table.
- Both stores start from an empty database. The source opens an existing one: the Firebase reference, or the SQLite file copied from Cloud Storage and opened with `CREATE TABLE IF NOT EXISTS`. Every method needs only the store's invariant, so it applies to any database that meets it.
- Timestamps are a counter rather than `datetime.now()`. Push keys and AUTOINCREMENT ids are counter values. uuids are parameters.
- `os.getenv`, `load_dotenv`, file reads and writes, directory creation, `time.sleep` and the pause between generator requests are not modelled. The directory listing, the file contents and the success of a file write are inputs.
- Floating point is not modelled. The calculator and the SQLite average compute on exact reals, and the calculator's result is not formatted into its message text. `float()` in configuration loading is a parameter.
- JSON decoding of the Firebase credentials and of the SQLite `examples` and `metadata` columns is not modelled. `preferences` and `metadata` are not modelled.
- Text.ParseInt: `int()` is modelled on ASCII digits only. Python also accepts any Unicode decimal digit, such as "３".
- LanggraphTools.Tokenize: the pattern's `\d` is modelled on ASCII digits only. Python's `\d` also matches other Unicode decimal digits, so "３ + 4" gives a format error in the model and 7 in the source.
- Text.Lower: `str.lower()`, and likewise `str.title()`, is modelled on ASCII letters only, with no Unicode case mapping.
- SqliteStore.VocabDatabase.GetChatMessages: the result is stated by membership, length and order, not by the multiplicity of each row's view. The store's invariant does not rule out two messages of a chat with the same role, content and time. GetUserVocabulary is stated the same way.
- LanggraphTools.MathCalculator: the generic `except Exception` branch has no modelled cause.
- The `date_converter` tool is not modelled.
- pdf_text_extraction.py and the tests are not part of this model.
- The LangGraph runtime is reduced to the wiring of each graph and one turn of the agent graph: checkpointing, streaming, recursion limits and graph drawing are left out.
- Logging, printing, the `__main__` demos and CLI loops are not modelled, nor is `print_config_summary`.
- `_validate_configurations` is not modelled: it only logs.
- Plain dictionary views are not modelled: `get_chroma_config_dict` and `get_streamlit_config_dict`.
- `preview_topic_list` is not modelled: it only prints the topic list.
- The generator's `generate_statistics` and `save_statistics` are not modelled. They report counts of an output directory that the model does not have.
- The vector-store steps of the loader are not modelled: `create_vector_store`, `verify_vector_store` and the statistics printer.
- VocabularyGenerator.AmpersandTopicFileName: stated for any two single-word parts. It is not stated for the literal "Work & Career" example alone.

## Findings

| source | as written | input that shows it | evidently intended | confidence | as-written member | corrected member |
|---|---|---|---|---|---|---|
| src/config.py:342-344 | `has_credentials_json` (lines 57-60) is true whenever the JSON text is not None. Loading (line 229) always stores a string, "" when FIREBASE_CREDENTIALS is unset. So the empty JSON text is chosen and `json.loads("")` fails. | FIREBASE_CREDENTIALS unset, FIREBASE_CREDENTIALS_PATH unset, FirebaseKey.json present | fall back to the credentials file when no JSON text is given | not executed | Config.CredentialSourceAsWritten (shown by Config.CredentialFileIgnoredAsWritten) | Config.ChooseCredentialSource |
