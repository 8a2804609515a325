/**
 * Configuration (src/config.py): the five configuration records and their
 * construction-time checks, environment-variable lookup with defaults, the
 * optional integer lookup, loading every setting from an environment, the
 * environment classification, the retriever settings and the choice between
 * the Firebase credential sources.
 *
 * The process environment is a map from variable names to values; Python's
 * `float(...)` is a parameter (`parseFloat`), since floating point is not modelled.
 */
module Config {
  import opened Wrappers
  import opened Text

  /** The ValueError each check raises, by cause. */
  datatype ConfigError =
    | EmptyDatabaseUrl
    | MissingCredentials
    | EmptyApiKey
    | TemperatureOutOfRange
    | NonPositiveMaxTokens
    | EmptyPersistDirectory
    | EmptyCollectionName
    | NonPositiveSearchK
    | UnknownSearchType
    | UnknownLayout
    | UnknownSidebarState
    | NonPositiveHistory
    | NonPositiveMessageLength
    | MissingVariable(key: string)
    | NotAnInteger(key: string)
    | NotANumber(key: string)
    | NoCredentials

  /** Python truthiness of an optional string: present and non-empty. */
  predicate Truthy(o: Option<string>) {
    o.Some? && o.value != []
  }

  // ---------------------------------------------------------------------------
  // The five configuration records and their checks
  // ---------------------------------------------------------------------------

  datatype FirebaseConfig = FirebaseConfig(databaseUrl: string, credentialsPath: Option<string>, credentialsJson: Option<string>)

  predicate ValidFirebase(c: FirebaseConfig) {
    c.databaseUrl != [] && (Truthy(c.credentialsPath) || Truthy(c.credentialsJson))
  }

  /** FirebaseConfig.__post_init__: None when accepted, else the error raised first. */
  function CheckFirebase(c: FirebaseConfig): (r: Option<ConfigError>)
    ensures r.None? <==> ValidFirebase(c)
    ensures c.databaseUrl == [] ==> r == Some(EmptyDatabaseUrl)
    ensures c.databaseUrl != [] && !Truthy(c.credentialsPath) && !Truthy(c.credentialsJson) ==> r == Some(MissingCredentials)
  {
    if c.databaseUrl == [] then Some(EmptyDatabaseUrl)
    else if !Truthy(c.credentialsPath) && !Truthy(c.credentialsJson) then Some(MissingCredentials)
    else None
  }

  datatype OpenAIConfig = OpenAIConfig(apiKey: string, chatModel: string, embeddingModel: string,
                                       temperature: real, maxTokens: Option<int>)

  predicate ValidOpenAI(c: OpenAIConfig) {
    c.apiKey != [] && 0.0 <= c.temperature <= 2.0 && (c.maxTokens.Some? ==> c.maxTokens.value > 0)
  }

  /** OpenAIConfig.__post_init__. */
  function CheckOpenAI(c: OpenAIConfig): (r: Option<ConfigError>)
    ensures r.None? <==> ValidOpenAI(c)
    ensures c.apiKey == [] ==> r == Some(EmptyApiKey)
    ensures c.apiKey != [] && !(0.0 <= c.temperature <= 2.0) ==> r == Some(TemperatureOutOfRange)
    ensures c.apiKey != [] && 0.0 <= c.temperature <= 2.0 && c.maxTokens.Some? && c.maxTokens.value <= 0 ==>
              r == Some(NonPositiveMaxTokens)
  {
    if c.apiKey == [] then Some(EmptyApiKey)
    else if !(0.0 <= c.temperature <= 2.0) then Some(TemperatureOutOfRange)
    else if c.maxTokens.Some? && c.maxTokens.value <= 0 then Some(NonPositiveMaxTokens)
    else None
  }

  datatype ChromaConfig = ChromaConfig(persistDirectory: string, collectionName: string, searchType: string, searchK: int)

  const SEARCH_TYPES: seq<string> := ["similarity", "mmr"]

  predicate ValidChroma(c: ChromaConfig) {
    c.persistDirectory != [] && c.collectionName != [] && c.searchK > 0 && c.searchType in SEARCH_TYPES
  }

  /** ChromaConfig.__post_init__: directory, then collection, then k, then search type. */
  function CheckChroma(c: ChromaConfig): (r: Option<ConfigError>)
    ensures r.None? <==> ValidChroma(c)
    ensures c.persistDirectory == [] ==> r == Some(EmptyPersistDirectory)
    ensures c.persistDirectory != [] && c.collectionName == [] ==> r == Some(EmptyCollectionName)
    ensures c.persistDirectory != [] && c.collectionName != [] && c.searchK <= 0 ==> r == Some(NonPositiveSearchK)
    ensures c.persistDirectory != [] && c.collectionName != [] && c.searchK > 0 && c.searchType !in SEARCH_TYPES ==>
              r == Some(UnknownSearchType)
  {
    if c.persistDirectory == [] then Some(EmptyPersistDirectory)
    else if c.collectionName == [] then Some(EmptyCollectionName)
    else if c.searchK <= 0 then Some(NonPositiveSearchK)
    else if c.searchType !in SEARCH_TYPES then Some(UnknownSearchType)
    else None
  }

  datatype StreamlitConfig = StreamlitConfig(pageTitle: string, pageIcon: string, layout: string, initialSidebarState: string)

  const LAYOUTS: seq<string> := ["centered", "wide"]
  const SIDEBAR_STATES: seq<string> := ["auto", "expanded", "collapsed"]

  predicate ValidStreamlit(c: StreamlitConfig) {
    c.layout in LAYOUTS && c.initialSidebarState in SIDEBAR_STATES
  }

  /** StreamlitConfig.__post_init__: layout first, then sidebar state. */
  function CheckStreamlit(c: StreamlitConfig): (r: Option<ConfigError>)
    ensures r.None? <==> ValidStreamlit(c)
    ensures c.layout !in LAYOUTS ==> r == Some(UnknownLayout)
    ensures c.layout in LAYOUTS && c.initialSidebarState !in SIDEBAR_STATES ==> r == Some(UnknownSidebarState)
  {
    if c.layout !in LAYOUTS then Some(UnknownLayout)
    else if c.initialSidebarState !in SIDEBAR_STATES then Some(UnknownSidebarState)
    else None
  }

  datatype ChatConfig = ChatConfig(maxHistoryMessages: int, maxMessageLength: int, defaultChatName: string)

  predicate ValidChat(c: ChatConfig) {
    c.maxHistoryMessages > 0 && c.maxMessageLength > 0
  }

  /** ChatConfig.__post_init__. */
  function CheckChat(c: ChatConfig): (r: Option<ConfigError>)
    ensures r.None? <==> ValidChat(c)
    ensures c.maxHistoryMessages <= 0 ==> r == Some(NonPositiveHistory)
    ensures c.maxHistoryMessages > 0 && c.maxMessageLength <= 0 ==> r == Some(NonPositiveMessageLength)
  {
    if c.maxHistoryMessages <= 0 then Some(NonPositiveHistory)
    else if c.maxMessageLength <= 0 then Some(NonPositiveMessageLength)
    else None
  }

  /**
   * An environment that sets none of the Chroma, Streamlit and chat variables
   * loads those three records from their defaults, and the defaults pass the checks.
   */
  lemma DefaultsAreValid(env: map<string, string>)
    requires forall key :: key in env ==> key !in DEFAULTED_KEYS
    ensures LoadChroma(env) == Ok(ChromaConfig("./data/chroma_db", "vocabulary_v1", "similarity", 1))
    ensures LoadStreamlit(env) == Ok(StreamlitConfig("VocabVoyage", "\U{1F393}", "wide", "expanded"))
    ensures LoadChat(env) == Ok(ChatConfig(4, 2000, "聊天"))
  {
    DefaultIntegers();
  }

  lemma DefaultIntegers()
    ensures ParseInt("1") == Some(1) && ParseInt("4") == Some(4) && ParseInt("2000") == Some(2000)
  {
    ParseDigits("1", 1);
    ParseDigits("4", 4);
    DefaultMessageLength();
  }

  lemma DefaultMessageLength()
    ensures ParseInt("2000") == Some(2000)
  {
    var d1, d2, d3, d4 := "2", "20", "200", "2000";
    assert DigitsValue(d1) == 2 by { assert d1[..0] == ""; }
    assert DigitsValue(d2) == 20 by { assert d2[..1] == d1; }
    assert DigitsValue(d3) == 200 by { assert d3[..2] == d2; }
    assert DigitsValue(d4) == 2000 by { assert d4[..3] == d3; }
    ParseDigits(d4, 2000);
  }

  // ---------------------------------------------------------------------------
  // Environment variables
  // ---------------------------------------------------------------------------

  /** `os.getenv(key, default)`: the value when the variable is set (even to ""), else the default. */
  function GetEnv(env: map<string, string>, key: string, default: Option<string>): Option<string> {
    if key in env then Some(env[key]) else default
  }

  /**
   * _get_env_var: fails exactly when the variable is required and its value after
   * defaulting is empty; otherwise the value, with "" standing for None. A variable
   * set to "" yields "" and not the default.
   */
  function GetEnvVar(env: map<string, string>, key: string, default: Option<string>, required: bool): (r: Result<string, ConfigError>)
    ensures r.Err? <==> required && !Truthy(GetEnv(env, key, default))
    ensures r.Err? ==> r.error == MissingVariable(key)
    ensures r.Ok? && key in env ==> r.value == env[key]
    ensures r.Ok? && key !in env && default.Some? ==> r.value == default.value
    ensures r.Ok? && key !in env && default.None? ==> r.value == ""
  {
    var value := GetEnv(env, key, default);
    if required && !Truthy(value) then Err(MissingVariable(key))
    else Ok(if Truthy(value) then value.value else "")
  }

  /** An optional variable with a default: the set value (even ""), else the default. */
  function EnvOr(env: map<string, string>, key: string, default: string): string {
    if key in env then env[key] else default
  }

  lemma GetEnvVarOptional(env: map<string, string>, key: string, default: string)
    ensures GetEnvVar(env, key, Some(default), false) == Ok(EnvOr(env, key, default))
    ensures GetEnvVar(env, key, None, false) == Ok(EnvOr(env, key, ""))
  {
  }

  /**
   * _get_optional_int: None when the variable is unset or empty or not an
   * integer, the parsed integer otherwise.
   */
  function GetOptionalInt(env: map<string, string>, key: string): (r: Option<int>)
    ensures key !in env || env[key] == [] ==> r == None
    ensures key in env && env[key] != [] ==> r == ParseInt(env[key])
  {
    var value := GetEnv(env, key, None);
    if Truthy(value) then ParseInt(value.value) else None
  }

  /** Setting a variable to the decimal text of `n` makes the optional lookup return `n`. */
  lemma GetOptionalIntRoundTrip(env: map<string, string>, key: string, n: int)
    ensures GetOptionalInt(env[key := IntToString(n)], key) == Some(n)
  {
    ParseIntToString(n);
  }

  /** `int(...)` of a variable's value, raising ValueError (here NotAnInteger) on bad text. */
  function ToInt(key: string, text: string): (r: Result<int, ConfigError>)
    ensures r.Ok? <==> IsIntLiteral(Strip(text))
    ensures r.Ok? ==> r.value == LiteralValue(Strip(text))
    ensures r.Err? ==> r.error == NotAnInteger(key)
  {
    match ParseInt(text)
    case Some(n) => Ok(n)
    case None => Err(NotAnInteger(key))
  }

  // ---------------------------------------------------------------------------
  // Loading (ConfigManager._load_configurations)
  // ---------------------------------------------------------------------------

  /** The variables of the Chroma, Streamlit and chat records, each of which has a default. */
  const DEFAULTED_KEYS: set<string> := {
    "CHROMA_PERSIST_DIR", "CHROMA_COLLECTION_NAME", "CHROMA_SEARCH_TYPE", "CHROMA_SEARCH_K",
    "STREAMLIT_PAGE_TITLE", "STREAMLIT_PAGE_ICON", "STREAMLIT_LAYOUT", "STREAMLIT_SIDEBAR_STATE",
    "CHAT_MAX_HISTORY", "CHAT_MAX_LENGTH", "CHAT_DEFAULT_NAME"
  }

  /** The defaults of the three integer variables, as the text `int()` parses. */
  const DEFAULT_SEARCH_K: string := "1"
  const DEFAULT_MAX_HISTORY: string := "4"
  const DEFAULT_MAX_LENGTH: string := "2000"

  datatype Settings = Settings(
    firebase: FirebaseConfig,
    openai: OpenAIConfig,
    chroma: ChromaConfig,
    streamlit: StreamlitConfig,
    chat: ChatConfig,
    environment: string,
    debugMode: bool,
    logLevel: string)

  predicate ValidSettings(s: Settings) {
    ValidFirebase(s.firebase) && ValidOpenAI(s.openai) && ValidChroma(s.chroma) &&
    ValidStreamlit(s.streamlit) && ValidChat(s.chat)
  }

  /** The Firebase record from FIREBASE_DATABASE_URL (required), the credentials path and the JSON text. */
  function LoadFirebase(env: map<string, string>): (r: Result<FirebaseConfig, ConfigError>)
    ensures !Truthy(GetEnv(env, "FIREBASE_DATABASE_URL", None)) ==> r == Err(MissingVariable("FIREBASE_DATABASE_URL"))
    ensures Truthy(GetEnv(env, "FIREBASE_DATABASE_URL", None)) &&
            EnvOr(env, "FIREBASE_CREDENTIALS_PATH", "FirebaseKey.json") == [] && EnvOr(env, "FIREBASE_CREDENTIALS", "") == [] ==>
              r == Err(MissingCredentials)
    ensures r.Ok? <==> Truthy(GetEnv(env, "FIREBASE_DATABASE_URL", None)) &&
                       (EnvOr(env, "FIREBASE_CREDENTIALS_PATH", "FirebaseKey.json") != [] || EnvOr(env, "FIREBASE_CREDENTIALS", "") != [])
    ensures r.Ok? ==> ValidFirebase(r.value)
    ensures r.Ok? ==> "FIREBASE_DATABASE_URL" in env && r.value.databaseUrl == env["FIREBASE_DATABASE_URL"]
    ensures r.Ok? ==> r.value.credentialsPath == Some(EnvOr(env, "FIREBASE_CREDENTIALS_PATH", "FirebaseKey.json"))
    ensures r.Ok? ==> r.value.credentialsJson == Some(EnvOr(env, "FIREBASE_CREDENTIALS", ""))
  {
    var databaseUrl := GetEnvVar(env, "FIREBASE_DATABASE_URL", None, true);
    if databaseUrl.Err? then Err(databaseUrl.error)
    else
      var credentialsPath := GetEnvVar(env, "FIREBASE_CREDENTIALS_PATH", Some("FirebaseKey.json"), false);
      var credentialsJson := GetEnvVar(env, "FIREBASE_CREDENTIALS", None, false);
      var c := FirebaseConfig(databaseUrl.value, Some(credentialsPath.value), Some(credentialsJson.value));
      match CheckFirebase(c)
      case Some(e) => Err(e)
      case None => Ok(c)
  }

  /** The OpenAI record: the required API key, models, the temperature through `float` and the optional token limit. */
  function LoadOpenAI(env: map<string, string>, parseFloat: string -> Option<real>): (r: Result<OpenAIConfig, ConfigError>)
    ensures !Truthy(GetEnv(env, "OPENAI_API_KEY", None)) ==> r == Err(MissingVariable("OPENAI_API_KEY"))
    ensures Truthy(GetEnv(env, "OPENAI_API_KEY", None)) && parseFloat(EnvOr(env, "OPENAI_TEMPERATURE", "0.7")).None? ==>
              r == Err(NotANumber("OPENAI_TEMPERATURE"))
    ensures var t := parseFloat(EnvOr(env, "OPENAI_TEMPERATURE", "0.7"));
            Truthy(GetEnv(env, "OPENAI_API_KEY", None)) && t.Some? && !(0.0 <= t.value <= 2.0) ==>
              r == Err(TemperatureOutOfRange)
    ensures var t := parseFloat(EnvOr(env, "OPENAI_TEMPERATURE", "0.7"));
            var m := GetOptionalInt(env, "OPENAI_MAX_TOKENS");
            Truthy(GetEnv(env, "OPENAI_API_KEY", None)) && t.Some? && 0.0 <= t.value <= 2.0 && m.Some? && m.value <= 0 ==>
              r == Err(NonPositiveMaxTokens)
    ensures var t := parseFloat(EnvOr(env, "OPENAI_TEMPERATURE", "0.7"));
            var m := GetOptionalInt(env, "OPENAI_MAX_TOKENS");
            r.Ok? <==> Truthy(GetEnv(env, "OPENAI_API_KEY", None)) && t.Some? && 0.0 <= t.value <= 2.0 &&
                       (m.Some? ==> m.value > 0)
    ensures r.Ok? ==> ValidOpenAI(r.value)
    ensures r.Ok? ==> "OPENAI_API_KEY" in env && r.value.apiKey == env["OPENAI_API_KEY"]
    ensures r.Ok? ==> r.value.chatModel == EnvOr(env, "OPENAI_CHAT_MODEL", "gpt-4o-mini")
    ensures r.Ok? ==> Some(r.value.temperature) == parseFloat(EnvOr(env, "OPENAI_TEMPERATURE", "0.7"))
    ensures r.Ok? ==> r.value.maxTokens == GetOptionalInt(env, "OPENAI_MAX_TOKENS")
  {
    var apiKey := GetEnvVar(env, "OPENAI_API_KEY", None, true);
    if apiKey.Err? then Err(apiKey.error)
    else
      var chatModel := GetEnvVar(env, "OPENAI_CHAT_MODEL", Some("gpt-4o-mini"), false);
      var embeddingModel := GetEnvVar(env, "OPENAI_EMBEDDING_MODEL", Some("text-embedding-3-small"), false);
      var temperatureText := GetEnvVar(env, "OPENAI_TEMPERATURE", Some("0.7"), false);
      match parseFloat(temperatureText.value)
      case None => Err(NotANumber("OPENAI_TEMPERATURE"))
      case Some(temperature) =>
        var c := OpenAIConfig(apiKey.value, chatModel.value, embeddingModel.value, temperature,
                              GetOptionalInt(env, "OPENAI_MAX_TOKENS"));
        match CheckOpenAI(c)
        case Some(e) => Err(e)
        case None => Ok(c)
  }

  /** The Chroma record; CHROMA_SEARCH_K goes through `int`. */
  function LoadChroma(env: map<string, string>): (r: Result<ChromaConfig, ConfigError>)
    ensures r.Ok? ==> ValidChroma(r.value)
    ensures r.Ok? ==> r.value.persistDirectory == EnvOr(env, "CHROMA_PERSIST_DIR", "./data/chroma_db")
    ensures r.Ok? ==> r.value.searchType == EnvOr(env, "CHROMA_SEARCH_TYPE", "similarity")
    ensures r.Ok? ==> r.value.collectionName == EnvOr(env, "CHROMA_COLLECTION_NAME", "vocabulary_v1")
    ensures ParseInt(EnvOr(env, "CHROMA_SEARCH_K", DEFAULT_SEARCH_K)).None? ==> r == Err(NotAnInteger("CHROMA_SEARCH_K"))
    ensures r.Ok? ==> Some(r.value.searchK) == ParseInt(EnvOr(env, "CHROMA_SEARCH_K", DEFAULT_SEARCH_K))
    ensures var k := ParseInt(EnvOr(env, "CHROMA_SEARCH_K", DEFAULT_SEARCH_K));
            var c := ChromaConfig(EnvOr(env, "CHROMA_PERSIST_DIR", "./data/chroma_db"),
                                  EnvOr(env, "CHROMA_COLLECTION_NAME", "vocabulary_v1"),
                                  EnvOr(env, "CHROMA_SEARCH_TYPE", "similarity"), if k.Some? then k.value else 0);
            (r.Ok? <==> k.Some? && ValidChroma(c)) &&
            (k.Some? && !ValidChroma(c) ==> r == Err(CheckChroma(c).value))
  {
    var persistDirectory := GetEnvVar(env, "CHROMA_PERSIST_DIR", Some("./data/chroma_db"), false);
    var collectionName := GetEnvVar(env, "CHROMA_COLLECTION_NAME", Some("vocabulary_v1"), false);
    var searchType := GetEnvVar(env, "CHROMA_SEARCH_TYPE", Some("similarity"), false);
    var searchKText := GetEnvVar(env, "CHROMA_SEARCH_K", Some(DEFAULT_SEARCH_K), false);
    var searchK := ToInt("CHROMA_SEARCH_K", searchKText.value);
    if searchK.Err? then Err(searchK.error)
    else
      var c := ChromaConfig(persistDirectory.value, collectionName.value, searchType.value, searchK.value);
      match CheckChroma(c)
      case Some(e) => Err(e)
      case None => Ok(c)
  }

  /** The Streamlit record. */
  function LoadStreamlit(env: map<string, string>): (r: Result<StreamlitConfig, ConfigError>)
    ensures r.Ok? ==> ValidStreamlit(r.value)
    ensures r.Ok? ==> r.value.layout == EnvOr(env, "STREAMLIT_LAYOUT", "wide")
    ensures r.Ok? ==> r.value.initialSidebarState == EnvOr(env, "STREAMLIT_SIDEBAR_STATE", "expanded")
    ensures r.Err? <==> EnvOr(env, "STREAMLIT_LAYOUT", "wide") !in LAYOUTS ||
                        EnvOr(env, "STREAMLIT_SIDEBAR_STATE", "expanded") !in SIDEBAR_STATES
  {
    var pageTitle := GetEnvVar(env, "STREAMLIT_PAGE_TITLE", Some("VocabVoyage"), false);
    var pageIcon := GetEnvVar(env, "STREAMLIT_PAGE_ICON", Some("\U{1F393}"), false);
    var layout := GetEnvVar(env, "STREAMLIT_LAYOUT", Some("wide"), false);
    var sidebar := GetEnvVar(env, "STREAMLIT_SIDEBAR_STATE", Some("expanded"), false);
    var c := StreamlitConfig(pageTitle.value, pageIcon.value, layout.value, sidebar.value);
    match CheckStreamlit(c)
    case Some(e) => Err(e)
    case None => Ok(c)
  }

  /** The chat record; both limits go through `int`. */
  function LoadChat(env: map<string, string>): (r: Result<ChatConfig, ConfigError>)
    ensures r.Ok? ==> ValidChat(r.value)
    ensures r.Ok? ==> Some(r.value.maxHistoryMessages) == ParseInt(EnvOr(env, "CHAT_MAX_HISTORY", DEFAULT_MAX_HISTORY))
    ensures r.Ok? ==> Some(r.value.maxMessageLength) == ParseInt(EnvOr(env, "CHAT_MAX_LENGTH", DEFAULT_MAX_LENGTH))
    ensures r.Ok? ==> r.value.defaultChatName == EnvOr(env, "CHAT_DEFAULT_NAME", "聊天")
    ensures var h := ParseInt(EnvOr(env, "CHAT_MAX_HISTORY", DEFAULT_MAX_HISTORY));
            var l := ParseInt(EnvOr(env, "CHAT_MAX_LENGTH", DEFAULT_MAX_LENGTH));
            (h.None? ==> r == Err(NotAnInteger("CHAT_MAX_HISTORY"))) &&
            (h.Some? && l.None? ==> r == Err(NotAnInteger("CHAT_MAX_LENGTH"))) &&
            (h.Some? && l.Some? && h.value <= 0 ==> r == Err(NonPositiveHistory)) &&
            (h.Some? && l.Some? && h.value > 0 && l.value <= 0 ==> r == Err(NonPositiveMessageLength)) &&
            (r.Ok? <==> h.Some? && l.Some? && h.value > 0 && l.value > 0)
  {
    var historyText := GetEnvVar(env, "CHAT_MAX_HISTORY", Some(DEFAULT_MAX_HISTORY), false);
    var maxHistory := ToInt("CHAT_MAX_HISTORY", historyText.value);
    var lengthText := GetEnvVar(env, "CHAT_MAX_LENGTH", Some(DEFAULT_MAX_LENGTH), false);
    var maxLength := ToInt("CHAT_MAX_LENGTH", lengthText.value);
    var chatName := GetEnvVar(env, "CHAT_DEFAULT_NAME", Some("聊天"), false);
    if maxHistory.Err? then Err(maxHistory.error)
    else if maxLength.Err? then Err(maxLength.error)
    else
      var c := ChatConfig(maxHistory.value, maxLength.value, chatName.value);
      match CheckChat(c)
      case Some(e) => Err(e)
      case None => Ok(c)
  }

  /**
   * _load_configurations: builds the Firebase, OpenAI, Chroma, Streamlit and chat
   * records in that order, each checked as it is built; the first failure ends
   * the loading with its error. Then the application environment settings.
   */
  method LoadConfigurations(env: map<string, string>, parseFloat: string -> Option<real>)
    returns (r: Result<Settings, ConfigError>)
    ensures r.Ok? ==> ValidSettings(r.value)
    ensures LoadFirebase(env).Err? ==> r == Err(LoadFirebase(env).error)
    ensures LoadFirebase(env).Ok? && LoadOpenAI(env, parseFloat).Err? ==> r == Err(LoadOpenAI(env, parseFloat).error)
    ensures LoadFirebase(env).Ok? && LoadOpenAI(env, parseFloat).Ok? && LoadChroma(env).Err? ==>
              r == Err(LoadChroma(env).error)
    ensures LoadFirebase(env).Ok? && LoadOpenAI(env, parseFloat).Ok? && LoadChroma(env).Ok? && LoadStreamlit(env).Err? ==>
              r == Err(LoadStreamlit(env).error)
    ensures LoadFirebase(env).Ok? && LoadOpenAI(env, parseFloat).Ok? && LoadChroma(env).Ok? && LoadStreamlit(env).Ok? &&
              LoadChat(env).Err? ==>
              r == Err(LoadChat(env).error)
    ensures r.Ok? <==> LoadFirebase(env).Ok? && LoadOpenAI(env, parseFloat).Ok? && LoadChroma(env).Ok? &&
                       LoadStreamlit(env).Ok? && LoadChat(env).Ok?
    ensures r.Ok? ==> r.value.firebase == LoadFirebase(env).value && r.value.openai == LoadOpenAI(env, parseFloat).value &&
                      r.value.chroma == LoadChroma(env).value && r.value.streamlit == LoadStreamlit(env).value &&
                      r.value.chat == LoadChat(env).value
    ensures r.Ok? ==> r.value.environment == EnvOr(env, "ENV", DEFAULT_ENVIRONMENT)
    ensures r.Ok? ==> r.value.debugMode == (Lower(EnvOr(env, "DEBUG", "false")) == "true")
    ensures r.Ok? ==> r.value.logLevel == EnvOr(env, "LOG_LEVEL", "INFO")
  {
    var firebase := LoadFirebase(env);
    if firebase.Err? { return Err(firebase.error); }
    var openai := LoadOpenAI(env, parseFloat);
    if openai.Err? { return Err(openai.error); }
    var chroma := LoadChroma(env);
    if chroma.Err? { return Err(chroma.error); }
    var streamlit := LoadStreamlit(env);
    if streamlit.Err? { return Err(streamlit.error); }
    var chat := LoadChat(env);
    if chat.Err? { return Err(chat.error); }
    var environment := GetEnvVar(env, "ENV", Some(DEFAULT_ENVIRONMENT), false);
    var debug := GetEnvVar(env, "DEBUG", Some("false"), false);
    var logLevel := GetEnvVar(env, "LOG_LEVEL", Some("INFO"), false);
    return Ok(Settings(firebase.value, openai.value, chroma.value, streamlit.value, chat.value,
                       environment.value, Lower(debug.value) == "true", logLevel.value));
  }

  // ---------------------------------------------------------------------------
  // Accessors
  // ---------------------------------------------------------------------------

  const DEVELOPMENT_NAMES: seq<string> := ["dev", "development", "local", "loc"]
  const PRODUCTION_NAMES: seq<string> := ["prod", "production"]

  /** The environment name used when ENV is not set. */
  const DEFAULT_ENVIRONMENT: string := "production"

  /** is_development: the lower-cased environment name is a development name. */
  function IsDevelopment(environment: string): (b: bool)
    ensures b ==> Lower(environment) !in PRODUCTION_NAMES
  {
    Lower(environment) in DEVELOPMENT_NAMES
  }

  /** is_production: the lower-cased environment name is a production name. */
  function IsProduction(environment: string): (b: bool)
    ensures b ==> Lower(environment) !in DEVELOPMENT_NAMES
  {
    Lower(environment) in PRODUCTION_NAMES
  }

  /** No environment name is classified both ways. */
  lemma EnvironmentsDisjoint(environment: string)
    ensures !(IsDevelopment(environment) && IsProduction(environment))
  {
  }

  /** The classification ignores case: re-lower-casing the name changes neither answer. */
  lemma ClassificationIgnoresCase(environment: string)
    ensures IsDevelopment(Lower(environment)) == IsDevelopment(environment)
    ensures IsProduction(Lower(environment)) == IsProduction(environment)
  {
    LowerIdempotent(environment);
  }

  /** With no ENV variable the application runs as production. */
  lemma DefaultEnvironmentIsProduction(env: map<string, string>)
    requires "ENV" !in env
    ensures IsProduction(EnvOr(env, "ENV", DEFAULT_ENVIRONMENT)) && !IsDevelopment(EnvOr(env, "ENV", DEFAULT_ENVIRONMENT))
  {
    var e := EnvOr(env, "ENV", DEFAULT_ENVIRONMENT);
    assert e == DEFAULT_ENVIRONMENT;
    DefaultEnvironmentIsLowerCase();
    ClassifyLowerCaseName(e);
    assert e == PRODUCTION_NAMES[1];
    assert e !in DEVELOPMENT_NAMES by {
      assert |e| == 10;
      assert forall k :: 0 <= k < |DEVELOPMENT_NAMES| ==> |DEVELOPMENT_NAMES[k]| != 10;
    }
  }

  lemma ClassifyLowerCaseName(e: string)
    requires Lower(e) == e
    ensures IsProduction(e) == (e in PRODUCTION_NAMES) && IsDevelopment(e) == (e in DEVELOPMENT_NAMES)
  {
  }

  lemma DefaultEnvironmentIsLowerCase()
    ensures Lower(DEFAULT_ENVIRONMENT) == DEFAULT_ENVIRONMENT
  {
    var e := DEFAULT_ENVIRONMENT;
    assert forall k :: 0 <= k < |e| ==> !('A' <= e[k] <= 'Z');
    LowerOfLowerCase(e);
  }

  datatype RetrieverConfig = RetrieverConfig(searchType: string, k: int)

  /** get_retriever_config: the search type and `search_kwargs.k`. */
  function GetRetrieverConfig(c: ChromaConfig): (r: RetrieverConfig)
    ensures r.searchType == c.searchType && r.k == c.searchK
    ensures ValidChroma(c) ==> r.k > 0 && r.searchType in SEARCH_TYPES
  {
    RetrieverConfig(c.searchType, c.searchK)
  }

  // ---------------------------------------------------------------------------
  // Firebase credential source (get_firebase_credentials, precedence only)
  // ---------------------------------------------------------------------------

  datatype CredentialSource = FromJson(text: string) | FromFile(path: string)

  /** has_credentials_file: a path is set and the file exists. */
  predicate HasCredentialsFile(c: FirebaseConfig, fileExists: string -> bool) {
    c.credentialsPath.Some? && fileExists(c.credentialsPath.value)
  }

  /** has_credentials_json as written: the JSON text is merely not None. */
  predicate HasCredentialsJsonAsWritten(c: FirebaseConfig) {
    c.credentialsJson.Some?
  }

  /** The source chosen as written: the JSON text whenever it is not None, else an existing file. */
  function CredentialSourceAsWritten(c: FirebaseConfig, fileExists: string -> bool): (r: Result<CredentialSource, ConfigError>)
    ensures c.credentialsJson.Some? ==> r == Ok(FromJson(c.credentialsJson.value))
  {
    if HasCredentialsJsonAsWritten(c) then Ok(FromJson(c.credentialsJson.value))
    else if HasCredentialsFile(c, fileExists) then Ok(FromFile(c.credentialsPath.value))
    else Err(NoCredentials)
  }

  /**
   * The intended choice: the JSON text when it is non-empty, otherwise an existing
   * credentials file, otherwise an error.
   */
  function ChooseCredentialSource(c: FirebaseConfig, fileExists: string -> bool): (r: Result<CredentialSource, ConfigError>)
    ensures Truthy(c.credentialsJson) ==> r == Ok(FromJson(c.credentialsJson.value))
    ensures !Truthy(c.credentialsJson) && HasCredentialsFile(c, fileExists) ==> r == Ok(FromFile(c.credentialsPath.value))
    ensures r.Err? <==> !Truthy(c.credentialsJson) && !HasCredentialsFile(c, fileExists)
    ensures r.Ok? && r.value.FromJson? ==> r.value.text != []
  {
    if Truthy(c.credentialsJson) then Ok(FromJson(c.credentialsJson.value))
    else if HasCredentialsFile(c, fileExists) then Ok(FromFile(c.credentialsPath.value))
    else Err(NoCredentials)
  }

  /**
   * Loading always stores the JSON text as a string, "" when FIREBASE_CREDENTIALS
   * is unset. As written the empty JSON text then wins over an existing
   * FirebaseKey.json, so the file is never used; the intended choice picks the file.
   */
  lemma CredentialFileIgnoredAsWritten(env: map<string, string>, fileExists: string -> bool)
    requires Truthy(GetEnv(env, "FIREBASE_DATABASE_URL", None))
    requires "FIREBASE_CREDENTIALS" !in env && "FIREBASE_CREDENTIALS_PATH" !in env
    requires fileExists("FirebaseKey.json")
    ensures LoadFirebase(env).Ok?
    ensures CredentialSourceAsWritten(LoadFirebase(env).value, fileExists) == Ok(FromJson(""))
    ensures ChooseCredentialSource(LoadFirebase(env).value, fileExists) == Ok(FromFile("FirebaseKey.json"))
  {
  }

  /** The two choices agree whenever the JSON text is absent or non-empty. */
  lemma CredentialSourcesAgree(c: FirebaseConfig, fileExists: string -> bool)
    requires c.credentialsJson != Some("")
    ensures CredentialSourceAsWritten(c, fileExists) == ChooseCredentialSource(c, fileExists)
  {
  }
}
