/**
 * The tool-using tutorial agent (notebooks/langgraph_examples/langgraph_tools.py):
 * the `math_calculator` tool, which tokenizes an expression with a regular
 * expression and folds it strictly left to right, and the chatbot / tools /
 * human graph whose router prefers a request for human assistance over
 * ordinary tool calls. Numbers are exact reals; the model is a parameter.
 */
module LanggraphTools {
  import opened Wrappers
  import opened Text
  import opened Agents

  // ---------------------------------------------------------------------------
  // Tokens: re.findall(r'(\d+(?:\.\d+)?|\+|\-|\*|\/)', expression)
  // ---------------------------------------------------------------------------

  predicate IsOperatorChar(c: char) {
    c == '+' || c == '-' || c == '*' || c == '/'
  }

  /** The length of the run of digits `s` starts with. */
  function DigitRun(s: string): (n: nat)
    ensures n <= |s|
  {
    if s != [] && IsDigit(s[0]) then 1 + DigitRun(s[1..]) else 0
  }

  /** A run of digits is exactly the prefix of digits that is followed by a non-digit or the end. */
  lemma {:induction false} DigitRunIs(s: string, k: nat)
    requires k <= |s| && AllDigits(s[..k]) && (k == |s| || !IsDigit(s[k]))
    ensures DigitRun(s) == k
  {
    if k > 0 {
      assert IsDigit(s[..k][0]);
      assert s[1..][..k - 1] == s[1..k];
      assert forall j :: 0 <= j < k - 1 ==> s[1..k][j] == s[..k][j + 1];
      DigitRunIs(s[1..], k - 1);
    }
  }

  lemma {:induction false} DigitRunDigits(s: string)
    ensures AllDigits(s[..DigitRun(s)])
    ensures DigitRun(s) < |s| ==> !IsDigit(s[DigitRun(s)])
  {
    if s != [] && IsDigit(s[0]) {
      DigitRunDigits(s[1..]);
      assert forall j :: 1 <= j < DigitRun(s) ==> s[..DigitRun(s)][j] == s[1..][..DigitRun(s[1..])][j - 1];
    }
  }

  /** `\d+(?:\.\d+)?`: digits, optionally a dot and more digits. */
  predicate IsNumberToken(t: string) {
    var d := DigitRun(t);
    0 < d && (d == |t| || (t[d] == '.' && d + 1 < |t| && AllDigits(t[d + 1..])))
  }

  predicate IsOperatorToken(t: string) {
    |t| == 1 && IsOperatorChar(t[0])
  }

  /** The length of the number the regular expression matches at the start of `s`. */
  function NumberLength(s: string): (n: nat)
    requires s != [] && IsDigit(s[0])
    ensures 0 < n <= |s|
    ensures IsNumberToken(s[..n])
  {
    var d := DigitRun(s);
    DigitRunDigits(s);
    if d + 1 < |s| && s[d] == '.' && IsDigit(s[d + 1]) then
      var e := DigitRun(s[d + 1..]);
      DigitRunDigits(s[d + 1..]);
      var n := d + 1 + e;
      assert s[..n][..d] == s[..d];
      DigitRunIs(s[..n], d);
      assert s[..n][d + 1..] == s[d + 1..][..e];
      n
    else
      assert s[..d][..d] == s[..d];
      DigitRunIs(s[..d], d);
      d
  }

  /** The matches of the regular expression, left to right; every other character is skipped. */
  function Tokenize(s: string): (tokens: seq<string>)
    ensures forall k :: 0 <= k < |tokens| ==> IsNumberToken(tokens[k]) || IsOperatorToken(tokens[k])
  {
    if s == [] then []
    else if IsDigit(s[0]) then
      var n := NumberLength(s);
      [s[..n]] + Tokenize(s[n..])
    else if IsOperatorChar(s[0]) then [[s[0]]] + Tokenize(s[1..])
    else Tokenize(s[1..])
  }

  /** A number token followed by a blank (or nothing) is matched whole. */
  lemma NumberLengthOfToken(t: string, rest: string)
    requires IsNumberToken(t) && (rest == [] || rest[0] == ' ')
    ensures NumberLength(t + rest) == |t|
  {
    var s := t + rest;
    var d := DigitRun(t);
    DigitRunDigits(t);
    assert s[..d] == t[..d];
    if d == |t| {
      DigitRunIs(s, d);
    } else {
      DigitRunIs(s, d);
      assert s[d + 1..] == t[d + 1..] + rest;
      assert s[d + 1..][..|t| - d - 1] == t[d + 1..];
      DigitRunIs(s[d + 1..], |t| - d - 1);
    }
  }

  lemma TokenizeLeading(t: string, rest: string)
    requires IsNumberToken(t) || IsOperatorToken(t)
    requires rest == [] || rest[0] == ' '
    ensures Tokenize(t + rest) == [t] + Tokenize(rest)
  {
    var s := t + rest;
    if IsNumberToken(t) {
      NumberLengthOfToken(t, rest);
      assert s[..|t|] == t && s[|t|..] == rest;
    } else {
      assert s[0] == t[0] && [s[0]] == t && s[1..] == rest;
    }
  }

  /** Writing tokens out separated by blanks and tokenizing again gives the same tokens. */
  lemma {:induction false} TokenizeJoin(tokens: seq<string>)
    requires forall k :: 0 <= k < |tokens| ==> IsNumberToken(tokens[k]) || IsOperatorToken(tokens[k])
    ensures Tokenize(Join(" ", tokens)) == tokens
  {
    if |tokens| == 1 {
      TokenizeLeading(tokens[0], "");
      assert tokens[0] + "" == tokens[0];
    } else if |tokens| > 1 {
      var t, more := tokens[0], tokens[1..];
      var rest := Join(" ", more);
      assert Join(" ", tokens) == t + (" " + rest);
      TokenizeLeading(t, " " + rest);
      TokenizeSkipsBlank(rest);
      TokenizeJoin(more);
      assert tokens == [t] + more;
    }
  }

  /** A blank is skipped. */
  lemma TokenizeSkipsBlank(rest: string)
    ensures Tokenize(" " + rest) == Tokenize(rest)
  {
    assert (" " + rest)[1..] == rest;
  }

  // ---------------------------------------------------------------------------
  // math_calculator
  // ---------------------------------------------------------------------------

  /** The error strings math_calculator returns. */
  datatype CalcError =
    | FormatError                        // fewer than three tokens
    | DivisionByZero
    | UnsupportedOperator(op: string)    // a number where an operator belongs
    | NumberFormat(token: string)        // float() of an operator: ValueError

  function Power10(n: nat): (p: nat)
    ensures p >= 1
  {
    if n == 0 then 1 else 10 * Power10(n - 1)
  }

  /** `float(t)` for a number token, exactly. */
  function NumberValue(t: string): real
    requires IsNumberToken(t)
  {
    var d := DigitRun(t);
    DigitRunDigits(t);
    if d == |t| then
      assert t[..d] == t;
      DigitsValue(t) as real
    else DigitsValue(t[..d]) as real + DigitsValue(t[d + 1..]) as real / Power10(|t| - d - 1) as real
  }

  /** `float(t)` on a token: a number token parses, an operator raises ValueError. */
  function ParseNumber(t: string): (r: Option<real>)
    ensures r.Some? <==> IsNumberToken(t)
  {
    if IsNumberToken(t) then Some(NumberValue(t)) else None
  }

  /** `*=` and `/=` on the running result, exactly. */
  function Times(a: real, b: real): real {
    a * b
  }

  function Divide(a: real, b: real): real
    requires b != 0.0
  {
    a / b
  }

  /**
   * The loop body's if/elif chain: the operator applied to the running result
   * and the operand, with the zero-divisor and unsupported-operator errors.
   */
  function ApplyOperator(acc: real, op: string, x: real): (r: Result<real, CalcError>)
    ensures r.Err? <==> (op == "/" && x == 0.0) || op !in {"+", "-", "*", "/"}
    ensures r == Err(DivisionByZero) <==> op == "/" && x == 0.0
  {
    if op == "+" then Ok(acc + x)
    else if op == "-" then Ok(acc - x)
    else if op == "*" then Ok(Times(acc, x))
    else if op == "/" then (if x == 0.0 then Err(DivisionByZero) else Ok(Divide(acc, x)))
    else Err(UnsupportedOperator(op))
  }

  /**
   * The loop `for i in range(1, len(parts), 2)` from position `i` with running
   * result `acc`: stops at a trailing operator, parses the operand before it
   * looks at the operator, and returns the first error it meets.
   */
  function Fold(acc: real, parts: seq<string>, i: nat): Result<real, CalcError>
    decreases |parts| - i
  {
    if i + 1 >= |parts| then Ok(acc)
    else match ParseNumber(parts[i + 1])
      case None => Err(NumberFormat(parts[i + 1]))
      case Some(x) =>
        match ApplyOperator(acc, parts[i], x)
        case Err(e) => Err(e)
        case Ok(v) => Fold(v, parts, i + 2)
  }

  /** The result of math_calculator on the token list, before it is formatted. */
  function Evaluate(parts: seq<string>): Result<real, CalcError> {
    if |parts| < 3 then Err(FormatError)
    else match ParseNumber(parts[0])
      case None => Err(NumberFormat(parts[0]))
      case Some(v) => Fold(v, parts, 1)
  }

  /**
   * math_calculator on an expression: fewer than three tokens is the format
   * error, and a well-formed chain gets its left-to-right value.
   */
  function Calculate(expression: string): (r: Result<real, CalcError>)
    ensures |Tokenize(expression)| < 3 ==> r == Err(FormatError)
    ensures IsChain(Tokenize(expression)) && |Tokenize(expression)| >= 3 ==> r == ChainValue(Tokenize(expression))
  {
    var parts := Tokenize(expression);
    if IsChain(parts) && |parts| >= 3 then
      EvaluateIsLeftToRight(parts);
      Evaluate(parts)
    else
      Evaluate(parts)
  }

  /** One turn of the loop: the operand is parsed first, then the operator applied. */
  lemma FoldStep(acc: real, parts: seq<string>, i: nat)
    requires i + 1 < |parts|
    ensures ParseNumber(parts[i + 1]).None? ==> Fold(acc, parts, i) == Err(NumberFormat(parts[i + 1]))
    ensures ParseNumber(parts[i + 1]).Some? ==>
              var step := ApplyOperator(acc, parts[i], ParseNumber(parts[i + 1]).value);
              Fold(acc, parts, i) == if step.Err? then Err(step.error) else Fold(step.value, parts, i + 2)
  {
  }

  /** math_calculator: the loop over operator positions, returning at the first error. */
  method MathCalculator(expression: string) returns (r: Result<real, CalcError>)
    ensures r == Calculate(expression)
  {
    var parts := Tokenize(expression);
    if |parts| < 3 {
      return Err(FormatError);
    }
    var first := ParseNumber(parts[0]);
    if first.None? {
      return Err(NumberFormat(parts[0]));
    }
    var result := first.value;
    var i := 1;
    while i < |parts|
      invariant Fold(result, parts, i) == Evaluate(parts)
      decreases |parts| - i
    {
      if i + 1 >= |parts| {
        break;
      }
      var operator := parts[i];
      var operand := ParseNumber(parts[i + 1]);
      FoldStep(result, parts, i);
      if operand.None? {
        return Err(NumberFormat(parts[i + 1]));
      }
      var next := ApplyOperator(result, operator, operand.value);
      if next.Err? {
        return Err(next.error);
      }
      result := next.value;
      i := i + 2;
    }
    return Ok(result);
  }

  /**
   * The tokenizer only yields numbers and operators, so an unsupported
   * operator is always a number standing where an operator belongs, and a
   * number-format error is always an operator standing where a number belongs.
   */
  lemma {:induction false} FoldErrorKinds(acc: real, parts: seq<string>, i: nat)
    requires forall k :: 0 <= k < |parts| ==> IsNumberToken(parts[k]) || IsOperatorToken(parts[k])
    ensures Fold(acc, parts, i).Err? && Fold(acc, parts, i).error.UnsupportedOperator? ==>
              IsNumberToken(Fold(acc, parts, i).error.op)
    ensures Fold(acc, parts, i).Err? && Fold(acc, parts, i).error.NumberFormat? ==>
              IsOperatorToken(Fold(acc, parts, i).error.token)
    decreases |parts| - i
  {
    if i + 1 < |parts| {
      var x := ParseNumber(parts[i + 1]);
      if x.Some? {
        var step := ApplyOperator(acc, parts[i], x.value);
        if step.Err? {
          if step.error.UnsupportedOperator? {
            assert parts[i] !in {"+", "-", "*", "/"};
            assert !IsOperatorToken(parts[i]);
          }
        } else {
          FoldErrorKinds(step.value, parts, i + 2);
        }
      }
    }
  }

  lemma CalculateErrorKinds(expression: string)
    ensures Calculate(expression).Err? && Calculate(expression).error.UnsupportedOperator? ==>
              IsNumberToken(Calculate(expression).error.op)
    ensures Calculate(expression).Err? && Calculate(expression).error.NumberFormat? ==>
              IsOperatorToken(Calculate(expression).error.token)
  {
    var parts := Tokenize(expression);
    if |parts| >= 3 && ParseNumber(parts[0]).Some? {
      FoldErrorKinds(ParseNumber(parts[0]).value, parts, 1);
    }
  }

  /** A number, then operator/number pairs: what a well-written expression tokenizes to. */
  predicate IsChain(parts: seq<string>) {
    |parts| % 2 == 1 &&
    (forall k :: 0 <= k < |parts| && k % 2 == 0 ==> IsNumberToken(parts[k])) &&
    (forall k :: 0 <= k < |parts| && k % 2 == 1 ==> IsOperatorToken(parts[k]))
  }

  /**
   * The reference reading of a chain with no operator precedence: the last
   * operator applies to the value of everything before it.
   */
  function ChainValue(parts: seq<string>): Result<real, CalcError>
    requires IsChain(parts)
    decreases |parts|
  {
    if |parts| == 1 then Ok(NumberValue(parts[0]))
    else
      var init := parts[..|parts| - 2];
      assert IsChain(init) by {
        assert forall k :: 0 <= k < |init| ==> init[k] == parts[k];
      }
      match ChainValue(init)
      case Err(e) => Err(e)
      case Ok(v) => ApplyOperator(v, parts[|parts| - 2], NumberValue(parts[|parts| - 1]))
  }

  lemma ChainPrefix(parts: seq<string>, i: nat)
    requires IsChain(parts) && i <= |parts| && i % 2 == 1
    ensures IsChain(parts[..i])
  {
    assert forall k :: 0 <= k < i ==> parts[..i][k] == parts[k];
  }

  /** Once a prefix of a chain fails, the whole chain fails with the same error. */
  lemma {:induction false} ChainErrorPersists(parts: seq<string>, i: nat)
    requires IsChain(parts) && 1 <= i <= |parts| && i % 2 == 1
    requires IsChain(parts[..i]) && ChainValue(parts[..i]).Err?
    ensures ChainValue(parts) == ChainValue(parts[..i])
    decreases |parts| - i
  {
    if i < |parts| {
      ChainPrefix(parts, i + 2);
      var longer := parts[..i + 2];
      assert longer[..|longer| - 2] == parts[..i];
      assert ChainValue(longer) == ChainValue(parts[..i]);
      ChainErrorPersists(parts, i + 2);
    } else {
      assert parts[..i] == parts;
    }
  }

  /** Two more tokens of the chain apply the operator to the value so far and the next number. */
  lemma ChainValueStep(acc: real, parts: seq<string>, i: nat)
    requires IsChain(parts) && 1 <= i && i + 2 <= |parts| && i % 2 == 1
    requires IsChain(parts[..i]) && ChainValue(parts[..i]) == Ok(acc)
    ensures ParseNumber(parts[i + 1]) == Some(NumberValue(parts[i + 1]))
    ensures IsChain(parts[..i + 2])
    ensures ChainValue(parts[..i + 2]) == ApplyOperator(acc, parts[i], NumberValue(parts[i + 1]))
  {
    ChainPrefix(parts, i + 2);
    PrefixOfPrefix(parts, i, i + 2);
    assert IsNumberToken(parts[i + 1]);
  }

  lemma PrefixOfPrefix<T>(s: seq<T>, i: nat, j: nat)
    requires i <= j <= |s|
    ensures s[..j][..i] == s[..i]
    ensures forall k :: i <= k < j ==> s[..j][k] == s[k]
  {
  }

  /** The fold from position `i` finishes the chain whose prefix up to `i` is worth `acc`. */
  lemma {:induction false} FoldIsChainValue(acc: real, parts: seq<string>, i: nat)
    requires IsChain(parts) && 1 <= i <= |parts| && i % 2 == 1
    requires IsChain(parts[..i]) && ChainValue(parts[..i]) == Ok(acc)
    ensures Fold(acc, parts, i) == ChainValue(parts)
    decreases |parts| - i
  {
    if i == |parts| {
      assert parts[..i] == parts;
    } else {
      ChainValueStep(acc, parts, i);
      var step := ApplyOperator(acc, parts[i], NumberValue(parts[i + 1]));
      assert Fold(acc, parts, i) == if step.Ok? then Fold(step.value, parts, i + 2) else step;
      if step.Ok? {
        FoldIsChainValue(step.value, parts, i + 2);
      } else {
        ChainErrorPersists(parts, i + 2);
      }
    }
  }

  /** math_calculator evaluates a chain strictly left to right, with no operator precedence. */
  lemma EvaluateIsLeftToRight(parts: seq<string>)
    requires IsChain(parts) && |parts| >= 3
    ensures Evaluate(parts) == ChainValue(parts)
  {
    ChainPrefix(parts, 1);
    assert IsChain(parts[..1]) && parts[..1] == [parts[0]];
    FoldIsChainValue(NumberValue(parts[0]), parts, 1);
  }

  /** "2 + 3 * 4" is 20, not 14. */
  lemma NoPrecedence()
    ensures Evaluate(["2", "+", "3", "*", "4"]) == Ok(20.0)
  {
    var parts := ["2", "+", "3", "*", "4"];
    DigitRunIs("2", 1);
    DigitRunIs("3", 1);
    DigitRunIs("4", 1);
    assert NumberValue("2") == 2.0 && NumberValue("3") == 3.0 && NumberValue("4") == 4.0;
    assert ParseNumber(parts[0]) == Some(2.0);
    assert Fold(20.0, parts, 5) == Ok(20.0);
    assert Fold(5.0, parts, 3) == Ok(20.0);
  }

  /** A trailing operator with no operand after it is ignored. */
  lemma {:induction false} FoldIgnoresTrailingOperator(acc: real, parts: seq<string>, t: string, i: nat)
    requires |parts| % 2 == 1 && i % 2 == 1
    ensures Fold(acc, parts + [t], i) == Fold(acc, parts, i)
    decreases |parts| - i
  {
    if i + 1 < |parts| {
      assert (parts + [t])[i] == parts[i] && (parts + [t])[i + 1] == parts[i + 1];
      var x := ParseNumber(parts[i + 1]);
      if x.Some? && ApplyOperator(acc, parts[i], x.value).Ok? {
        FoldIgnoresTrailingOperator(ApplyOperator(acc, parts[i], x.value).value, parts, t, i + 2);
      }
    }
  }

  lemma TrailingOperatorIgnored(parts: seq<string>, t: string)
    requires |parts| % 2 == 1 && |parts| >= 3
    ensures Evaluate(parts + [t]) == Evaluate(parts)
  {
    assert (parts + [t])[0] == parts[0];
    if ParseNumber(parts[0]).Some? {
      FoldIgnoresTrailingOperator(ParseNumber(parts[0]).value, parts, t, 1);
    }
  }

  /** Dividing by a zero operand stops the evaluation there, whatever follows. */
  lemma {:induction false} FoldStopsAtZeroDivisor(acc: real, parts: seq<string>, i: nat, j: nat)
    requires i % 2 == 1 && j % 2 == 1 && i <= j && j + 1 < |parts|
    requires parts[j] == "/" && ParseNumber(parts[j + 1]) == Some(0.0)
    requires forall k :: i <= k < j && k % 2 == 1 ==> ParseNumber(parts[k + 1]).Some? && parts[k] in {"+", "-", "*"}
    ensures Fold(acc, parts, i) == Err(DivisionByZero)
    decreases j - i
  {
    if i < j {
      var x := ParseNumber(parts[i + 1]).value;
      FoldStopsAtZeroDivisor(ApplyOperator(acc, parts[i], x).value, parts, i + 2, j);
    }
  }

  // ---------------------------------------------------------------------------
  // The chatbot / tools / human graph
  // ---------------------------------------------------------------------------

  /** The name of the RequestAssistance model the LLM can "call". */
  const REQUEST_ASSISTANCE: string := "RequestAssistance"

  /** The fixed answer human_node gives in place of a real person. */
  const DEFAULT_HUMAN_RESPONSE: string := "抱歉，這個問題超出了我的處理能力範圍。建議您聯繫相關專家或查閱專業資料。"

  /** State: the messages and the ask_human flag. */
  datatype ToolsState = ToolsState(messages: seq<Message>, askHuman: bool)

  /** What a node returns: messages to append and the new flag. */
  datatype ToolsUpdate = ToolsUpdate(messages: seq<Message>, askHuman: bool)

  /** human_node's errors: `[-1]` of an empty list, `tool_calls[0]` of an empty list, a message without tool_calls. */
  datatype NodeError = EmptyMessages | NoToolCall | NotAnAiMessage

  function ApplyUpdate(s: ToolsState, u: ToolsUpdate): ToolsState {
    ToolsState(s.messages + u.messages, u.askHuman)
  }

  /** chatbot's flag: the model's first tool call is a RequestAssistance call. */
  function AsksHuman(reply: ModelReply): bool {
    reply.calls != [] && reply.calls[0].name == REQUEST_ASSISTANCE
  }

  /** chatbot: one AI message from the model, and the ask_human flag. */
  function Chatbot(s: ToolsState, llm: seq<Message> -> ModelReply): (u: ToolsUpdate)
    ensures |u.messages| == 1 && u.messages[0].Ai?
    ensures u.askHuman <==> llm(s.messages).calls != [] && llm(s.messages).calls[0].name == REQUEST_ASSISTANCE
  {
    var reply := llm(s.messages);
    ToolsUpdate([Ai(reply.text, reply.calls)], AsksHuman(reply))
  }

  /** create_response: a tool message answering the AI message's first tool call. */
  function CreateResponse(response: string, aiMessage: Message): (r: Result<Message, NodeError>)
    ensures r.Ok? <==> aiMessage.Ai? && aiMessage.toolCalls != []
    ensures r.Ok? ==> r.value == ToolResult(response, aiMessage.toolCalls[0].id)
  {
    if !aiMessage.Ai? then Err(NotAnAiMessage)
    else if aiMessage.toolCalls == [] then Err(NoToolCall)
    else Ok(ToolResult(response, aiMessage.toolCalls[0].id))
  }

  /**
   * human_node: when the last message is not already a tool message, one tool
   * message with the default answer to the first tool call; always clears the
   * flag.
   */
  function HumanNode(s: ToolsState): (r: Result<ToolsUpdate, NodeError>)
    ensures s.messages == [] ==> r == Err(EmptyMessages)
    ensures r.Ok? ==> !r.value.askHuman
    ensures r.Ok? && Last(s.messages).ToolResult? ==> r.value.messages == []
    ensures s.messages != [] && !Last(s.messages).ToolResult? ==>
              (r.Ok? <==> Last(s.messages).Ai? && Last(s.messages).toolCalls != []) &&
              (r.Ok? ==> r.value.messages == [ToolResult(DEFAULT_HUMAN_RESPONSE, Last(s.messages).toolCalls[0].id)])
  {
    if s.messages == [] then Err(EmptyMessages)
    else if Last(s.messages).ToolResult? then Ok(ToolsUpdate([], false))
    else match CreateResponse(DEFAULT_HUMAN_RESPONSE, Last(s.messages))
      case Err(e) => Err(e)
      case Ok(m) => Ok(ToolsUpdate([m], false))
  }

  datatype Route = ToHuman | ToTools | ToEnd

  /**
   * select_next_node: the human first when the flag is set, then the tools
   * when the last (AI) message carries tool calls, else END.
   */
  function SelectNextNode(s: ToolsState): (r: Route)
    requires s.askHuman || (s.messages != [] && Last(s.messages).Ai?)
    ensures r == ToHuman <==> s.askHuman
    ensures r == ToTools <==> !s.askHuman && Last(s.messages).toolCalls != []
  {
    if s.askHuman then ToHuman
    else if Last(s.messages).toolCalls != [] then ToTools
    else ToEnd
  }

  /**
   * Right after the chatbot node, the route depends on the model's reply
   * alone: the human iff its first call requests assistance, the tools iff it
   * made other calls, END iff it made none.
   */
  lemma RouteAfterChatbot(s: ToolsState, llm: seq<Message> -> ModelReply)
    ensures var after := ApplyUpdate(s, Chatbot(s, llm));
            var calls := llm(s.messages).calls;
            SelectNextNode(after) == (if calls != [] && calls[0].name == REQUEST_ASSISTANCE then ToHuman
                                      else if calls != [] then ToTools
                                      else ToEnd)
  {
    var after := ApplyUpdate(s, Chatbot(s, llm));
    assert Last(after.messages) == Chatbot(s, llm).messages[0];
  }

  /**
   * When the chatbot routes to the human, the human node answers the
   * assistance request itself: one tool message for the first call's id, and
   * the flag is cleared.
   */
  lemma HumanAnswersRequest(s: ToolsState, llm: seq<Message> -> ModelReply)
    requires AsksHuman(llm(s.messages))
    ensures var after := ApplyUpdate(s, Chatbot(s, llm));
            HumanNode(after) == Ok(ToolsUpdate([ToolResult(DEFAULT_HUMAN_RESPONSE, llm(s.messages).calls[0].id)], false))
  {
    var after := ApplyUpdate(s, Chatbot(s, llm));
    assert Last(after.messages) == Ai(llm(s.messages).text, llm(s.messages).calls);
  }

  datatype GraphNode = StartNode | ChatbotNode | ToolsNode | HumanNodeStep | EndNode

  /** The edges: START → chatbot; chatbot → by route; tools → chatbot; human → chatbot. */
  function Successor(n: GraphNode, route: Route): (next: GraphNode)
    requires n != EndNode
    ensures n != ChatbotNode ==> next == ChatbotNode
    ensures n == ChatbotNode ==> next != ChatbotNode && next != StartNode
  {
    match n
    case StartNode => ChatbotNode
    case ChatbotNode =>
      (match route
       case ToHuman => HumanNodeStep
       case ToTools => ToolsNode
       case ToEnd => EndNode)
    case ToolsNode => ChatbotNode
    case HumanNodeStep => ChatbotNode
  }

  /** A walk from START where each step follows the edges with the route chosen at that step. */
  predicate IsWalk(p: seq<GraphNode>, routes: seq<Route>) {
    |p| >= 1 && p[0] == StartNode && |routes| >= |p| - 1 &&
    (forall i :: 0 <= i < |p| - 1 ==> p[i] != EndNode && p[i + 1] == Successor(p[i], routes[i]))
  }

  /**
   * The chatbot runs at every other step: every detour through the tools or
   * the human comes straight back to it, and nothing else does.
   */
  lemma {:induction false} ChatbotAlternates(p: seq<GraphNode>, routes: seq<Route>, i: nat)
    requires IsWalk(p, routes) && 1 <= i < |p|
    ensures p[i] == ChatbotNode <==> i % 2 == 1
  {
    if i > 1 {
      ChatbotAlternates(p, routes, i - 1);
    }
  }

  /** END is reached only from the chatbot, on a reply without tool calls and without the flag. */
  lemma EndOnlyAfterChatbot(p: seq<GraphNode>, routes: seq<Route>, i: nat)
    requires IsWalk(p, routes) && 1 <= i < |p| && p[i] == EndNode
    ensures p[i - 1] == ChatbotNode && routes[i - 1] == ToEnd
  {
  }
}
