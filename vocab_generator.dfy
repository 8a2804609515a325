/**
 * The vocabulary generator (notebooks/vocabulary_generator.py): the topic list
 * shown to the model with the current topic marked, the English words taken
 * from the model's reply with duplicate detection against every word seen so
 * far, the file name and file text each topic is saved under, the success
 * and failure counts of a run, and the time estimate. The model and the file
 * writes are parameters.
 */
module VocabularyGenerator {
  import opened Wrappers
  import opened Text
  import ChromaLoader

  const TOPICS: seq<string> := [
    "Daily Life", "Work & Career", "Travel & Transportation", "Food & Dining",
    "Education & Learning", "Technology & Digital", "Health & Medical",
    "Entertainment & Leisure", "Environment & Nature", "Social Relationships"
  ]
  const WORDS_PER_TOPIC: nat := 150
  /** Seconds to wait between two requests. */
  const REQUEST_DELAY: nat := 1

  const CURRENT_MARK: string := "-> "
  const OTHER_MARK: string := "   "
  /** The fixed prompt text around the topic list and the topic (opaque here). */
  const PROMPT_BEFORE: string := "<topics being built:>\n"
  const PROMPT_AFTER: string := "\n<now generating the topic:>"

  /** The header line the saved file opens with, its rule of '=' and the blank line after it. */
  const HEADER_MARK: string := "主題："
  const RULE_WIDTH: nat := 50

  // ---------------------------------------------------------------------------
  // The prompt's topic list
  // ---------------------------------------------------------------------------

  /** One line of the list: the marker, then the topic. */
  function TopicLine(t: string, current: string): string {
    (if t == current then CURRENT_MARK else OTHER_MARK) + t
  }

  function TopicLines(topics: seq<string>, current: string): (lines: seq<string>)
    ensures |lines| == |topics|
  {
    if topics == [] then [] else [TopicLine(topics[0], current)] + TopicLines(topics[1..], current)
  }

  /** Line `k` of the list is topic `k`, marked. */
  lemma {:induction false} TopicLinesAt(topics: seq<string>, current: string, k: nat)
    requires k < |topics|
    ensures TopicLines(topics, current)[k] == TopicLine(topics[k], current)
    decreases k
  {
    if k > 0 {
      TopicLinesAt(topics[1..], current, k - 1);
    }
  }

  /** The newline-joined list of all topics, the current one marked with an arrow. */
  function TopicList(topics: seq<string>, current: string): string {
    if |topics| == 0 then ""
    else if |topics| == 1 then TopicLine(topics[0], current)
    else TopicLine(topics[0], current) + "\n" + TopicList(topics[1..], current)
  }

  /** The list is its lines joined with newlines. */
  lemma {:induction false} TopicListIsJoin(topics: seq<string>, current: string)
    ensures TopicList(topics, current) == Join("\n", TopicLines(topics, current))
    decreases |topics|
  {
    if |topics| > 1 {
      TopicListIsJoin(topics[1..], current);
      var lines := TopicLines(topics, current);
      assert lines[1..] == TopicLines(topics[1..], current);
    }
  }

  /**
   * Read back line by line, the list gives back its lines: one per topic, in
   * order, with the arrow exactly on the current topic's line.
   */
  lemma TopicListLines(topics: seq<string>, current: string)
    requires topics != []
    requires forall k :: 0 <= k < |topics| ==> '\n' !in topics[k]
    ensures Split(TopicList(topics, current), '\n') == TopicLines(topics, current)
  {
    var lines := TopicLines(topics, current);
    forall k | 0 <= k < |lines| ensures '\n' !in lines[k] {
      TopicLinesAt(topics, current, k);
      assert lines[k] == (if topics[k] == current then CURRENT_MARK else OTHER_MARK) + topics[k];
    }
    SplitJoin(lines, '\n');
    TopicListIsJoin(topics, current);
  }

  /** The prompt for a topic: the marked list of all topics and the topic itself. */
  function Prompt(topics: seq<string>, topic: string): string {
    PROMPT_BEFORE + TopicList(topics, topic) + PROMPT_AFTER + topic
  }

  // ---------------------------------------------------------------------------
  // Words in the model's reply
  // ---------------------------------------------------------------------------

  /** `s.split(c, 1)[-1]`: what follows the first `c`, or all of `s` when there is none. */
  function AfterFirst(s: string, c: char): (r: string)
    ensures c !in s ==> r == s
    ensures c in s ==> |r| < |s| && r == s[|s| - |r|..] && s[|s| - |r| - 1] == c && c !in s[..|s| - |r| - 1]
  {
    if c in s then s[FirstIndex(s, c) + 1..] else s
  }

  /** `s.index(c)`: where the first `c` of `s` is. */
  function FirstIndex(s: string, c: char): (p: nat)
    requires c in s
    ensures p < |s| && s[p] == c && c !in s[..p]
  {
    if s[0] == c then 0
    else
      var p := FirstIndex(s[1..], c);
      assert s[..p + 1] == [s[0]] + s[1..][..p];
      p + 1
  }

  /**
   * The English word of a reply line: the text before the first '-', stripped
   * and lower-cased, then without any "N." numbering, stripped again.
   */
  function ExtractWord(line: string): (w: string)
    ensures '-' !in w
  {
    var head := Split(line, '-')[0];
    WordOfDashlessHead(head);
    Strip(AfterFirst(Lower(Strip(head)), '.'))
  }

  /** Stripping, lower-casing and cutting after the first '.' bring in no '-'. */
  lemma WordOfDashlessHead(head: string)
    requires '-' !in head
    ensures '-' !in Strip(AfterFirst(Lower(Strip(head)), '.'))
  {
    StripChars(head);
    LowerKeepsDashOut(Strip(head));
    AfterFirstKeepsOut(Lower(Strip(head)), '.', '-');
    StripChars(AfterFirst(Lower(Strip(head)), '.'));
  }

  lemma LowerKeepsDashOut(s: string)
    requires '-' !in s
    ensures '-' !in Lower(s)
  {
    forall k | 0 <= k < |s| ensures Lower(s)[k] != '-' {
      assert s[k] in s;
    }
  }

  lemma AfterFirstKeepsOut(s: string, c: char, d: char)
    requires d !in s
    ensures d !in AfterFirst(s, c)
  {
    var r := AfterFirst(s, c);
    if c in s {
      assert r == s[|s| - |r|..];
    }
  }

  /**
   * The word is the lower-cased text before the first '-' with surrounding
   * whitespace removed; when that text holds a '.', only what follows its
   * first '.' is kept.
   */
  lemma ExtractWordIs(line: string)
    ensures var head := Split(line, '-')[0];
            head == line[..|head|] && '-' !in head && (|head| < |line| ==> line[|head|] == '-')
    ensures var head := Split(line, '-')[0];
            '.' !in head ==> ExtractWord(line) == Strip(Lower(head))
    ensures var head := Split(line, '-')[0];
            forall d :: 0 <= d < |head| && head[d] == '.' && '.' !in head[..d] ==>
              ExtractWord(line) == Strip(Lower(head[d + 1..]))
  {
    var head := Split(line, '-')[0];
    if '.' !in head {
      WordWithoutDot(line, head);
    }
    forall d | 0 <= d < |head| && head[d] == '.' && '.' !in head[..d]
      ensures ExtractWord(line) == Strip(Lower(head[d + 1..]))
    {
      WordAfterDot(line, head, d);
    }
  }

  lemma WordWithoutDot(line: string, head: string)
    requires head == Split(line, '-')[0] && '.' !in head
    ensures ExtractWord(line) == Strip(Lower(head))
  {
    var l := Lower(head);
    StripLower(head);
    assert '.' !in l by {
      forall k | 0 <= k < |l| ensures l[k] != '.' {
        assert l[k] == LowerChar(head[k]);
      }
    }
    StripChars(l);
    StripIdempotent(l);
  }

  lemma WordAfterDot(line: string, head: string, d: nat)
    requires head == Split(line, '-')[0]
    requires d < |head| && head[d] == '.' && '.' !in head[..d]
    ensures ExtractWord(line) == Strip(Lower(head[d + 1..]))
  {
    var l := Lower(head);
    ExtractWordOfHead(line, head);
    StripLower(head);
    LowerKeepsFirstDot(head, d);
    AfterFirstOfStripped(l, d);
    LowerSuffix(head, d + 1);
  }

  lemma ExtractWordOfHead(line: string, head: string)
    requires head == Split(line, '-')[0]
    ensures ExtractWord(line) == Strip(AfterFirst(Lower(Strip(head)), '.'))
  {
  }

  lemma {:induction false} LowerSuffix(s: string, i: nat)
    requires i <= |s|
    ensures Lower(s[i..]) == Lower(s)[i..]
  {
    var a, b := Lower(s[i..]), Lower(s)[i..];
    assert |a| == |b|;
    forall k | 0 <= k < |a| ensures a[k] == b[k] {
      assert s[i..][k] == s[i + k];
    }
  }

  /** Lower-casing keeps the first '.' where it was. */
  lemma LowerKeepsFirstDot(head: string, d: nat)
    requires d < |head| && head[d] == '.' && '.' !in head[..d]
    ensures Lower(head)[d] == '.' && '.' !in Lower(head)[..d]
  {
    var l := Lower(head);
    forall k | 0 <= k < d ensures l[..d][k] != '.' {
      assert l[k] == LowerChar(head[k]) && head[k] == head[..d][k];
    }
  }

  /** Cutting at the first '.' after stripping, then stripping, is stripping what follows that '.'. */
  lemma AfterFirstOfStripped(x: string, d: nat)
    requires d < |x| && x[d] == '.' && '.' !in x[..d]
    ensures Strip(AfterFirst(Strip(x), '.')) == Strip(x[d + 1..])
  {
    var r := Strip(x);
    StripIsSlice(x);
    var i: nat :| StrippedAt(x, r, i);
    var a, tail := StrippedCut(x, r, i, d);
    StripAppendSpace(a, tail);
  }

  /** Within the stripped slice, the first '.' splits off the rest of the slice; only whitespace follows it. */
  lemma {:induction false} StrippedCut(x: string, r: string, i: nat, d: nat) returns (a: string, tail: string)
    requires StrippedAt(x, r, i)
    requires d < |x| && x[d] == '.' && '.' !in x[..d]
    ensures AfterFirst(r, '.') == a && x[d + 1..] == a + tail && AllSpace(tail)
  {
    InsideStrippedSlice(x, r, i, d);
    var e := i + |r|;
    tail := x[e..];
    a := x[d + 1..e];
    AfterFirstInSlice(x, r, i, d);
    SliceAt(x, d + 1, e);
  }

  lemma SliceAt(x: string, p: nat, e: nat)
    requires p <= e <= |x|
    ensures x[p..] == x[p..e] + x[e..]
  {
  }

  /** In a slice `r` that holds the first '.' of `x`, the text after the first '.' runs from that '.' on. */
  lemma {:induction false} AfterFirstInSlice(x: string, r: string, i: nat, d: nat)
    requires i <= d < i + |r| <= |x| && r == x[i..i + |r|] && x[d] == '.' && '.' !in x[..d]
    ensures AfterFirst(r, '.') == x[d + 1..i + |r|]
  {
    var e := d - i;
    assert r[e] == x[d];
    assert '.' !in r[..e] by {
      forall k | 0 <= k < e ensures r[..e][k] != '.' {
        assert r[..e][k] == x[..d][i + k];
      }
    }
    AfterFirstAt(r, e);
    assert r[e + 1..] == x[d + 1..i + |r|];
  }

  /** A character that is not whitespace lies inside the stripped slice. */
  lemma {:induction false} InsideStrippedSlice(x: string, r: string, i: nat, d: nat)
    requires StrippedAt(x, r, i) && d < |x| && !IsSpace(x[d])
    ensures i <= d < i + |r|
  {
    assert forall k :: 0 <= k < i ==> IsSpace(x[k]) by {
      forall k | 0 <= k < i ensures IsSpace(x[k]) {
        assert x[..i][k] == x[k];
      }
    }
    assert forall k :: i + |r| <= k < |x| ==> IsSpace(x[k]) by {
      forall k | i + |r| <= k < |x| ensures IsSpace(x[k]) {
        assert x[i + |r|..][k - i - |r|] == x[k];
      }
    }
  }

  /** Splitting at the first `c`, found at `e`, keeps what follows position `e`. */
  lemma AfterFirstAt(r: string, e: nat)
    requires e < |r| && r[e] == '.' && '.' !in r[..e]
    ensures AfterFirst(r, '.') == r[e + 1..]
  {
    assert '.' in r;
    var a := AfterFirst(r, '.');
    var p := |r| - |a| - 1;
    assert forall k :: 0 <= k < p ==> r[k] != '.' by {
      forall k | 0 <= k < p ensures r[k] != '.' {
        assert r[..p][k] == r[k];
      }
    }
    assert forall k :: 0 <= k < e ==> r[k] != '.' by {
      forall k | 0 <= k < e ensures r[k] != '.' {
        assert r[..e][k] == r[k];
      }
    }
    assert p == e;
  }

  predicate NoUpperCase(s: string) {
    forall k :: 0 <= k < |s| ==> !('A' <= s[k] <= 'Z')
  }

  lemma LowerHasNoUpperCase(s: string)
    ensures NoUpperCase(Lower(s))
  {
  }

  lemma AfterFirstKeepsNoUpperCase(s: string, c: char)
    requires NoUpperCase(s)
    ensures NoUpperCase(AfterFirst(s, c))
  {
    var r := AfterFirst(s, c);
    if c in s {
      assert r == s[|s| - |r|..];
    }
  }

  lemma StripKeepsNoUpperCase(s: string)
    requires NoUpperCase(s)
    ensures NoUpperCase(Strip(s))
  {
    StripChars(s);
  }

  /** Extracted words are lower-case and carry no surrounding whitespace, so comparisons ignore case. */
  lemma ExtractWordIsLowerCase(line: string)
    ensures NoUpperCase(ExtractWord(line))
    ensures ExtractWord(line) == [] || (!IsSpace(ExtractWord(line)[0]) && !IsSpace(ExtractWord(line)[|ExtractWord(line)| - 1]))
  {
    var stripped := Strip(Split(line, '-')[0]);
    var english := Lower(stripped);
    var numbered := AfterFirst(english, '.');
    assert ExtractWord(line) == Strip(numbered);
    LowerHasNoUpperCase(stripped);
    AfterFirstKeepsNoUpperCase(english, '.');
    StripKeepsNoUpperCase(numbered);
  }

  /** The words of the reply lines that hold a '-', in reply order. */
  function WordsOf(lines: seq<string>): (words: seq<string>)
    ensures |words| <= |lines|
    ensures forall k :: 0 <= k < |words| ==> '-' !in words[k]
  {
    if lines == [] then []
    else
      var last := lines[|lines| - 1];
      WordsOf(lines[..|lines| - 1]) + (if '-' in last then [ExtractWord(last)] else [])
  }

  /** Every extracted word comes from a line holding a '-', and every such line gives one. */
  lemma {:induction false} WordsOfLines(lines: seq<string>)
    ensures forall w :: w in WordsOf(lines) ==> exists line :: line in lines && '-' in line && w == ExtractWord(line)
    ensures forall line :: line in lines && '-' in line ==> ExtractWord(line) in WordsOf(lines)
    decreases |lines|
  {
    if lines != [] {
      var init := lines[..|lines| - 1];
      assert lines == init + [lines[|lines| - 1]];
      WordsOfLines(init);
    }
  }

  /** The extraction loop of generate_vocabulary over the reply. */
  method ExtractNewWords(content: string) returns (words: seq<string>)
    ensures words == WordsOf(Split(content, '\n'))
    ensures forall k :: 0 <= k < |words| ==> '-' !in words[k]
  {
    var lines := Split(content, '\n');
    words := [];
    var i := 0;
    while i < |lines|
      invariant 0 <= i <= |lines|
      invariant words == WordsOf(lines[..i])
    {
      WordsOfSnoc(lines, i);
      if '-' in lines[i] {
        words := words + [ExtractWord(lines[i])];
      }
      i := i + 1;
    }
    assert lines[..i] == lines;
  }

  /** One more line adds its word, if it has one, at the end. */
  lemma WordsOfSnoc(lines: seq<string>, i: nat)
    requires i < |lines|
    ensures WordsOf(lines[..i + 1]) == WordsOf(lines[..i]) + (if '-' in lines[i] then [ExtractWord(lines[i])] else [])
  {
    assert lines[..i + 1][..i] == lines[..i];
  }

  function WordSet(words: seq<string>): set<string> {
    set w | w in words
  }

  /** The distinct words of a reply; none when the model call failed. */
  function ReplyWords(reply: Option<string>): set<string> {
    if reply.Some? then WordSet(WordsOf(Split(reply.value, '\n'))) else {}
  }

  // ---------------------------------------------------------------------------
  // Saved files
  // ---------------------------------------------------------------------------

  /** save_to_file's name: lower-cased, " & " and then every space turned into '_', plus ".txt". */
  function SavedFileName(topic: string): (name: string)
    ensures |name| >= 4 && name[|name| - 4..] == ".txt"
  {
    Replace(Replace(Lower(topic), " & ", "_"), " ", "_") + ".txt"
  }

  function Rule(n: nat): (r: string)
    ensures |r| == n && forall k :: 0 <= k < n ==> r[k] == '='
  {
    if n == 0 then "" else Rule(n - 1) + "="
  }

  /** save_to_file's text: the topic header, a rule of fifty '=', a blank line, the reply. */
  function SavedFileContent(topic: string, content: string): (text: string)
    ensures |text| == |HEADER_MARK| + |topic| + 1 + RULE_WIDTH + 2 + |content|
    ensures text[..|HEADER_MARK|] == HEADER_MARK
    ensures text[|text| - |content|..] == content
    ensures text[|HEADER_MARK|..|HEADER_MARK| + |topic|] == topic && text[|HEADER_MARK| + |topic|] == '\n'
    ensures forall k :: |HEADER_MARK| + |topic| < k <= |HEADER_MARK| + |topic| + RULE_WIDTH ==> text[k] == '='
    ensures text[|HEADER_MARK| + |topic| + 1 + RULE_WIDTH..|HEADER_MARK| + |topic| + 3 + RULE_WIDTH] == "\n\n"
  {
    HEADER_MARK + topic + "\n" + Rule(RULE_WIDTH) + "\n\n" + content
  }

  /**
   * Read back line by line, a saved file gives the header line with the topic,
   * the rule, the blank line, then the reply's own lines.
   */
  lemma SavedFileLines(topic: string, content: string)
    requires '\n' !in topic
    ensures Split(SavedFileContent(topic, content), '\n') == [HEADER_MARK + topic, Rule(RULE_WIDTH), ""] + Split(content, '\n')
  {
    var header := HEADER_MARK + topic;
    var rule := Rule(RULE_WIDTH);
    assert '\n' !in header;
    assert '\n' !in rule;
    SplitHeaderLines(header, rule, content);
  }

  /** Two newline-free lines, then an empty line, then the rest, split back into those lines. */
  lemma {:induction false} SplitHeaderLines(header: string, rule: string, content: string)
    requires '\n' !in header && '\n' !in rule
    ensures Split(header + "\n" + rule + "\n\n" + content, '\n') == [header, rule, ""] + Split(content, '\n')
  {
    HeaderLinesShape(header, rule, content);
    SplitThreeFields(header, rule, content, '\n');
  }

  lemma HeaderLinesShape(header: string, rule: string, content: string)
    ensures header + "\n" + rule + "\n\n" + content == header + ['\n'] + (rule + ['\n'] + ([] + ['\n'] + content))
  {
    var lhs := header + "\n" + rule + "\n\n" + content;
    var rhs := header + ['\n'] + (rule + ['\n'] + ([] + ['\n'] + content));
    assert |lhs| == |rhs|;
    forall k | 0 <= k < |lhs| ensures lhs[k] == rhs[k] {
    }
  }

  /** Two fields and an empty one, each ended by `c`, split off the front of the text. */
  lemma SplitThreeFields(a: string, b: string, rest: string, c: char)
    requires c !in a && c !in b
    ensures Split(a + [c] + (b + [c] + ([] + [c] + rest)), c) == [a, b, []] + Split(rest, c)
  {
    var tail := Split(rest, c);
    calc {
      Split(a + [c] + (b + [c] + ([] + [c] + rest)), c);
      { SplitAfterField(a, b + [c] + ([] + [c] + rest), c); }
      [a] + Split(b + [c] + ([] + [c] + rest), c);
      { SplitAfterField(b, [] + [c] + rest, c); }
      [a] + ([b] + Split([] + [c] + rest, c));
      { SplitAfterField([], rest, c); }
      [a] + ([b] + ([[]] + tail));
      { assert [a] + ([b] + ([[]] + tail)) == [a, b, []] + tail; }
      [a, b, []] + tail;
    }
  }

  /** A topic "A & B" is saved as "a_b.txt" (so "Work & Career" as "work_career.txt") when neither part holds a space and A holds no '_'. */
  lemma AmpersandTopicFileName(a: string, b: string)
    requires ' ' !in a && ' ' !in b && '_' !in a
    ensures SavedFileName(a + " & " + b) == Lower(a) + "_" + Lower(b) + ".txt"
  {
    var la, lb := Lower(a), Lower(b);
    assert Lower(" & ") == " & ";
    LowerAround(a, " & ", b);
    LowerPreservesAbsence(a, ' ');
    LowerPreservesAbsence(b, ' ');
    ReplaceBetween(la, " & ", "_", lb);
    assert ' ' !in la + "_" + lb;
    ReplaceMissingFirst(la + "_" + lb, " ", "_");
  }

  /** A character other than a lower-case letter comes from itself alone under lower-casing. */
  lemma LowerPreservesAbsence(s: string, c: char)
    requires !('a' <= c <= 'z') && c !in s
    ensures c !in Lower(s)
  {
  }

  /** Lower-casing makes " & " only where the text already had it. */
  lemma {:induction false} LowerAmpersandWindow(t: string, i: nat)
    requires i + 3 <= |t|
    ensures Lower(t)[i..i + 3] == " & " ==> t[i..i + 3] == " & "
  {
    var l := Lower(t);
    if l[i..i + 3] == " & " {
      var w := t[i..i + 3];
      assert l[i] == ' ' && l[i + 1] == '&' && l[i + 2] == ' ';
      assert t[i] == ' ' && t[i + 1] == '&' && t[i + 2] == ' ';
      assert w[0] == t[i] && w[1] == t[i + 1] && w[2] == t[i + 2];
    }
  }

  lemma {:induction false} LowerKeepsAmpersandOut(t: string)
    requires !Contains(t, " & ")
    ensures !Contains(Lower(t), " & ")
  {
    var l := Lower(t);
    forall i: nat ensures !OccursAt(l, " & ", i) {
      if i + 3 <= |l| {
        LowerAmpersandWindow(t, i);
        assert !OccursAt(t, " & ", i);
      }
    }
  }

  /** Turning spaces into '_' and back gives the text back when it had no '_' of its own. */
  lemma SpacesRoundTrip(l: string)
    requires '_' !in l
    ensures |Replace(l, " ", "_")| == |l|
    ensures Replace(Replace(l, " ", "_"), "_", " ") == l
  {
    var b := Replace(l, " ", "_");
    ReplaceChar(l, ' ', '_');
    ReplaceChar(b, '_', ' ');
    var c := Replace(b, "_", " ");
    forall k | 0 <= k < |l| ensures c[k] == l[k] {
      assert l[k] != '_';
    }
  }

  /**
   * The loader reads the generator's file name back as the title-cased topic
   * when the topic has no " & " and no '_': spaces become '_' and come back.
   */
  lemma FileNameTopicRoundTrip(t: string)
    requires t != [] && '_' !in t && !Contains(t, " & ")
    ensures ChromaLoader.TopicFromFilename(SavedFileName(t)) == Title(t)
  {
    var l := Lower(t);
    LowerKeepsAmpersandOut(t);
    ReplaceAbsent(l, " & ", "_");
    LowerPreservesAbsence(t, '_');
    SpacesRoundTrip(l);
    var b := Replace(l, " ", "_");
    assert SavedFileName(t) == b + ".txt";
    ChromaLoader.StemOfTxtName(b);
    TitleOfLower(t);
  }

  /**
   * A topic "A & B" does not come back: the loader reads its file as the title of
   * "A B", two characters shorter and without the ampersand.
   */
  lemma AmpersandTopicLosesAmpersand(a: string, b: string)
    requires ' ' !in a && ' ' !in b && '_' !in a && '_' !in b
    ensures ChromaLoader.TopicFromFilename(SavedFileName(a + " & " + b)) == Title(a + " " + b)
    ensures ChromaLoader.TopicFromFilename(SavedFileName(a + " & " + b)) != Title(a + " & " + b)
  {
    AmpersandTopicFileName(a, b);
    var la, lb := Lower(a), Lower(b);
    LowerPreservesAbsence(a, '_');
    LowerPreservesAbsence(b, '_');
    ChromaLoader.StemOfTxtName(la + "_" + lb);
    ReplaceBetween(la, "_", " ", lb);
    assert Lower(" ") == " ";
    LowerAround(a, " ", b);
    TitleOfLower(a + " " + b);
    assert |Title(a + " " + b)| != |Title(a + " & " + b)|;
  }

  /** Every saved file carries the header the loader looks for. */
  lemma SavedFileHasTopicHeader(topic: string, content: string)
    ensures ChromaLoader.HasTopicHeader(SavedFileContent(topic, content))
  {
    assert ChromaLoader.CHINESE_TOPIC_MARK == HEADER_MARK;
    assert OccursAt(SavedFileContent(topic, content), HEADER_MARK, 0);
  }

  // ---------------------------------------------------------------------------
  // Timing
  // ---------------------------------------------------------------------------

  datatype Duration = Duration(minutes: nat, seconds: nat)

  /** estimate_time: the total wait split into whole minutes and the remaining seconds. */
  function EstimateTime(topicCount: nat, delay: nat): (d: Duration)
    ensures d.minutes * 60 + d.seconds == topicCount * delay
    ensures d.seconds < 60
  {
    var total := topicCount * delay;
    Duration(total / 60, total % 60)
  }

  // ---------------------------------------------------------------------------
  // A run over all topics
  // ---------------------------------------------------------------------------

  /** A topic counts as done when its reply is non-empty text and its file was written. */
  predicate Succeeds(topic: string, reply: Option<string>, save: (string, string) -> bool) {
    reply.Some? && reply.value != "" && save(topic, reply.value)
  }

  /** How many topics of `run` succeed, `ask` giving each topic's reply. */
  function SuccessCount(run: seq<string>, ask: string -> Option<string>, save: (string, string) -> bool): (n: nat)
    ensures n <= |run|
  {
    if run == [] then 0
    else SuccessCount(run[..|run| - 1], ask, save) + (if Succeeds(run[|run| - 1], ask(run[|run| - 1]), save) then 1 else 0)
  }

  /** The words of every reply to the topics of `run`. */
  function RepliedWords(run: seq<string>, ask: string -> Option<string>): set<string> {
    if run == [] then {}
    else RepliedWords(run[..|run| - 1], ask) + ReplyWords(ask(run[|run| - 1]))
  }

  /** The topic at index `i` adds one to the count exactly when it succeeds. */
  lemma RunStepSuccess(topics: seq<string>, i: nat, ask: string -> Option<string>, save: (string, string) -> bool)
    requires i < |topics|
    ensures SuccessCount(topics[..i + 1], ask, save) ==
              SuccessCount(topics[..i], ask, save) + (if Succeeds(topics[i], ask(topics[i]), save) then 1 else 0)
  {
    var run := topics[..i + 1];
    assert run[..|run| - 1] == topics[..i];
    assert run[|run| - 1] == topics[i];
  }

  /** The topic at index `i` adds the words of its reply. */
  lemma RunStepWords(topics: seq<string>, i: nat, ask: string -> Option<string>)
    requires i < |topics|
    ensures RepliedWords(topics[..i + 1], ask) == RepliedWords(topics[..i], ask) + ReplyWords(ask(topics[i]))
  {
    var run := topics[..i + 1];
    assert run[..|run| - 1] == topics[..i];
    assert run[|run| - 1] == topics[i];
  }

  /** A run where every topic succeeds counts every topic. */
  lemma {:induction false} AllSucceed(run: seq<string>, ask: string -> Option<string>, save: (string, string) -> bool)
    requires forall k :: 0 <= k < |run| ==> Succeeds(run[k], ask(run[k]), save)
    ensures SuccessCount(run, ask, save) == |run|
  {
    if run != [] {
      AllSucceed(run[..|run| - 1], ask, save);
    }
  }

  /** A run where no reply has text counts nothing and adds no words. */
  lemma {:induction false} NoReplies(run: seq<string>, ask: string -> Option<string>, save: (string, string) -> bool)
    requires forall k :: 0 <= k < |run| ==> ask(run[k]).None?
    ensures SuccessCount(run, ask, save) == 0
    ensures RepliedWords(run, ask) == {}
  {
    if run != [] {
      NoReplies(run[..|run| - 1], ask, save);
    }
  }

  lemma UnionAssoc(a: set<string>, b: set<string>, c: set<string>)
    ensures a + b + c == a + (b + c)
  {
  }

  /** Adding `added` to `seen` grows it by the added words not already seen. */
  lemma {:induction false} UnionSize(seen: set<string>, added: set<string>)
    ensures |seen + added| == |seen| + |added| - |added * seen|
    decreases |added|
  {
    if added != {} {
      var w :| w in added;
      var rest := added - {w};
      UnionSize(seen, rest);
      if w in seen {
        assert seen + added == seen + rest;
        assert added * seen == rest * seen + {w};
      } else {
        assert seen + added == (seen + rest) + {w};
        assert added * seen == rest * seen;
      }
    }
  }

  /** The generator's state: the topics it works through and every word generated so far. */
  class Generator {
    const topics: seq<string>
    var generatedWords: set<string>

    constructor()
      ensures topics == TOPICS && generatedWords == {}
    {
      topics := TOPICS;
      generatedWords := {};
    }

    /**
     * generate_vocabulary: ask the model (None when the call fails), report the
     * new words already seen, and add the new words to the generated set.
     */
    method GenerateVocabulary(topic: string, model: string -> Option<string>)
      returns (content: Option<string>, duplicates: set<string>)
      modifies this
      ensures content == model(Prompt(topics, topic))
      ensures duplicates == ReplyWords(content) * old(generatedWords)
      ensures generatedWords == old(generatedWords) + ReplyWords(content)
      ensures |generatedWords| == |old(generatedWords)| + |ReplyWords(content)| - |duplicates|
    {
      var reply := model(Prompt(topics, topic));
      if reply.None? {
        return None, {};
      }
      var newWords := ExtractNewWords(reply.value);
      var replyWords := set w | w in newWords;
      duplicates := replyWords * generatedWords;
      UnionSize(generatedWords, replyWords);
      generatedWords := generatedWords + replyWords;
      content := reply;
    }

    /**
     * main: every topic in order, counting a topic as successful when its
     * reply was non-empty and its file was written, and as failed otherwise.
     */
    method RunGeneration(model: string -> Option<string>, save: (string, string) -> bool)
      returns (successful: nat, failed: nat)
      modifies this
      ensures successful + failed == |topics|
      ensures successful == SuccessCount(topics, t => model(Prompt(topics, t)), save)
      ensures generatedWords == old(generatedWords) + RepliedWords(topics, t => model(Prompt(topics, t)))
    {
      var ask := t => model(Prompt(topics, t));
      successful, failed := 0, 0;
      var i := 0;
      while i < |topics|
        invariant 0 <= i <= |topics|
        invariant successful + failed == i
        invariant successful == SuccessCount(topics[..i], ask, save)
        invariant generatedWords == old(generatedWords) + RepliedWords(topics[..i], ask)
      {
        var topic := topics[i];
        ghost var replied := RepliedWords(topics[..i], ask);
        RunStepSuccess(topics, i, ask, save);
        RunStepWords(topics, i, ask);
        var content, _ := GenerateVocabulary(topic, model);
        assert content == ask(topic);
        UnionAssoc(old(generatedWords), replied, ReplyWords(content));
        if content.Some? && content.value != "" {
          if save(topic, content.value) {
            successful := successful + 1;
          } else {
            failed := failed + 1;
          }
        } else {
          failed := failed + 1;
        }
        i := i + 1;
      }
      assert topics[..i] == topics;
    }
  }
}
