/**
 * The vocabulary loader (notebooks/vocabulary_write_to_chroma.py): which files
 * of the vocabulary directory become documents, the topic a file name stands
 * for, the metadata computed from a file's text, and the per-topic statistics
 * over the loaded documents. The directory listing and the file contents are
 * given as values; embedding and the vector store are not part of this model.
 */
module ChromaLoader {
  import opened Wrappers
  import opened Text
  import opened Agents

  const SUPPORTED_EXTENSIONS: seq<string> := [".txt"]

  const TOPIC_KEY: string := "topic"
  const CONTENT_TYPE_KEY: string := "content_type"
  const LANGUAGE_KEY: string := "language"
  const VOCAB_COUNT_KEY: string := "estimated_vocab_count"
  const TOTAL_LINES_KEY: string := "total_lines"
  const TOPIC_HEADER_KEY: string := "has_topic_header"

  const UNKNOWN_TOPIC: string := "Unknown"
  /** The topic header the generator writes, and its English form. */
  const CHINESE_TOPIC_MARK: string := "主題："
  const ENGLISH_TOPIC_MARK: string := "Topic:"

  // ---------------------------------------------------------------------------
  // File names
  // ---------------------------------------------------------------------------

  /** Index of the last '.' in `name`, or -1 when there is none. */
  function LastDot(name: string): (i: int)
    ensures -1 <= i < |name|
    ensures i >= 0 ==> name[i] == '.'
    ensures forall k :: i < k < |name| ==> name[k] != '.'
  {
    if name == [] then -1
    else if name[|name| - 1] == '.' then |name| - 1
    else LastDot(name[..|name| - 1])
  }

  /**
   * `Path(name).suffix`: from the last dot on, unless that dot opens or ends
   * the name, in which case there is no suffix.
   */
  function Suffix(name: string): (s: string)
    ensures s == [] || (s[0] == '.' && |s| >= 2 && forall k :: 0 < k < |s| ==> s[k] != '.')
  {
    var i := LastDot(name);
    if 0 < i < |name| - 1 then name[i..] else ""
  }

  /** `Path(name).stem`: the name without its suffix. */
  function Stem(name: string): (s: string)
    ensures s + Suffix(name) == name
  {
    var i := LastDot(name);
    if 0 < i < |name| - 1 then name[..i] else name
  }

  /** A non-empty base name with ".txt" appended has that base as stem and ".txt" as suffix. */
  lemma StemOfTxtName(base: string)
    requires base != []
    ensures Stem(base + ".txt") == base
    ensures Suffix(base + ".txt") == ".txt"
  {
    var name := base + ".txt";
    var i := LastDot(name);
    assert name[|base|] == '.';
    assert name[|base| + 1..] == "txt";
    assert i == |base|;
  }

  /**
   * extract_topic_from_filename: the stem, with every underscore turned into a
   * space, title-cased.
   */
  function TopicFromFilename(filename: string): (topic: string)
    ensures |topic| == |Stem(filename)|
    ensures '_' !in topic
    ensures forall k :: 0 <= k < |topic| ==> (topic[k] == ' ' <==> Stem(filename)[k] in "_ ")
    ensures forall k :: 0 <= k < |topic| && Stem(filename)[k] != '_' ==>
              topic[k] == (if k > 0 && IsCased(Stem(filename)[k - 1]) then LowerChar(Stem(filename)[k])
                           else UpperChar(Stem(filename)[k]))
  {
    var stem := Stem(filename);
    var spaced := Replace(stem, "_", " ");
    ReplaceChar(stem, '_', ' ');
    var topic := Title(spaced);
    topic
  }

  // ---------------------------------------------------------------------------
  // Metadata
  // ---------------------------------------------------------------------------

  /** The lines that are not blank, stripped: the comprehension over `content.split('\n')`. */
  function NonBlankLines(lines: seq<string>): (r: seq<string>)
    ensures |r| <= |lines|
    ensures forall k :: 0 <= k < |r| ==> r[k] != [] && !IsSpace(r[k][0]) && !IsSpace(r[k][|r[k]| - 1])
  {
    if lines == [] then []
    else (if Strip(lines[0]) != [] then [Strip(lines[0])] else []) + NonBlankLines(lines[1..])
  }

  /**
   * Exactly the non-blank lines are kept, stripped: every line that is not blank
   * once stripped is there, and everything there is a stripped line.
   */
  lemma {:induction false} NonBlankLinesKept(lines: seq<string>)
    ensures forall k :: 0 <= k < |lines| && Strip(lines[k]) != [] ==> Strip(lines[k]) in NonBlankLines(lines)
    ensures forall x :: x in NonBlankLines(lines) ==> exists k :: 0 <= k < |lines| && x == Strip(lines[k])
  {
    if lines != [] {
      var rest := NonBlankLines(lines[1..]);
      NonBlankLinesKept(lines[1..]);
      assert NonBlankLines(lines) == (if Strip(lines[0]) != [] then [Strip(lines[0])] else []) + rest;
      forall k | 0 < k < |lines| ensures lines[k] == lines[1..][k - 1] { }
      forall x | x in rest ensures exists k :: 0 <= k < |lines| && x == Strip(lines[k]) {
        var j :| 0 <= j < |lines[1..]| && x == Strip(lines[1..][j]);
        assert x == Strip(lines[j + 1]);
      }
    }
  }

  /** The first line's contribution comes before the rest's. */
  lemma NonBlankLinesCons(x: string, rest: seq<string>)
    ensures NonBlankLines([x] + rest) == (if Strip(x) != [] then [Strip(x)] else []) + NonBlankLines(rest)
  {
    assert ([x] + rest)[1..] == rest;
  }

  /** The kept lines of two pieces of text, one after the other, in order. */
  lemma {:induction false} NonBlankLinesAppend(a: seq<string>, b: seq<string>)
    ensures NonBlankLines(a + b) == NonBlankLines(a) + NonBlankLines(b)
  {
    if a == [] {
      assert a + b == b;
    } else {
      var x, rest := a[0], a[1..];
      var h := if Strip(x) != [] then [Strip(x)] else [];
      assert a == [x] + rest;
      assert a + b == [x] + (rest + b);
      NonBlankLinesCons(x, rest + b);
      NonBlankLinesCons(x, rest);
      NonBlankLinesAppend(rest, b);
      calc {
        NonBlankLines(a + b);
        h + NonBlankLines(rest + b);
        h + (NonBlankLines(rest) + NonBlankLines(b));
        { AppendAssoc(h, NonBlankLines(rest), NonBlankLines(b)); }
        (h + NonBlankLines(rest)) + NonBlankLines(b);
        NonBlankLines(a) + NonBlankLines(b);
      }
    }
  }

  /** The lines holding a '-', taken as the lines that carry a translation. */
  function DashLines(lines: seq<string>): (r: seq<string>)
    ensures |r| <= |lines|
    ensures forall k :: 0 <= k < |r| ==> '-' in r[k] && r[k] in lines
    ensures forall k :: 0 <= k < |lines| && '-' in lines[k] ==> lines[k] in r
  {
    if lines == [] then []
    else
      assert forall k :: 0 < k < |lines| ==> lines[k] == lines[1..][k - 1];
      (if '-' in lines[0] then [lines[0]] else []) + DashLines(lines[1..])
  }

  /** The dash lines of two pieces of text, one after the other, in order. */
  lemma {:induction false} DashLinesAppend(a: seq<string>, b: seq<string>)
    ensures DashLines(a + b) == DashLines(a) + DashLines(b)
  {
    if a == [] {
      assert a + b == b;
    } else {
      assert (a + b)[0] == a[0] && (a + b)[1..] == a[1..] + b;
      DashLinesAppend(a[1..], b);
    }
  }

  function Lines(content: string): seq<string> {
    NonBlankLines(Split(content, '\n'))
  }

  predicate HasTopicHeader(content: string) {
    Contains(content, CHINESE_TOPIC_MARK) || Contains(content, ENGLISH_TOPIC_MARK)
  }

  /** extract_metadata_from_content: six string fields describing a vocabulary file. */
  function ExtractMetadata(content: string, topic: string): (m: map<string, string>)
    ensures m.Keys == {TOPIC_KEY, CONTENT_TYPE_KEY, LANGUAGE_KEY, VOCAB_COUNT_KEY, TOTAL_LINES_KEY, TOPIC_HEADER_KEY}
    ensures m[TOPIC_KEY] == topic && m[CONTENT_TYPE_KEY] == "vocabulary" && m[LANGUAGE_KEY] == "en-zh"
    ensures m[TOTAL_LINES_KEY] == NatToString(|Lines(content)|)
    ensures m[VOCAB_COUNT_KEY] == NatToString(|DashLines(Lines(content))|)
    ensures m[TOPIC_HEADER_KEY] == "true" <==> HasTopicHeader(content)
    ensures m[TOPIC_HEADER_KEY] == "false" <==> !HasTopicHeader(content)
  {
    var lines := Lines(content);
    var vocabLines := DashLines(lines);
    map[TOPIC_KEY := topic, CONTENT_TYPE_KEY := "vocabulary", LANGUAGE_KEY := "en-zh",
        VOCAB_COUNT_KEY := NatToString(|vocabLines|), TOTAL_LINES_KEY := NatToString(|lines|),
        TOPIC_HEADER_KEY := if HasTopicHeader(content) then "true" else "false"]
  }

  /**
   * Both counts read back as integers, and the estimated vocabulary count never
   * exceeds the number of non-blank lines.
   */
  lemma MetadataCountsBounded(content: string, topic: string)
    ensures ParseInt(ExtractMetadata(content, topic)[VOCAB_COUNT_KEY]).Some?
    ensures ParseInt(ExtractMetadata(content, topic)[TOTAL_LINES_KEY]).Some?
    ensures 0 <= ParseInt(ExtractMetadata(content, topic)[VOCAB_COUNT_KEY]).value
                <= ParseInt(ExtractMetadata(content, topic)[TOTAL_LINES_KEY]).value
  {
    var lines := Lines(content);
    ParseIntToString(|DashLines(lines)|);
    ParseIntToString(|lines|);
  }

  // ---------------------------------------------------------------------------
  // Loading the directory
  // ---------------------------------------------------------------------------

  /** One entry of the directory listing; `content` is None when reading the file fails. */
  datatype DirEntry = DirEntry(name: string, isFile: bool, content: Option<string>)

  datatype LoadReport = LoadReport(documents: seq<Document>, processed: nat, skipped: nat)

  predicate Supported(e: DirEntry) {
    e.isFile && Suffix(e.name) in SUPPORTED_EXTENSIONS
  }

  /** A supported file that could be read and is not blank. */
  predicate Loadable(e: DirEntry) {
    Supported(e) && e.content.Some? && Strip(e.content.value) != []
  }

  function DocumentFor(e: DirEntry): (d: Document)
    requires Loadable(e)
  {
    Document(e.content.value, ExtractMetadata(e.content.value, TopicFromFilename(e.name)))
  }

  /** The documents a listing yields, in listing order. */
  function LoadedDocuments(entries: seq<DirEntry>): (docs: seq<Document>)
    ensures |docs| <= |entries|
  {
    if entries == [] then []
    else
      var last := entries[|entries| - 1];
      LoadedDocuments(entries[..|entries| - 1]) + (if Loadable(last) then [DocumentFor(last)] else [])
  }

  /**
   * Only readable, non-blank `.txt` files become documents, and every such file
   * does, with its own content and the metadata computed from it.
   */
  lemma {:induction false} LoadedDocumentsExactly(entries: seq<DirEntry>)
    ensures forall d :: d in LoadedDocuments(entries) ==> exists e :: e in entries && Loadable(e) && d == DocumentFor(e)
    ensures forall e :: e in entries && Loadable(e) ==> DocumentFor(e) in LoadedDocuments(entries)
    decreases |entries|
  {
    if entries != [] {
      var init := entries[..|entries| - 1];
      var last := entries[|entries| - 1];
      assert entries == init + [last];
      LoadedDocumentsExactly(init);
      forall e | e in entries && Loadable(e) ensures DocumentFor(e) in LoadedDocuments(entries) {
        if e != last {
          assert e in init;
        }
      }
    }
  }

  /** The files (not directories) of a listing that were not loaded. */
  function SkippedFiles(entries: seq<DirEntry>): nat {
    if entries == [] then 0
    else
      var last := entries[|entries| - 1];
      SkippedFiles(entries[..|entries| - 1]) + (if last.isFile && !Loadable(last) then 1 else 0)
  }

  function FileCount(entries: seq<DirEntry>): nat {
    if entries == [] then 0
    else FileCount(entries[..|entries| - 1]) + (if entries[|entries| - 1].isFile then 1 else 0)
  }

  /** What one more listing entry adds to the documents and the counters. */
  lemma LoadStep(entries: seq<DirEntry>, i: nat)
    requires i < |entries|
    ensures LoadedDocuments(entries[..i + 1]) ==
              LoadedDocuments(entries[..i]) + (if Loadable(entries[i]) then [DocumentFor(entries[i])] else [])
    ensures SkippedFiles(entries[..i + 1]) ==
              SkippedFiles(entries[..i]) + (if entries[i].isFile && !Loadable(entries[i]) then 1 else 0)
    ensures FileCount(entries[..i + 1]) == FileCount(entries[..i]) + (if entries[i].isFile then 1 else 0)
  {
    assert entries[..i + 1][..i] == entries[..i];
  }

  /**
   * load_vocabulary_files over a listing (None: the directory does not exist).
   * Every file is counted once, as processed or as skipped.
   */
  method LoadVocabularyFiles(listing: Option<seq<DirEntry>>) returns (r: LoadReport)
    ensures listing.None? ==> r == LoadReport([], 0, 0)
    ensures listing.Some? ==> r.documents == LoadedDocuments(listing.value)
    ensures listing.Some? ==> r.skipped == SkippedFiles(listing.value)
    ensures r.processed == |r.documents|
    ensures listing.Some? ==> r.processed + r.skipped == FileCount(listing.value)
  {
    if listing.None? {
      return LoadReport([], 0, 0);
    }
    var entries := listing.value;
    var documents: seq<Document> := [];
    var processed: nat := 0;
    var skipped: nat := 0;
    var i := 0;
    while i < |entries|
      invariant 0 <= i <= |entries|
      invariant documents == LoadedDocuments(entries[..i])
      invariant skipped == SkippedFiles(entries[..i])
      invariant processed == |documents|
      invariant processed + skipped == FileCount(entries[..i])
    {
      var e := entries[i];
      LoadStep(entries, i);
      if e.isFile && Suffix(e.name) in SUPPORTED_EXTENSIONS {
        if e.content.None? {
          skipped := skipped + 1;
        } else if Strip(e.content.value) == [] {
          skipped := skipped + 1;
        } else {
          var topic := TopicFromFilename(e.name);
          var metadata := ExtractMetadata(e.content.value, topic);
          documents := documents + [Document(e.content.value, metadata)];
          processed := processed + 1;
        }
      } else if e.isFile {
        skipped := skipped + 1;
      }
      i := i + 1;
    }
    assert entries[..i] == entries;
    return LoadReport(documents, processed, skipped);
  }

  // ---------------------------------------------------------------------------
  // Statistics
  // ---------------------------------------------------------------------------

  /** One entry of `stats["topics"]`, kept in first-appearance order as a Python dict is. */
  datatype TopicRow = TopicRow(topic: string, documentCount: nat, contentLength: nat, vocabCount: int)

  datatype Statistics = Statistics(totalDocuments: nat, topics: seq<TopicRow>,
                                   totalContentLength: nat, estimatedTotalVocab: int)

  /** `int()` refused the vocabulary count text of a document. */
  datatype StatsError = NotAnInteger(text: string)

  /** The topic a document is counted under; "Unknown" when it has none. */
  function TopicOf(d: Document): string {
    if TOPIC_KEY in d.metadata then d.metadata[TOPIC_KEY] else UNKNOWN_TOPIC
  }

  /** The vocabulary count text of a document; "0" when it has none. */
  function VocabText(d: Document): string {
    if VOCAB_COUNT_KEY in d.metadata then d.metadata[VOCAB_COUNT_KEY] else "0"
  }

  /** Every document's vocabulary count text is an integer numeral. */
  predicate CountsParse(docs: seq<Document>) {
    forall k :: 0 <= k < |docs| ==> ParseInt(VocabText(docs[k])).Some?
  }

  function TotalContent(docs: seq<Document>): nat {
    if docs == [] then 0 else TotalContent(docs[..|docs| - 1]) + |docs[|docs| - 1].pageContent|
  }

  function TotalVocab(docs: seq<Document>): int
    requires CountsParse(docs)
  {
    if docs == [] then 0 else TotalVocab(docs[..|docs| - 1]) + ParseInt(VocabText(docs[|docs| - 1])).value
  }

  /** The number of documents under topic `t`, their total length and their total vocabulary. */
  function DocumentsOn(docs: seq<Document>, t: string): nat {
    if docs == [] then 0
    else DocumentsOn(docs[..|docs| - 1], t) + (if TopicOf(docs[|docs| - 1]) == t then 1 else 0)
  }

  function ContentOn(docs: seq<Document>, t: string): nat {
    if docs == [] then 0
    else ContentOn(docs[..|docs| - 1], t) + (if TopicOf(docs[|docs| - 1]) == t then |docs[|docs| - 1].pageContent| else 0)
  }

  function VocabOn(docs: seq<Document>, t: string): int
    requires CountsParse(docs)
  {
    if docs == [] then 0
    else VocabOn(docs[..|docs| - 1], t) + (if TopicOf(docs[|docs| - 1]) == t then ParseInt(VocabText(docs[|docs| - 1])).value else 0)
  }

  function DocumentCountOf(row: TopicRow): int { row.documentCount }
  function ContentLengthOf(row: TopicRow): int { row.contentLength }
  function VocabCountOf(row: TopicRow): int { row.vocabCount }

  /** The sum of one figure over the topic rows. */
  function SumOf(rows: seq<TopicRow>, f: TopicRow -> int): int {
    if rows == [] then 0 else SumOf(rows[..|rows| - 1], f) + f(rows[|rows| - 1])
  }

  lemma {:induction false} SumOfUpdate(rows: seq<TopicRow>, f: TopicRow -> int, j: nat, row: TopicRow)
    requires j < |rows|
    ensures SumOf(rows[j := row], f) == SumOf(rows, f) - f(rows[j]) + f(row)
    decreases |rows|
  {
    var n := |rows| - 1;
    var updated := rows[j := row];
    assert updated[..n] == if j == n then rows[..n] else rows[..n][j := row];
    if j < n {
      SumOfUpdate(rows[..n], f, j, row);
    }
  }

  predicate HasRow(rows: seq<TopicRow>, t: string) {
    exists j :: 0 <= j < |rows| && rows[j].topic == t
  }

  predicate DistinctTopics(rows: seq<TopicRow>) {
    forall a, b :: 0 <= a < b < |rows| ==> rows[a].topic != rows[b].topic
  }

  /** Where topic `t` sits among the rows, or -1 (the dictionary lookup). */
  function RowIndex(rows: seq<TopicRow>, t: string): (j: int)
    ensures -1 <= j < |rows|
    ensures j >= 0 ==> rows[j].topic == t
    ensures j == -1 <==> !HasRow(rows, t)
  {
    if rows == [] then -1
    else if rows[|rows| - 1].topic == t then |rows| - 1
    else
      var j := RowIndex(rows[..|rows| - 1], t);
      assert HasRow(rows, t) ==> HasRow(rows[..|rows| - 1], t) by {
        if HasRow(rows, t) {
          var k :| 0 <= k < |rows| && rows[k].topic == t;
          assert rows[..|rows| - 1][k].topic == t;
        }
      }
      j
  }

  /** A row holds the figures of the documents on its topic; a topic is only listed once seen. */
  ghost predicate RowAgrees(row: TopicRow, docs: seq<Document>)
    requires CountsParse(docs)
  {
    row.documentCount == DocumentsOn(docs, row.topic) > 0 &&
    row.contentLength == ContentOn(docs, row.topic) &&
    row.vocabCount == VocabOn(docs, row.topic)
  }

  /** No document of `docs` is on topic `t`. */
  ghost predicate Unseen(docs: seq<Document>, t: string)
    requires CountsParse(docs)
  {
    DocumentsOn(docs, t) == 0 && ContentOn(docs, t) == 0 && VocabOn(docs, t) == 0
  }

  /** The per-topic rows agree with the documents seen so far. */
  ghost predicate RowsAgree(rows: seq<TopicRow>, docs: seq<Document>)
    requires CountsParse(docs)
  {
    DistinctTopics(rows) &&
    (forall j :: 0 <= j < |rows| ==> RowAgrees(rows[j], docs)) &&
    (forall t :: !HasRow(rows, t) ==> Unseen(docs, t))
  }

  /** A row after one document of topic `t` was counted into it; rows of other topics are kept. */
  function Bumped(row: TopicRow, t: string, length: nat, vocab: int): TopicRow {
    if row.topic != t then row
    else TopicRow(t, row.documentCount + 1, row.contentLength + length, row.vocabCount + vocab)
  }

  lemma SumOfAppend(rows: seq<TopicRow>, f: TopicRow -> int, row: TopicRow)
    ensures SumOf(rows + [row], f) == SumOf(rows, f) + f(row)
  {
    assert (rows + [row])[..|rows|] == rows;
  }

  /**
   * Counting one document into its topic's row, creating the row (at the end,
   * as a dict inserts) when the topic is new: every total grows by that
   * document's figures.
   */
  function AddToTopic(rows: seq<TopicRow>, t: string, length: nat, vocab: int): (r: seq<TopicRow>)
    requires DistinctTopics(rows)
    ensures DistinctTopics(r)
    ensures HasRow(r, t)
    ensures HasRow(rows, t) ==> |r| == |rows|
    ensures !HasRow(rows, t) ==> |r| == |rows| + 1 && r[|rows|] == TopicRow(t, 1, length, vocab)
    ensures forall j :: 0 <= j < |rows| ==> r[j] == Bumped(rows[j], t, length, vocab)
    ensures SumOf(r, DocumentCountOf) == SumOf(rows, DocumentCountOf) + 1
    ensures SumOf(r, ContentLengthOf) == SumOf(rows, ContentLengthOf) + length
    ensures SumOf(r, VocabCountOf) == SumOf(rows, VocabCountOf) + vocab
  {
    var j := RowIndex(rows, t);
    if j == -1 then
      var row := TopicRow(t, 1, length, vocab);
      SumOfAppend(rows, DocumentCountOf, row);
      SumOfAppend(rows, ContentLengthOf, row);
      SumOfAppend(rows, VocabCountOf, row);
      assert (rows + [row])[|rows|].topic == t;
      rows + [row]
    else
      var row := Bumped(rows[j], t, length, vocab);
      SumOfUpdate(rows, DocumentCountOf, j, row);
      SumOfUpdate(rows, ContentLengthOf, j, row);
      SumOfUpdate(rows, VocabCountOf, j, row);
      assert rows[j := row][j].topic == t;
      rows[j := row]
  }

  /** The per-topic figures after one more document. */
  lemma OnAppend(docs: seq<Document>, d: Document, u: string)
    requires CountsParse(docs + [d])
    ensures CountsParse(docs)
    ensures DocumentsOn(docs + [d], u) == DocumentsOn(docs, u) + (if TopicOf(d) == u then 1 else 0)
    ensures ContentOn(docs + [d], u) == ContentOn(docs, u) + (if TopicOf(d) == u then |d.pageContent| else 0)
    ensures VocabOn(docs + [d], u) == VocabOn(docs, u) + (if TopicOf(d) == u then ParseInt(VocabText(d)).value else 0)
  {
    var next := docs + [d];
    assert next[..|docs|] == docs;
    forall k | 0 <= k < |docs| ensures ParseInt(VocabText(docs[k])).Some? {
      assert next[k] == docs[k];
    }
  }

  lemma BumpedRowAgrees(row: TopicRow, docs: seq<Document>, d: Document, vocab: int)
    requires ParseInt(VocabText(d)) == Some(vocab)
    requires CountsParse(docs + [d]) && CountsParse(docs) && RowAgrees(row, docs)
    ensures RowAgrees(Bumped(row, TopicOf(d), |d.pageContent|, vocab), docs + [d])
  {
    OnAppend(docs, d, row.topic);
  }

  lemma NewRowAgrees(docs: seq<Document>, d: Document, vocab: int)
    requires ParseInt(VocabText(d)) == Some(vocab)
    requires CountsParse(docs + [d]) && CountsParse(docs) && Unseen(docs, TopicOf(d))
    ensures RowAgrees(TopicRow(TopicOf(d), 1, |d.pageContent|, vocab), docs + [d])
  {
    OnAppend(docs, d, TopicOf(d));
  }

  lemma UnseenStaysUnseen(rows: seq<TopicRow>, docs: seq<Document>, d: Document, vocab: int, u: string)
    requires ParseInt(VocabText(d)) == Some(vocab)
    requires CountsParse(docs + [d]) && CountsParse(docs) && RowsAgree(rows, docs)
    requires !HasRow(AddToTopic(rows, TopicOf(d), |d.pageContent|, vocab), u)
    ensures Unseen(docs + [d], u)
  {
    var r := AddToTopic(rows, TopicOf(d), |d.pageContent|, vocab);
    assert u != TopicOf(d);
    assert Unseen(docs, u);
    OnAppend(docs, d, u);
  }

  /** Counting a new document into the rows keeps them in agreement with the documents. */
  lemma AddToTopicAgrees(rows: seq<TopicRow>, docs: seq<Document>, d: Document, vocab: int)
    requires ParseInt(VocabText(d)) == Some(vocab)
    requires CountsParse(docs + [d]) && CountsParse(docs) && RowsAgree(rows, docs)
    ensures RowsAgree(AddToTopic(rows, TopicOf(d), |d.pageContent|, vocab), docs + [d])
  {
    var t := TopicOf(d);
    var next := docs + [d];
    var r := AddToTopic(rows, t, |d.pageContent|, vocab);
    forall j | 0 <= j < |r| ensures RowAgrees(r[j], next) {
      if j < |rows| {
        BumpedRowAgrees(rows[j], docs, d, vocab);
      } else {
        NewRowAgrees(docs, d, vocab);
      }
    }
    forall u | !HasRow(r, u) ensures Unseen(next, u) {
      UnseenStaysUnseen(rows, docs, d, vocab, u);
    }
  }

  /** What one more document adds to the totals. */
  lemma StatsStep(documents: seq<Document>, i: nat, vocab: int)
    requires i < |documents| && CountsParse(documents[..i])
    requires ParseInt(VocabText(documents[i])) == Some(vocab)
    ensures documents[..i + 1] == documents[..i] + [documents[i]]
    ensures CountsParse(documents[..i + 1])
    ensures TotalContent(documents[..i + 1]) == TotalContent(documents[..i]) + |documents[i].pageContent|
    ensures TotalVocab(documents[..i + 1]) == TotalVocab(documents[..i]) + vocab
  {
    assert documents[..i + 1][..i] == documents[..i];
  }

  /** The totals of `stats` are those of `docs`. */
  ghost predicate TotalsMatch(stats: Statistics, docs: seq<Document>)
    requires CountsParse(docs)
  {
    stats.totalContentLength == TotalContent(docs) && stats.estimatedTotalVocab == TotalVocab(docs)
  }

  /** The per-topic rows of `stats` are those of `docs` and sum to its totals. */
  ghost predicate RowsMatch(stats: Statistics, docs: seq<Document>)
    requires CountsParse(docs)
  {
    RowsAgree(stats.topics, docs) &&
    SumOf(stats.topics, DocumentCountOf) == |docs| &&
    SumOf(stats.topics, ContentLengthOf) == stats.totalContentLength &&
    SumOf(stats.topics, VocabCountOf) == stats.estimatedTotalVocab
  }

  /**
   * The figures of `stats` are those of `docs`: the totals, the per-topic rows,
   * and the rows summing to the totals.
   */
  ghost predicate Summarises(stats: Statistics, docs: seq<Document>)
    requires CountsParse(docs)
  {
    TotalsMatch(stats, docs) && RowsMatch(stats, docs)
  }

  /** `stats` with the document `d`, whose count is `vocab`, counted in. */
  function CountIn(stats: Statistics, d: Document, vocab: int): Statistics
    requires DistinctTopics(stats.topics)
  {
    stats.(topics := AddToTopic(stats.topics, TopicOf(d), |d.pageContent|, vocab),
           totalContentLength := stats.totalContentLength + |d.pageContent|,
           estimatedTotalVocab := stats.estimatedTotalVocab + vocab)
  }

  lemma TotalsStep(stats: Statistics, documents: seq<Document>, i: nat, vocab: int)
    requires i < |documents| && CountsParse(documents[..i]) && TotalsMatch(stats, documents[..i])
    requires DistinctTopics(stats.topics)
    requires ParseInt(VocabText(documents[i])) == Some(vocab)
    ensures CountsParse(documents[..i + 1])
    ensures TotalsMatch(CountIn(stats, documents[i], vocab), documents[..i + 1])
  {
    StatsStep(documents, i, vocab);
  }

  lemma RowsStep(stats: Statistics, documents: seq<Document>, i: nat, vocab: int)
    requires i < |documents| && CountsParse(documents[..i]) && RowsMatch(stats, documents[..i])
    requires ParseInt(VocabText(documents[i])) == Some(vocab)
    ensures CountsParse(documents[..i + 1])
    ensures RowsMatch(CountIn(stats, documents[i], vocab), documents[..i + 1])
  {
    StatsStep(documents, i, vocab);
    AddToTopicAgrees(stats.topics, documents[..i], documents[i], vocab);
  }

  /** Counting the document at index `i` into figures that summarise the ones before it. */
  lemma CountStep(stats: Statistics, documents: seq<Document>, i: nat, vocab: int)
    requires i < |documents| && CountsParse(documents[..i]) && Summarises(stats, documents[..i])
    requires ParseInt(VocabText(documents[i])) == Some(vocab)
    ensures CountsParse(documents[..i + 1])
    ensures Summarises(CountIn(stats, documents[i], vocab), documents[..i + 1])
  {
    TotalsStep(stats, documents, i, vocab);
    RowsStep(stats, documents, i, vocab);
  }

  /**
   * generate_statistics: the number of documents, the per-topic rows and the
   * totals, or the error `int()` raises on the first count that is not an integer.
   */
  method GenerateStatistics(documents: seq<Document>) returns (r: Result<Statistics, StatsError>)
    ensures r.Err? <==> !CountsParse(documents)
    ensures r.Err? ==> exists k :: 0 <= k < |documents| && CountsParse(documents[..k]) &&
                          ParseInt(VocabText(documents[k])).None? && r.error == NotAnInteger(VocabText(documents[k]))
    ensures r.Ok? ==> r.value.totalDocuments == |documents| && Summarises(r.value, documents)
  {
    var stats := Statistics(|documents|, [], 0, 0);
    var i := 0;
    while i < |documents|
      invariant 0 <= i <= |documents|
      invariant stats.totalDocuments == |documents|
      invariant CountsParse(documents[..i])
      invariant Summarises(stats, documents[..i])
    {
      var d := documents[i];
      var parsed := ParseInt(VocabText(d));
      if parsed.None? {
        return Err(NotAnInteger(VocabText(d)));
      }
      CountStep(stats, documents, i, parsed.value);
      stats := CountIn(stats, d, parsed.value);
      i := i + 1;
    }
    assert documents[..i] == documents;
    return Ok(stats);
  }

  /** Statistics over loaded documents never fail: every loaded count is a decimal numeral. */
  lemma LoadedCountsParse(entries: seq<DirEntry>)
    ensures CountsParse(LoadedDocuments(entries))
  {
    var docs := LoadedDocuments(entries);
    LoadedDocumentsExactly(entries);
    forall k | 0 <= k < |docs| ensures ParseInt(VocabText(docs[k])).Some? {
      assert docs[k] in docs;
      var e :| e in entries && Loadable(e) && docs[k] == DocumentFor(e);
      MetadataCountsBounded(e.content.value, TopicFromFilename(e.name));
    }
  }
}
