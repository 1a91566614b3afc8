/**
 * lib/search_louis.ts: the variant of the POST search client that keeps each
 * record's raw body (cut to a word cap), tags it with the record's type and
 * timestamp, and hands the model a structured result; every failure becomes a
 * single error entry instead of an exception.
 */
module SearchLouis {
  import opened Wrappers
  import opened JsText
  import opened Words
  import opened SearchData

  /** The per-record word cap and the number of records formatted. */
  const MAX_WORDS: nat := 15000
  const MAX_RECORDS: nat := 50

  const SUCCESS_TITLE: string := "search results"
  const ERROR_TITLE: string := "Error performing search"
  const ERROR_PREFIX: string := "failed to fetch results from screenpipe: "

  /** The fixed text around the query and the results in the success snippet; the
      tail holds the template literal's line break and indentation as written. */
  const SNIPPET_HEAD: string := "Here are the search results for \""
  const SNIPPET_MID: string := "\":\n\n"
  const SNIPPET_TAIL: string := "\n\n\n          Please analyze these results and provide a concise answer to the user's query if there are relevant reulsts."

  /** The `query` field of the POST body. */
  function NaturalQuery(query: string): (r: string)
    ensures |r| == 26 + |query| && r[26..] == query
  {
    "find recent content about " + query
  }

  /** The text a record contributes: its body, cut to the word cap. */
  function LineText(c: Content): string {
    CapWords(Body(c), MAX_WORDS)
  }

  /** The map callback: `[type] timestamp: text`, then a `---` line and a newline.
      Reading `transcription` of a record without `content` throws. */
  function Line(rec: Record): Result<string, string> {
    match rec.content
    case None => Failure(ReadOfUndefined("transcription"))
    case Some(c) => Success(LineOf(Interpolate(rec.kind), Interpolate(c.timestamp), LineText(c)))
  }

  /** The callback's template literal, given its three interpolated values. */
  function LineOf(kind: string, time: string, text: string): string {
    "[" + kind + "] " + time + ": " + text + "\n---\n"
  }

  /** The template begins with the bracketed type and ends with the separator. */
  lemma LineOfShape(kind: string, time: string, text: string)
    ensures var r := LineOf(kind, time, text);
      && |r| >= |kind| + 3 && r[..|kind| + 3] == "[" + kind + "] "
      && |r| >= 5 && r[|r| - 5..] == "\n---\n"
  {
    var h := "[" + kind + "] ";
    var p := h + time + ": " + text;
    assert LineOf(kind, time, text) == p + "\n---\n";
    assert p == h + (time + ": " + text);
    assert LineOf(kind, time, text) == h + (time + ": " + text + "\n---\n");
  }

  /** A body within the cap is kept exactly; a longer one keeps at most 15000 of its
      words (its first tokens, as `CapWordsSpec` states), followed by `...`. */
  lemma LineTextCapped(c: Content)
    ensures CountWords(Body(c)) <= MAX_WORDS ==> LineText(c) == Body(c)
    ensures CountWords(Body(c)) > MAX_WORDS ==>
      && LineText(c) == KeptWords(Body(c), MAX_WORDS) + "..."
      && KeptWords(Body(c), MAX_WORDS) <= Collapse(Body(c))
      && CountWords(KeptWords(Body(c), MAX_WORDS)) <= MAX_WORDS
  {
    var b := Body(c);
    CapWordsSpec(b, MAX_WORDS);
  }

  /** The callback fails exactly on records without `content`, a line always ends
      with the `---` separator, and a missing `type` is rendered as `undefined`. */
  lemma LineShape(rec: Record)
    ensures Line(rec).Failure? <==> rec.content.None?
    ensures Line(rec).Success? ==>
      |Line(rec).value| >= 5 && Line(rec).value[|Line(rec).value| - 5..] == "\n---\n"
    ensures rec.content.Some? && rec.kind.None? ==>
      |Line(rec).value| >= 12 && Line(rec).value[..12] == "[undefined] "
  {
    if rec.content.Some? {
      var c := rec.content.value;
      LineOfShape(Interpolate(rec.kind), Interpolate(c.timestamp), LineText(c));
    }
  }


  /** Everything inside the `try` block up to the size check: the joined lines, or
      the message of what it threw. */
  function Formatted(reply: Reply): Result<string, string> {
    match reply
    case NetworkError(m) => Failure(m)
    case Answered(resp) =>
      if !resp.Ok() then
        Failure("search failed: " + Decimal(resp.status) + " " + resp.statusText + " - " + resp.bodyText)
      else
        match resp.json
        case Malformed(e) => Failure(e)
        case Parsed(None) => Failure(ReadOfUndefined("length"))
        case Parsed(Some(records)) =>
          match MapOrThrow(Take(records, MAX_RECORDS), Line)
          case Failure(e) => Failure(e)
          case Success(lines) => Success(Join(lines, "\n"))
  }

  /** The success snippet: the quoted query, the results and the closing request. */
  function Snippet(query: string, formatted: string): string {
    Frame(SNIPPET_HEAD, query, SNIPPET_MID, formatted, SNIPPET_TAIL)
  }

  /** The error entry for a thrown message. */
  function ErrorResult(message: string): ToolResult {
    Results([Entry(ERROR_TITLE, ERROR_PREFIX + message, "")])
  }

  /** `execute({ query })`, given what the endpoint answered. */
  function Execute(query: string, reply: Reply): ToolResult {
    match Formatted(reply)
    case Failure(e) => ErrorResult(e)
    case Success(f) =>
      if |f| > MAX_TOTAL_CHARS then Text(CutTotal(f))
      else Results([Entry(SUCCESS_TITLE, Snippet(query, f), "")])
  }

  /** `execute` never throws: it returns the bare cut text exactly when the results
      are over the budget, and otherwise one entry with an empty url, which is the
      error entry exactly when a step failed. */
  lemma ExecuteShape(query: string, reply: Reply)
    ensures Execute(query, reply).Text? <==>
      Formatted(reply).Success? && |Formatted(reply).value| > MAX_TOTAL_CHARS
    ensures Execute(query, reply).Text? ==> |Execute(query, reply).text| == 100015
    ensures Execute(query, reply).Results? ==>
      && |Execute(query, reply).results| == 1
      && Execute(query, reply).results[0].url == ""
      && (Execute(query, reply).results[0].title == ERROR_TITLE <==> Formatted(reply).Failure?)
  {
    if Formatted(reply).Success? && |Formatted(reply).value| > MAX_TOTAL_CHARS {
      CutTotalSpec(Formatted(reply).value);
    }
  }

  /** An answered request fails exactly when the status is not ok, the body is not
      JSON, `data` is missing, or one of the first 50 records has no `content`. */
  lemma FormattedFailsIff(resp: Response)
    ensures Formatted(Answered(resp)).Failure? <==>
      || !resp.Ok()
      || resp.json.Malformed?
      || resp.json.data.None?
      || exists i :: 0 <= i < |resp.json.data.value| && i < MAX_RECORDS
                     && resp.json.data.value[i].content.None?
  {
    if resp.Ok() && resp.json.Parsed? && resp.json.data.Some? {
      var records := resp.json.data.value;
      var kept := Take(records, MAX_RECORDS);
      forall i | 0 <= i < |kept| ensures kept[i] == records[i] && (Line(kept[i]).Failure? <==> kept[i].content.None?) {
        LineShape(kept[i]);
      }
    }
  }

  /** A status error reports the status code, the status text and the body. */
  lemma StatusErrorReported(query: string, resp: Response)
    requires !resp.Ok()
    ensures var r := Execute(query, Answered(resp));
      && r == ErrorResult("search failed: " + Decimal(resp.status) + " " + resp.statusText + " - " + resp.bodyText)
      && Includes(r.results[0].snippet, Decimal(resp.status))
  {
    var d := Decimal(resp.status);
    var head := ERROR_PREFIX + "search failed: ";
    var tail := " " + resp.statusText + " - " + resp.bodyText;
    assert ERROR_PREFIX + ("search failed: " + d + " " + resp.statusText + " - " + resp.bodyText) == head + d + tail;
    IncludesMiddle(head, d, tail);
  }

  /** Within the budget, the success entry quotes the query and contains the
      formatted results verbatim, at the fixed position after the query. */
  lemma SuccessQuotesResults(query: string, reply: Reply)
    requires Formatted(reply).Success? && |Formatted(reply).value| <= MAX_TOTAL_CHARS
    ensures var r := Execute(query, reply);
      var f := Formatted(reply).value;
      var f0 := |SNIPPET_HEAD| + |query| + |SNIPPET_MID|;
      && r.Results? && r.results[0].title == SUCCESS_TITLE
      && Includes(r.results[0].snippet, query)
      && r.results[0].snippet[f0..f0 + |f|] == f
  {
    FrameRecoversParts(SNIPPET_HEAD, query, SNIPPET_MID, Formatted(reply).value, SNIPPET_TAIL);
  }

  /** The lines of the first 50 records, when each of them has `content`. */
  function KeptLines(records: seq<Record>): (ls: seq<string>)
    requires forall i :: 0 <= i < |records| && i < MAX_RECORDS ==> records[i].content.Some?
    ensures |ls| == |Take(records, MAX_RECORDS)|
    ensures forall i :: 0 <= i < |ls| ==> Line(records[i]) == Success(ls[i])
  {
    var kept := Take(records, MAX_RECORDS);
    assert forall i :: 0 <= i < |kept| ==> kept[i] == records[i];
    seq(|kept|, i requires 0 <= i < |kept| => Line(kept[i]).value)
  }

  /** On success, exactly min(n, 50) lines are joined, in input order, with one
      newline between neighbours. */
  lemma FormattedLines(resp: Response, records: seq<Record>)
    requires resp.Ok() && resp.json == Parsed(Some(records))
    requires forall i :: 0 <= i < |records| && i < MAX_RECORDS ==> records[i].content.Some?
    ensures var lines := KeptLines(records);
      && |lines| == (if |records| < 50 then |records| else 50)
      && (forall i :: 0 <= i < |lines| ==> Line(records[i]) == Success(lines[i]))
      && Formatted(Answered(resp)) == Success(Join(lines, "\n"))
      && (|lines| >= 1 ==> Count('\n', Join(lines, "\n")) == CountAll('\n', lines) + |lines| - 1)
  {
    var kept := Take(records, MAX_RECORDS);
    var lines := KeptLines(records);
    assert forall i :: 0 <= i < |kept| ==> kept[i] == records[i];
    var m := MapOrThrow(kept, Line);
    assert m.Success?;
    assert m.value == lines;
    if |lines| >= 1 {
      JoinCounts(lines, '\n');
    }
  }
}
