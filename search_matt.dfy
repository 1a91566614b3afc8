/**
 * lib/search_matt.ts: the GET search client. The keyword is searched twice,
 * once per content category; each reply passes an ordered chain of checks
 * (status, content type, JSON), the two record lists are merged ui first,
 * every record is formatted as a labelled block, and the outcome is handed to
 * the model as a single result entry, an error entry on any failure.
 */
module SearchMatt {
  import opened Wrappers
  import opened JsText
  import opened Words
  import opened SearchData

  /** The per-record word cap. */
  const MAX_WORDS: nat := 100000

  /** The `limit` sent with every request. */
  const LIMIT: string := "25"

  const SUCCESS_TITLE: string := "search results"
  const ERROR_TITLE: string := "Error performing search"
  const ERROR_PREFIX: string := "failed to fetch results: "
  const JSON_TYPE: string := "application/json"
  const INVALID_JSON: string := "invalid json response from search endpoint"

  const SNIPPET_HEAD: string := "Here are the relevant search results for \""
  const SNIPPET_MID: string := "\":\n\n"
  const SNIPPET_TAIL: string := "\n\nPlease analyze these results and provide a comprehensive answer to the user's query."

  /** The two content categories searched. */
  datatype Category = Ui | Audio {
    function Name(): string {
      match this
      case Ui => "ui"
      case Audio => "audio"
    }
  }

  /** A query's name/value pairs, in order. */
  type Query = seq<(string, string)>

  /** What one search produced: the `data` field of the parsed body (possibly
      `undefined`), or the message of the error thrown. */
  type Fetched = Result<Option<seq<Record>>, string>

  /** `URL.searchParams`: the pairs in the order appended. */
  class SearchParams {
    var pairs: Query

    constructor ()
      ensures pairs == []
    {
      pairs := [];
    }

    /** `searchParams.append(name, value)`. */
    method Append(name: string, value: string)
      modifies this
      ensures pairs == old(pairs) + [(name, value)]
    {
      pairs := pairs + [(name, value)];
    }
  }

  // ---------------------------------------------------------------------------
  // fetchSearch

  /** The query of the request for `query` in category `category`. */
  function RequestQuery(query: string, category: Category): Query {
    [("q", Lower(query)), ("content_type", category.Name()), ("limit", LIMIT)]
  }

  /** `${contentTypeHeader}` for a header that `headers.get` reports as `null`. */
  function HeaderText(header: Option<string>): string {
    match header
    case Some(h) => h
    case None => "null"
  }

  /** `contentTypeHeader?.includes('application/json')`. */
  predicate IsJsonType(header: Option<string>) {
    header.Some? && Includes(header.value, JSON_TYPE)
  }

  /** The ordered checks on a reply: the status first, then the content type, then
      the JSON body, whose `data` field is the result. */
  function CheckReply(reply: Reply): Fetched {
    match reply
    case NetworkError(m) => Failure(m)
    case Answered(resp) =>
      if !resp.Ok() then
        Failure("search failed (" + Decimal(resp.status) + "): " + OrElse(Some(resp.bodyText), resp.statusText))
      else if !IsJsonType(resp.contentType) then
        Failure("unexpected response type: " + HeaderText(resp.contentType))
      else
        match resp.json
        case Malformed(_) => Failure(INVALID_JSON)
        case Parsed(d) => Success(d)
  }

  /** `fetchSearch(query, category)`, against a server that answers each query with
      `server(query)`: the query is built by successive appends, then the reply is
      checked step by step, leaving at the first failed check. */
  method FetchSearch(query: string, category: Category, server: Query -> Reply)
    returns (sent: Query, outcome: Fetched)
    ensures sent == RequestQuery(query, category)
    ensures outcome == CheckReply(server(sent))
  {
    var params := new SearchParams();
    params.Append("q", Lower(query));
    params.Append("content_type", category.Name());
    params.Append("limit", LIMIT);
    sent := params.pairs;
    var reply := server(sent);
    if reply.NetworkError? {
      outcome := Failure(reply.message);
      return;
    }
    var response := reply.response;
    if !response.Ok() {
      var errorText := response.bodyText;
      outcome := Failure("search failed (" + Decimal(response.status) + "): " + OrElse(Some(errorText), response.statusText));
      return;
    }
    var contentTypeHeader := response.contentType;
    if !IsJsonType(contentTypeHeader) {
      outcome := Failure("unexpected response type: " + HeaderText(contentTypeHeader));
      return;
    }
    match response.json {
      case Malformed(_) =>
        outcome := Failure(INVALID_JSON);
      case Parsed(data) =>
        outcome := Success(data);
    }
  }

  /** The keyword is sent lower-cased, so two keywords that differ only in case send
      the same request; the two requests of one search differ only in their category. */
  lemma RequestIgnoresCase(query: string, c: Category)
    ensures RequestQuery(Lower(query), c) == RequestQuery(query, c)
    ensures var u := RequestQuery(query, Ui);
      var a := RequestQuery(query, Audio);
      && |u| == |a| == 3
      && u[0] == a[0] && u[2] == a[2] && u[1] != a[1]
      && u[0].1 == Lower(query) && u[2] == ("limit", "25")
  {
    LowerIdempotent(query);
  }

  /** A status that is not ok fails with the status code, whatever the content type
      and the body's JSON: those checks are never reached. The body text is reported
      when there is one, the status text otherwise. */
  lemma StatusCheckedFirst(resp: Response, contentType: Option<string>, json: Json)
    requires !resp.Ok()
    ensures CheckReply(Answered(resp)) == CheckReply(Answered(resp.(contentType := contentType, json := json)))
    ensures CheckReply(Answered(resp)).Failure?
    ensures Includes(CheckReply(Answered(resp)).error, Decimal(resp.status))
    ensures Includes(CheckReply(Answered(resp)).error, if resp.bodyText != [] then resp.bodyText else resp.statusText)
  {
    var d := Decimal(resp.status);
    var detail := OrElse(Some(resp.bodyText), resp.statusText);
    IncludesMiddle("search failed (", d, "): " + detail);
    assert "search failed (" + d + "): " + detail == "search failed (" + d + ("): " + detail);
    IncludesMiddle("search failed (" + d + "): ", detail, []);
    assert "search failed (" + d + "): " + detail + [] == "search failed (" + d + "): " + detail;
  }

  /** With an ok status, a content type without `application/json` fails before the
      body is parsed, whatever the body holds. */
  lemma ContentTypeCheckedBeforeJson(resp: Response, json: Json)
    requires resp.Ok() && !IsJsonType(resp.contentType)
    ensures CheckReply(Answered(resp)) == CheckReply(Answered(resp.(json := json)))
    ensures CheckReply(Answered(resp)) == Failure("unexpected response type: " + HeaderText(resp.contentType))
  {
  }

  /** A reply is accepted exactly when it has an ok status, a JSON content type and a
      body that parses; what is returned is then the body's `data` field, and a body
      that does not parse fails with the fixed message. */
  lemma CheckAcceptsIff(reply: Reply)
    ensures CheckReply(reply).Success? <==>
      reply.Answered? && reply.response.Ok() && IsJsonType(reply.response.contentType)
      && reply.response.json.Parsed?
    ensures CheckReply(reply).Success? ==> CheckReply(reply).value == reply.response.json.data
    ensures (reply.Answered? && reply.response.Ok() && IsJsonType(reply.response.contentType)
             && reply.response.json.Malformed?) ==> CheckReply(reply) == Failure(INVALID_JSON)
  {
  }

  // ---------------------------------------------------------------------------
  // formatResult

  /** A record the formatter can read: it exists, has `content`, and `content.text`. */
  predicate Formattable(item: Option<Record>) {
    item.Some? && item.value.content.Some? && item.value.content.value.text.Some?
  }

  /** The lines of a formatted record, in their fixed order. */
  function FieldLines(rec: Record, c: Content, text: string): seq<string> {
    [ "Source: " + Interpolate(c.filePath),
      "Type: " + Interpolate(rec.kind),
      "App: " + Interpolate(c.appName),
      "Window: " + Interpolate(c.windowName),
      "Time: " + Interpolate(c.timestamp),
      "Content: " + text,
      "---" ]
  }

  /** `formatResult(item)`: the multi-line template, one labelled field per line. An `undefined` item (what `flat` keeps for a missing
      `data`), a record without `content`, and a `content.text` that is missing (on
      which `countWords` calls `trim`) each throw. */
  function FormatItem(item: Option<Record>): (r: Result<string, string>)
    ensures r.Success? <==> Formattable(item)
  {
    match item
    case None => Failure(ReadOfUndefined("content"))
    case Some(rec) =>
      match rec.content
      case None => Failure(ReadOfUndefined("text"))
      case Some(c) =>
        match c.text
        case None => Failure(ReadOfUndefined("trim"))
        case Some(t) =>
          Success(Join(FieldLines(rec, c, CapWords(t, MAX_WORDS)), "\n"))
  }

  /** A formatted record holds exactly six newlines more than its fields do, so when
      no field contains a newline it is seven lines: Source, Type, App, Window, Time,
      Content and `---`, in that order. Its length is the fields' lengths plus six. */
  lemma FormatItemLines(rec: Record)
    requires Formattable(Some(rec))
    ensures var c := rec.content.value;
      var lines := FieldLines(rec, c, CapWords(c.text.value, MAX_WORDS));
      && Count('\n', FormatItem(Some(rec)).value) == CountAll('\n', lines) + 6
      && |FormatItem(Some(rec)).value| == TotalLength(lines) + 6
      && FormatItem(Some(rec)).value[..8] == "Source: "
  {
    var c := rec.content.value;
    var lines := FieldLines(rec, c, CapWords(c.text.value, MAX_WORDS));
    JoinCounts(lines, '\n');
    var rest := Join(lines[1..], "\n");
    assert Join(lines, "\n") == lines[0] + "\n" + rest;
    assert lines[0] == "Source: " + Interpolate(c.filePath);
  }

  /** A text within the cap is kept exactly; a longer one keeps at most 100000 of its
      words, followed by `...`. */
  lemma FormatItemCapsWords(rec: Record)
    requires Formattable(Some(rec))
    ensures var t := rec.content.value.text.value;
      && (CountWords(t) <= MAX_WORDS ==> CapWords(t, MAX_WORDS) == t)
      && (CountWords(t) > MAX_WORDS ==>
           CapWords(t, MAX_WORDS) == KeptWords(t, MAX_WORDS) + "..."
           && CountWords(KeptWords(t, MAX_WORDS)) <= MAX_WORDS)
  {
    var t := rec.content.value.text.value;
    CapWordsSpec(t, MAX_WORDS);
  }

  // ---------------------------------------------------------------------------
  // execute

  /** One search's contribution to `results.flat()`: the records of `data`, or a
      single `undefined` item when `data` is missing. */
  function Flat(data: Option<seq<Record>>): (items: seq<Option<Record>>)
    ensures data.None? ==> items == [None]
    ensures data.Some? ==> |items| == |data.value| && forall i :: 0 <= i < |items| ==> items[i] == Some(data.value[i])
  {
    match data
    case None => [None]
    case Some(rs) => seq(|rs|, i requires 0 <= i < |rs| => Some(rs[i]))
  }

  /** `Promise.all([ui, audio])` then `flat()`: the first failure in argument order,
      or the ui items followed by the audio items. */
  function Merge(ui: Fetched, audio: Fetched): Result<seq<Option<Record>>, string> {
    match ui
    case Failure(e) => Failure(e)
    case Success(u) =>
      match audio
      case Failure(e) => Failure(e)
      case Success(a) => Success(Flat(u) + Flat(a))
  }

  /** The merged list keeps every ui record, in order, then every audio record, in order. */
  lemma MergeOrder(u: seq<Record>, a: seq<Record>)
    ensures Merge(Success(Some(u)), Success(Some(a))).Success?
    ensures var items := Merge(Success(Some(u)), Success(Some(a))).value;
      && |items| == |u| + |a|
      && (forall i :: 0 <= i < |u| ==> items[i] == Some(u[i]))
      && (forall j :: 0 <= j < |a| ==> items[|u| + j] == Some(a[j]))
  {
  }

  /** The formatted results: every merged item formatted, joined with newlines. */
  function Formatted(ui: Fetched, audio: Fetched): Result<string, string> {
    match Merge(ui, audio)
    case Failure(e) => Failure(e)
    case Success(items) =>
      match MapOrThrow(items, FormatItem)
      case Failure(e) => Failure(e)
      case Success(blocks) => Success(Join(blocks, "\n"))
  }

  function Snippet(keyword: string, formatted: string): string {
    Frame(SNIPPET_HEAD, keyword, SNIPPET_MID, formatted, SNIPPET_TAIL)
  }

  /** `execute({ query })` against `server`; both searches use the query as keyword. */
  function Execute(keyword: string, server: Query -> Reply): ToolResult {
    var ui := CheckReply(server(RequestQuery(keyword, Ui)));
    var audio := CheckReply(server(RequestQuery(keyword, Audio)));
    match Formatted(ui, audio)
    case Failure(e) => Results([Entry(ERROR_TITLE, ERROR_PREFIX + e, "")])
    case Success(f) => Results([Entry(SUCCESS_TITLE, Snippet(keyword, f), "")])
  }

  /** `execute` never throws and always returns one entry with an empty url, which
      is the error entry exactly when a search failed or some merged item could not
      be formatted; the error entry carries the message after the fixed prefix. */
  lemma ExecuteShape(keyword: string, server: Query -> Reply)
    ensures var r := Execute(keyword, server);
      var ui := CheckReply(server(RequestQuery(keyword, Ui)));
      var audio := CheckReply(server(RequestQuery(keyword, Audio)));
      && r.Results? && |r.results| == 1 && r.results[0].url == ""
      && (r.results[0].title == ERROR_TITLE <==>
            || ui.Failure? || audio.Failure?
            || exists i :: 0 <= i < |Merge(ui, audio).value| && !Formattable(Merge(ui, audio).value[i]))
      && (r.results[0].title == ERROR_TITLE ==>
            r.results[0].snippet == ERROR_PREFIX + Formatted(ui, audio).error)
  {
  }

  /** A record without `content.text`, from either search, turns the whole answer
      into the error entry. */
  lemma MissingTextFails(keyword: string, server: Query -> Reply, rec: Record)
    requires rec.content.Some? && rec.content.value.text.None?
    requires var ui := CheckReply(server(RequestQuery(keyword, Ui)));
      var audio := CheckReply(server(RequestQuery(keyword, Audio)));
      Merge(ui, audio).Success? && Some(rec) in Merge(ui, audio).value
    ensures Execute(keyword, server).results[0].title == ERROR_TITLE
  {
    ExecuteShape(keyword, server);
    var ui := CheckReply(server(RequestQuery(keyword, Ui)));
    var audio := CheckReply(server(RequestQuery(keyword, Audio)));
    var items := Merge(ui, audio).value;
    var i :| 0 <= i < |items| && items[i] == Some(rec);
    assert !Formattable(items[i]);
  }

  /** The formatted blocks of records that are all readable, in order. */
  function Blocks(rs: seq<Record>): (bs: seq<string>)
    requires forall i :: 0 <= i < |rs| ==> Formattable(Some(rs[i]))
    ensures |bs| == |rs| && forall i :: 0 <= i < |rs| ==> Success(bs[i]) == FormatItem(Some(rs[i]))
  {
    seq(|rs|, i requires 0 <= i < |rs| => FormatItem(Some(rs[i])).value)
  }

  /** With both searches returning readable records, formatting succeeds with the ui
      blocks then the audio blocks, joined with newlines. */
  lemma FormattedSuccess(u: seq<Record>, a: seq<Record>)
    requires forall i :: 0 <= i < |u| ==> Formattable(Some(u[i]))
    requires forall j :: 0 <= j < |a| ==> Formattable(Some(a[j]))
    ensures Formatted(Success(Some(u)), Success(Some(a))) == Success(Join(Blocks(u) + Blocks(a), "\n"))
  {
    var blocks := Blocks(u) + Blocks(a);
    MergeOrder(u, a);
    var items := Merge(Success(Some(u)), Success(Some(a))).value;
    assert |items| == |blocks|;
    forall k | 0 <= k < |items| ensures FormatItem(items[k]) == Success(blocks[k]) {
      if k < |u| {
        assert items[k] == Some(u[k]);
        assert blocks[k] == Blocks(u)[k];
      } else {
        assert items[|u| + (k - |u|)] == Some(a[k - |u|]);
        assert blocks[k] == Blocks(a)[k - |u|];
      }
    }
    var m := MapOrThrow(items, FormatItem);
    assert m.Success?;
    assert m.value == blocks;
  }

  /** When both searches succeed with readable records, the answer quotes the keyword
      and embeds all ui blocks then all audio blocks, joined with newlines. */
  lemma ExecuteSuccess(keyword: string, server: Query -> Reply, u: seq<Record>, a: seq<Record>)
    requires CheckReply(server(RequestQuery(keyword, Ui))) == Success(Some(u))
    requires CheckReply(server(RequestQuery(keyword, Audio))) == Success(Some(a))
    requires forall i :: 0 <= i < |u| ==> Formattable(Some(u[i]))
    requires forall j :: 0 <= j < |a| ==> Formattable(Some(a[j]))
    ensures var r := Execute(keyword, server);
      var f := Join(Blocks(u) + Blocks(a), "\n");
      var f0 := |SNIPPET_HEAD| + |keyword| + |SNIPPET_MID|;
      && r == Results([Entry(SUCCESS_TITLE, Snippet(keyword, f), "")])
      && Includes(r.results[0].snippet, keyword)
      && r.results[0].snippet[f0..f0 + |f|] == f
  {
    var f := Join(Blocks(u) + Blocks(a), "\n");
    FormattedSuccess(u, a);
    FrameRecoversParts(SNIPPET_HEAD, keyword, SNIPPET_MID, f, SNIPPET_TAIL);
  }
}
