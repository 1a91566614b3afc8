/**
 * The values the three search clients exchange with the search endpoint and
 * with the model: result records, an abstract HTTP reply, the tool result,
 * and the JavaScript behaviours (template interpolation, `||`, engine
 * TypeErrors, `map` that stops at the first throw) their code relies on.
 */
module SearchData {
  import opened Wrappers
  import opened JsText

  /** The `content` object of a result record; `None` stands for `undefined`. */
  datatype Content = Content(
    text: Option<string>,
    transcription: Option<string>,
    timestamp: Option<string>,
    appName: Option<string>,
    windowName: Option<string>,
    filePath: Option<string>)

  /** One element of the endpoint's `data` array: its `type` tag and its `content`. */
  datatype Record = Record(kind: Option<string>, content: Option<Content>)

  /** What `response.json()` yields: a parse failure carrying the engine's
      SyntaxError message, or an object whose `data` field may be missing. */
  datatype Json = Malformed(syntaxError: string) | Parsed(data: Option<seq<Record>>)

  /** A response that arrived: status line, `content-type` header, and the body
      read either as text or as JSON (each client reads it one way only). */
  datatype Response = Response(
    status: nat,
    statusText: string,
    contentType: Option<string>,
    bodyText: string,
    json: Json)
  {
    /** `response.ok`: the status is in the range 200 to 299. */
    predicate Ok() {
      200 <= status <= 299
    }
  }

  /** What `await fetch(...)` produces: a rejection (the request never completed,
      with the engine's message) or a response. */
  datatype Reply = NetworkError(message: string) | Answered(response: Response)

  /** One `{ title, snippet, url }` entry of a structured tool result. */
  datatype Entry = Entry(title: string, snippet: string, url: string)

  /** What a search tool returns to the model: a bare string or `{ results: [...] }`. */
  datatype ToolResult = Text(text: string) | Results(results: seq<Entry>)

  /** `${v}` in a template literal, for a value that may be `undefined`. */
  function Interpolate(v: Option<string>): (r: string)
    ensures v.Some? ==> r == v.value
    ensures v.None? ==> r == "undefined"
  {
    match v
    case Some(s) => s
    case None => "undefined"
  }

  /** `a || b` where `a` is a string or `undefined`: `a` unless it is falsy. */
  function OrElse(a: Option<string>, b: string): (r: string)
    ensures r == b || (a.Some? && r == a.value && r != [])
    ensures r == [] ==> b == []
  {
    if a.Some? && a.value != [] then a.value else b
  }

  /** The message of the TypeError the engine throws on reading property `p` of
      `undefined` (V8's wording). */
  function ReadOfUndefined(p: string): string {
    "Cannot read properties of undefined (reading '" + p + "')"
  }

  /** `xs.map(f)` where `f` may throw: the mapped list, or the error of the first
      element on which `f` throws. */
  function MapOrThrow<A>(xs: seq<A>, f: A -> Result<string, string>): (r: Result<seq<string>, string>)
    ensures r.Success? <==> forall i :: 0 <= i < |xs| ==> f(xs[i]).Success?
    ensures r.Success? ==> |r.value| == |xs| && forall i :: 0 <= i < |xs| ==> r.value[i] == f(xs[i]).value
    ensures r.Failure? ==> exists i :: 0 <= i < |xs| && f(xs[i]) == Failure(r.error)
                                       && forall j :: 0 <= j < i ==> f(xs[j]).Success?
  {
    if xs == [] then Success([])
    else
      match f(xs[0])
      case Failure(e) => Failure(e)
      case Success(y) =>
        var rest := MapOrThrow(xs[1..], f);
        match rest
        case Failure(e) =>
          ghost var k :| 0 <= k < |xs| - 1 && f(xs[1..][k]) == Failure(e)
                         && forall j :: 0 <= j < k ==> f(xs[1..][j]).Success?;
          assert f(xs[k + 1]) == Failure(e);
          assert forall j :: 0 <= j < k + 1 ==> f(xs[j]).Success? by {
            forall j | 0 <= j < k + 1 ensures f(xs[j]).Success? {
              if j > 0 {
                assert xs[j] == xs[1..][j - 1];
              }
            }
          }
          Failure(e)
        case Success(ys) =>
          assert forall i :: 0 < i < |xs| ==> xs[i] == xs[1..][i - 1];
          Success([y] + ys)
  }

  /** The record's body text: `item.content.transcription || item.content.text || ''`. */
  function Body(c: Content): (r: string)
    ensures r == [] <==> OrElse(c.transcription, "") == [] && OrElse(c.text, "") == []
  {
    OrElse(c.transcription, OrElse(c.text, ""))
  }

  /** A tool-result snippet: fixed text around an embedded query and embedded results. */
  function Frame(head: string, query: string, mid: string, body: string, tail: string): string {
    head + query + mid + body + tail
  }

  /** The query and the results are embedded verbatim, each recoverable from its fixed
      position in the snippet. */
  lemma FrameRecoversParts(head: string, query: string, mid: string, body: string, tail: string)
    ensures var s := Frame(head, query, mid, body, tail);
      var q0 := |head|;
      var b0 := q0 + |query| + |mid|;
      && |s| == b0 + |body| + |tail|
      && s[q0..q0 + |query|] == query
      && s[b0..b0 + |body|] == body
      && Includes(s, query) && Includes(s, body)
  {
    var s := Frame(head, query, mid, body, tail);
    var q0 := |head|;
    var b0 := q0 + |query| + |mid|;
    var a := head + query;
    var b := a + mid;
    var c := b + body;
    assert s == c + tail;
    assert a[q0..] == query;
    assert s[q0..q0 + |query|] == a[q0..];
    assert s[b0..b0 + |body|] == c[b0..];
    assert c[b0..] == body;
    assert OccursAt(s, query, q0);
    assert OccursAt(s, body, b0);
  }

  /** The total-size budget of the formatted text, and the marker that ends a cut one. */
  const MAX_TOTAL_CHARS: nat := 100000
  const TRUNCATION_MARKER: string := "\n...(truncated)"

  /** `formattedResults.slice(0, MAX_TOTAL_CHARS) + '\n...(truncated)'`. */
  function CutTotal(s: string): string {
    Take(s, MAX_TOTAL_CHARS) + TRUNCATION_MARKER
  }

  /** A text over the budget is cut to exactly the budget and marked, so the result
      is always 100015 characters long and begins with the text's first 100000. */
  lemma CutTotalSpec(s: string)
    requires |s| > MAX_TOTAL_CHARS
    ensures |CutTotal(s)| == MAX_TOTAL_CHARS + |TRUNCATION_MARKER| == 100015
    ensures CutTotal(s)[..MAX_TOTAL_CHARS] == s[..MAX_TOTAL_CHARS]
    ensures CutTotal(s)[MAX_TOTAL_CHARS..] == TRUNCATION_MARKER
  {
    var r := CutTotal(s);
    assert r == s[..MAX_TOTAL_CHARS] + TRUNCATION_MARKER;
  }
}
