/**
 * lib/search.ts: the POST search client. Each record's body text is cleaned
 * (timestamp markers removed, whitespace normalised, filler dropped) and put
 * on a line after its locale time; at most 50 records are formatted, joined
 * with newlines and cut to the total-size budget. Any failure is re-thrown
 * with a fixed prefix.
 */
module Search {
  import opened Wrappers
  import opened JsText
  import opened SearchData

  /** How many records `execute` formats, at most. */
  const MAX_RECORDS: nat := 50

  /** Cleaned texts that count as noise. */
  const FILLERS: seq<string> := ["Thank you.", "You know", "I'm"]

  /** The prefix of every error `execute` throws. */
  const FAILURE_PREFIX: string := "failed to fetch results from screenpipe: "

  // ---------------------------------------------------------------------------
  // Timestamp markers `<|digits.digits|>`

  /** The marker written with digit groups `a` and `b`. */
  function Marker(a: string, b: string): string {
    "<|" + (a + ("." + (b + "|>")))
  }

  /** The number of consecutive digits of `s` from offset `i` on (`\d+`, greedy). */
  function DigitsFrom(s: string, i: nat): (n: nat)
    requires i <= |s|
    ensures i + n <= |s|
    ensures forall j :: i <= j < i + n ==> IsDigit(s[j])
    ensures i + n < |s| ==> !IsDigit(s[i + n])
    decreases |s| - i
  {
    if i < |s| && IsDigit(s[i]) then 1 + DigitsFrom(s, i + 1) else 0
  }

  /** The match of `/<\|\d+\.\d+\|>/` at the very start of `s`, as its two digit
      groups; the digit runs cannot be followed by a digit, so taking them whole
      is the only way the pattern can match. */
  function MatchMarker(s: string): (m: Option<(string, string)>)
    ensures m.Some? ==> var (a, b) := m.value;
      && a != [] && b != [] && AllDigits(a) && AllDigits(b)
      && |Marker(a, b)| <= |s| && s[..|Marker(a, b)|] == Marker(a, b)
  {
    if |s| < 2 || s[0] != '<' || s[1] != '|' then None
    else
      var n1 := DigitsFrom(s, 2);
      if n1 == 0 || 2 + n1 >= |s| || s[2 + n1] != '.' then None
      else
        var n2 := DigitsFrom(s, 3 + n1);
        if n2 == 0 || 3 + n1 + n2 + 1 >= |s| || s[3 + n1 + n2] != '|' || s[4 + n1 + n2] != '>' then None
        else
          MarkerPrefix(s, n1, n2);
          Some((s[2..2 + n1], s[3 + n1..3 + n1 + n2]))
  }

  /** The digit run from offset `i` is a known string of digits followed by a
      non-digit (or the end). */
  lemma {:induction false} DigitsFromRun(s: string, i: nat, d: string)
    requires i + |d| <= |s| && s[i..i + |d|] == d && AllDigits(d)
    requires i + |d| < |s| ==> !IsDigit(s[i + |d|])
    ensures DigitsFrom(s, i) == |d|
    decreases |d|
  {
    if d != [] {
      assert s[i] == d[0];
      assert s[i + 1..i + 1 + |d[1..]|] == d[1..];
      DigitsFromRun(s, i + 1, d[1..]);
    }
  }

  /** The characters of a marker, read off `s`, are the marker of its digit groups. */
  lemma MarkerPrefix(s: string, n1: nat, n2: nat)
    requires 5 + n1 + n2 <= |s|
    requires s[0] == '<' && s[1] == '|' && s[2 + n1] == '.' && s[3 + n1 + n2] == '|' && s[4 + n1 + n2] == '>'
    ensures |Marker(s[2..2 + n1], s[3 + n1..3 + n1 + n2])| == 5 + n1 + n2
    ensures s[..5 + n1 + n2] == Marker(s[2..2 + n1], s[3 + n1..3 + n1 + n2])
  {
    var a, b := s[2..2 + n1], s[3 + n1..3 + n1 + n2];
    var tb := b + "|>";
    var ta := a + ("." + tb);
    var m := "<|" + ta;
    assert m == Marker(a, b);
    forall k | 0 <= k < |m| ensures m[k] == s[k] {
      if 2 <= k {
        assert m[k] == ta[k - 2];
        if 2 + n1 < k {
          assert ta[k - 2] == tb[k - 3 - n1];
        }
      }
    }
  }

  /** Where the parts of a marker sit. */
  lemma MarkerShape(a: string, b: string)
    ensures var m := Marker(a, b);
      && |m| == 5 + |a| + |b|
      && m[0] == '<' && m[1] == '|' && m[2..2 + |a|] == a && m[2 + |a|] == '.'
      && m[3 + |a|..3 + |a| + |b|] == b && m[3 + |a| + |b|] == '|' && m[4 + |a| + |b|] == '>'
  {
    var tb := b + "|>";
    var ta := a + ("." + tb);
    var m := "<|" + ta;
    assert m == Marker(a, b);
    assert m[2..2 + |a|] == ta[..|a|] == a;
    assert m[3 + |a|..3 + |a| + |b|] == tb[..|b|] == b;
  }

  lemma SliceOfPrefix(m: string, t: string, i: nat, j: nat)
    requires i <= j <= |m|
    ensures (m + t)[i..j] == m[i..j]
  {
  }

  /** Every well-formed marker is recognised, with its own digit groups. */
  lemma MatchMarkerComplete(a: string, b: string, t: string)
    requires a != [] && b != [] && AllDigits(a) && AllDigits(b)
    ensures MatchMarker(Marker(a, b) + t) == Some((a, b))
  {
    var m := Marker(a, b);
    var s := m + t;
    MarkerShape(a, b);
    var ia, ib := 2, 3 + |a|;
    SliceOfPrefix(m, t, ia, ia + |a|);
    assert s[ia + |a|] == '.';
    DigitsFromRun(s, ia, a);
    SliceOfPrefix(m, t, ib, ib + |b|);
    assert s[ib + |b|] == '|' && s[ib + |b| + 1] == '>';
    DigitsFromRun(s, ib, b);
  }

  /** A marker on its own is recognised. */
  lemma MatchMarkerExact(a: string, b: string)
    requires a != [] && b != [] && AllDigits(a) && AllDigits(b)
    ensures MatchMarker(Marker(a, b)) == Some((a, b))
  {
    MatchMarkerComplete(a, b, []);
    assert Marker(a, b) + [] == Marker(a, b);
  }

  /** `.replace(/<\|\d+\.\d+\|>/g, '')`: scanning left to right, each marker found is
      deleted and the scan resumes just after it. */
  function StripMarkers(s: string): (r: string)
    ensures |r| <= |s|
    decreases |s|
  {
    if s == [] then []
    else
      match MatchMarker(s)
      case Some((a, b)) => StripMarkers(s[|Marker(a, b)|..])
      case None => [s[0]] + StripMarkers(s[1..])
  }

  /** A marker at the front is deleted entirely. */
  lemma StripDeletesMarker(a: string, b: string, t: string)
    requires a != [] && b != [] && AllDigits(a) && AllDigits(b)
    ensures StripMarkers(Marker(a, b) + t) == StripMarkers(t)
  {
    MatchMarkerComplete(a, b, t);
    var s := Marker(a, b) + t;
    assert s[|Marker(a, b)|..] == t;
  }

  /** A text in which no marker starts anywhere is left unchanged. */
  lemma {:induction false} StripWithoutMarkers(s: string)
    requires forall i :: 0 <= i < |s| ==> MatchMarker(s[i..]).None?
    ensures StripMarkers(s) == s
  {
    if s != [] {
      assert MatchMarker(s[0..]).None? && s[0..] == s;
      forall i | 0 <= i < |s| - 1 ensures MatchMarker(s[1..][i..]).None? {
        assert s[1..][i..] == s[i + 1..];
      }
      StripWithoutMarkers(s[1..]);
    }
  }

  /** A text without `<` holds no marker. */
  lemma NoAngleNoMarker(s: string)
    requires '<' !in s
    ensures StripMarkers(s) == s
  {
    forall i | 0 <= i < |s| ensures MatchMarker(s[i..]).None? {
      assert s[i..][0] == s[i];
    }
    StripWithoutMarkers(s);
  }

  /** Where no marker starts, the first character is kept. */
  lemma StripKeepsHead(c: char, t: string)
    requires MatchMarker([c] + t).None?
    ensures StripMarkers([c] + t) == [c] + StripMarkers(t)
  {
    assert ([c] + t)[1..] == t;
  }

  /** What follows a marker's `<|`: its digit groups, the dot and `|>`. */
  lemma MarkerTailHasNoAngle(c: string, d: string)
    requires AllDigits(c) && AllDigits(d)
    ensures '<' !in c + ("." + (d + "|>"))
  {
    var u := d + "|>";
    assert forall i :: 0 <= i < |u| ==> u[i] != '<' by {
      forall i | 0 <= i < |u| ensures u[i] != '<' {
        if i < |d| { assert u[i] == d[i]; }
      }
    }
    var v := "." + u;
    assert forall i :: 0 <= i < |v| ==> v[i] != '<' by {
      forall i | 0 < i < |v| ensures v[i] != '<' { assert v[i] == u[i - 1]; }
    }
    var t := c + v;
    forall i | 0 <= i < |t| ensures t[i] != '<' {
      if i < |c| { assert t[i] == c[i]; } else { assert t[i] == v[i - |c|]; }
    }
  }

  /** `<|` followed by `<` cannot start a marker, and neither can its `|`. */
  lemma StripOpenBeforeAngle(s2: string)
    requires s2 != [] && s2[0] == '<'
    ensures StripMarkers("<|" + s2) == "<|" + StripMarkers(s2)
  {
    StripOpenBeforeAngleCons(s2);
    OpenAsCons(s2);
    OpenAsCons(StripMarkers(s2));
  }

  /** `StripOpenBeforeAngle` with the two characters added one at a time. */
  lemma StripOpenBeforeAngleCons(s2: string)
    requires s2 != [] && s2[0] == '<'
    ensures StripMarkers(['<'] + (['|'] + s2)) == ['<'] + (['|'] + StripMarkers(s2))
  {
    var s1 := ['|'] + s2;
    NotMarkerWithoutOpen(s1);
    StripKeepsHead('|', s2);
    NotMarkerWithoutDigit(['<'] + s1);
    StripKeepsHead('<', s1);
  }

  lemma OpenAsCons(s: string)
    ensures ['<'] + (['|'] + s) == "<|" + s
  {
  }

  /** No marker starts with `<|` then a non-digit. */
  lemma NotMarkerWithoutDigit(s: string)
    requires |s| > 2 && !IsDigit(s[2])
    ensures MatchMarker(s).None?
  {
    assert DigitsFrom(s, 2) == 0;
  }

  /** No marker starts with anything but `<`. */
  lemma NotMarkerWithoutOpen(s: string)
    requires s != [] && s[0] != '<'
    ensures MatchMarker(s).None?
  {
  }

  /** Deletion can bring a new marker together: in `<|<|a.b|>c.d|>` the inner marker
      is deleted and what is left is the marker `<|c.d|>`, because the replacement is
      a single pass; "no marker remains" therefore does not hold. */
  lemma StripCanSpliceMarker(a: string, b: string, c: string, d: string)
    requires a != [] && b != [] && AllDigits(a) && AllDigits(b)
    requires c != [] && d != [] && AllDigits(c) && AllDigits(d)
    ensures StripMarkers("<|" + (Marker(a, b) + (c + ("." + (d + "|>"))))) == Marker(c, d)
    ensures MatchMarker(Marker(c, d)) == Some((c, d))
  {
    var t := c + ("." + (d + "|>"));
    var s2 := Marker(a, b) + t;
    assert s2[0] == '<';
    StripOpenBeforeAngle(s2);
    StripDeletesMarker(a, b, t);
    MarkerTailHasNoAngle(c, d);
    NoAngleNoMarker(t);
    MatchMarkerExact(c, d);
  }

  // ---------------------------------------------------------------------------
  // Record formatting

  /** The cleaned text: markers removed, whitespace runs made one space, trimmed. */
  function Clean(body: string): string {
    Trim(Collapse(StripMarkers(body)))
  }

  /** A cleaned text the formatter drops. */
  predicate IsNoise(clean: string) {
    clean == "" || clean in FILLERS
  }

  /** A string whose whitespace is already normalised is its own collapse. */
  lemma {:induction false} CollapseNormalised(u: string)
    requires NoAdjacentWs(u) && WsAreSpaces(u)
    ensures Collapse(u) == u
    decreases |u|
  {
    if u != [] {
      SliceKeepsShape(u, 1, |u|);
      assert u[1..|u|] == u[1..];
      if IsWs(u[0]) {
        assert |u| > 1 ==> !WsPairAt(u, 1);
        assert LeadingWs(u) == 1;
        CollapseNormalised(u[1..]);
        assert u == " " + u[1..];
      } else {
        CollapseNormalised(u[1..]);
        assert u == [u[0]] + u[1..];
      }
    }
  }

  /** The cleaned text has no whitespace at either end, no two whitespace characters
      in a row, only plain spaces as whitespace, and every visible character of the
      marker-free body. */
  lemma CleanShape(body: string)
    ensures Trimmed(Clean(body))
    ensures NoAdjacentWs(Clean(body)) && WsAreSpaces(Clean(body))
    ensures Visible(Clean(body)) == Visible(StripMarkers(body))
  {
    var s := StripMarkers(body);
    var c := Collapse(s);
    TrimProperties(c);
    CollapseKeepsVisible(s);
    var k := LeadingWs(c);
    var a := c[k..];
    SliceKeepsShape(c, k, |c|);
    SliceKeepsShape(a, 0, |a| - TrailingWs(a));
  }

  /** The cleaned text is exactly the words of the marker-free body joined by
      single spaces. */
  lemma CleanIsWords(body: string)
    ensures Clean(body) == Join(Inner(Split(StripMarkers(body))), " ")
  {
    var s := StripMarkers(body);
    var u := Clean(body);
    CleanShape(body);
    CollapseNormalised(u);
    JoinSplitIsCollapse(u);
    SplitTrim(Collapse(s));
    JoinSplitIsCollapse(s);
    SplitJoinRoundTrip(Split(s));
  }

  /** `formatResult(item)`, with `new Date(ts).toLocaleTimeString()` given as
      `localeTime`. Reading `content` of a record that has none throws. */
  function FormatResult(rec: Record, localeTime: Option<string> -> string): (r: Result<string, string>)
    ensures r.Failure? <==> rec.content.None?
    ensures r.Failure? ==> r.error == ReadOfUndefined("transcription")
    ensures r.Success? ==> (r.value == "" <==> IsNoise(Clean(Body(rec.content.value))))
    ensures r.Success? && r.value != "" ==>
      r.value == "[" + localeTime(rec.content.value.timestamp) + "] " + Clean(Body(rec.content.value)) + "\n"
  {
    match rec.content
    case None => Failure(ReadOfUndefined("transcription"))
    case Some(c) =>
      var clean := Clean(Body(c));
      if IsNoise(clean) then Success("")
      else Success("[" + localeTime(c.timestamp) + "] " + clean + "\n")
  }

  /** A missing or empty body (both `transcription` and `text` falsy) formats to `''`. */
  lemma MissingBodyFormatsEmpty(c: Content, kind: Option<string>, localeTime: Option<string> -> string)
    requires c.transcription.None? || c.transcription == Some("")
    requires c.text.None? || c.text == Some("")
    ensures FormatResult(Record(kind, Some(c)), localeTime) == Success("")
  {
    assert Body(c) == "";
    assert StripMarkers("") == "";
  }

  // ---------------------------------------------------------------------------
  // execute

  /** The `query` field of the POST body. */
  function NaturalQuery(query: string): string {
    "find recent content about " + query
  }

  /** The user's query is recovered from the request by dropping the fixed prefix. */
  lemma NaturalQueryRoundTrip(query: string)
    ensures |NaturalQuery(query)| == 26 + |query|
    ensures NaturalQuery(query)[..26] == "find recent content about "
    ensures NaturalQuery(query)[26..] == query
  {
  }

  /** The text that `execute` returns on success: the first 50 records formatted,
      joined with newlines, cut to the budget when over it. */
  function Assemble(lines: seq<string>): string {
    var joined := Join(lines, "\n");
    if |joined| > MAX_TOTAL_CHARS then CutTotal(joined) else joined
  }

  /** `execute({ query })` given what the endpoint answered to `NaturalQuery(query)`:
      the returned text, or the message of the error it throws. */
  function Execute(reply: Reply, localeTime: Option<string> -> string): Result<string, string> {
    match reply
    case NetworkError(m) => Failure(FAILURE_PREFIX + m)
    case Answered(resp) =>
      if !resp.Ok() then
        Failure(FAILURE_PREFIX + "search failed: " + Decimal(resp.status) + " " + resp.statusText + " - " + resp.bodyText)
      else
        match resp.json
        case Malformed(e) => Failure(FAILURE_PREFIX + e)
        case Parsed(None) => Failure(FAILURE_PREFIX + ReadOfUndefined("length"))
        case Parsed(Some(records)) =>
          match MapOrThrow(Take(records, MAX_RECORDS), rec => FormatResult(rec, localeTime))
          case Failure(e) => Failure(FAILURE_PREFIX + e)
          case Success(lines) => Success(Assemble(lines))
  }

  /** A response that is not ok makes `execute` throw, with the status code in decimal
      in the message. */
  lemma ExecuteRejectsNotOk(resp: Response, localeTime: Option<string> -> string)
    requires !resp.Ok()
    ensures Execute(Answered(resp), localeTime).Failure?
    ensures Includes(Execute(Answered(resp), localeTime).error, Decimal(resp.status))
    ensures DigitsValue(Decimal(resp.status)) == resp.status
  {
    var d := Decimal(resp.status);
    IncludesMiddle(FAILURE_PREFIX + "search failed: ", d, " " + resp.statusText + " - " + resp.bodyText);
    var m := FAILURE_PREFIX + "search failed: " + d + " " + resp.statusText + " - " + resp.bodyText;
    assert m == (FAILURE_PREFIX + "search failed: ") + d + (" " + resp.statusText + " - " + resp.bodyText);
    DecimalRoundTrip(resp.status);
  }

  /** On success, exactly min(n, 50) formatter outputs are joined, in input order and
      with the empty ones kept, using exactly one newline between neighbours; the
      result is that text, or its cut when it is over the budget. */
  lemma ExecuteSuccess(resp: Response, records: seq<Record>, localeTime: Option<string> -> string)
    requires resp.Ok() && resp.json == Parsed(Some(records))
    requires forall i :: 0 <= i < |records| && i < MAX_RECORDS ==> records[i].content.Some?
    ensures var kept := Take(records, MAX_RECORDS);
      var lines := seq(|kept|, i requires 0 <= i < |kept| => FormatResult(kept[i], localeTime).value);
      && |lines| == (if |records| < 50 then |records| else 50)
      && Execute(Answered(resp), localeTime) == Success(Assemble(lines))
      && (|lines| >= 1 ==> Count('\n', Join(lines, "\n")) == CountAll('\n', lines) + |lines| - 1)
  {
    var kept := Take(records, MAX_RECORDS);
    var f := rec => FormatResult(rec, localeTime);
    var lines := seq(|kept|, i requires 0 <= i < |kept| => FormatResult(kept[i], localeTime).value);
    var m := MapOrThrow(kept, f);
    assert forall i :: 0 <= i < |kept| ==> kept[i] == records[i];
    assert m.Success?;
    assert m.value == lines;
    if |lines| >= 1 {
      JoinCounts(lines, '\n');
    }
  }

  /** Whatever the records, a successful result is never longer than the budget plus
      the marker, and is the joined text itself whenever that fits. */
  lemma ExecuteBounded(reply: Reply, localeTime: Option<string> -> string)
    requires Execute(reply, localeTime).Success?
    ensures |Execute(reply, localeTime).value| <= MAX_TOTAL_CHARS + |TRUNCATION_MARKER|
    ensures var lines := MapOrThrow(Take(reply.response.json.data.value, MAX_RECORDS),
                                    rec => FormatResult(rec, localeTime)).value;
      var joined := Join(lines, "\n");
      |joined| <= MAX_TOTAL_CHARS ==> Execute(reply, localeTime).value == joined
  {
    var resp := reply.response;
    var records := resp.json.data.value;
    var lines := MapOrThrow(Take(records, MAX_RECORDS), rec => FormatResult(rec, localeTime)).value;
    var joined := Join(lines, "\n");
    if |joined| > MAX_TOTAL_CHARS {
      CutTotalSpec(joined);
    }
  }

  /** `{ data: [] }` gives the empty string, not an error. */
  lemma ExecuteNoRecords(resp: Response, localeTime: Option<string> -> string)
    requires resp.Ok() && resp.json == Parsed(Some([]))
    ensures Execute(Answered(resp), localeTime) == Success("")
  {
    var none: seq<Record> := [];
    assert Take(none, MAX_RECORDS) == [];
  }

  /** A record whose body is already clean text (single spaces between words, none at
      either end, no marker, not a filler) comes back as the one line
      `[time] text` followed by a newline, while that line fits the budget. */
  lemma ExecuteOneCleanRecord(resp: Response, kind: Option<string>, c: Content,
                              localeTime: Option<string> -> string)
    requires resp.Ok() && resp.json == Parsed(Some([Record(kind, Some(c))]))
    requires Body(c) != [] && Body(c) !in FILLERS && '<' !in Body(c)
    requires Trimmed(Body(c)) && NoAdjacentWs(Body(c)) && WsAreSpaces(Body(c))
    requires |"[" + localeTime(c.timestamp) + "] " + Body(c) + "\n"| <= MAX_TOTAL_CHARS
    ensures Execute(Answered(resp), localeTime)
         == Success("[" + localeTime(c.timestamp) + "] " + Body(c) + "\n")
  {
    var text := Body(c);
    NoAngleNoMarker(text);
    CollapseNormalised(text);
    assert LeadingWs(text) == 0;
    assert TrailingWs(text) == 0;
    assert Clean(text) == text;
    var line := "[" + localeTime(c.timestamp) + "] " + text + "\n";
    var records := [Record(kind, Some(c))];
    assert Take(records, MAX_RECORDS) == records;
    ExecuteSuccess(resp, records, localeTime);
    var lines := seq(1, i requires 0 <= i < 1 => FormatResult(records[i], localeTime).value);
    assert lines == [line];
  }
}
