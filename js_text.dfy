/**
 * The JavaScript string primitives the search clients rely on: the `\s`
 * character class, `trim`, `replace(/\s+/g, ' ')`, `split(/\s+/)`,
 * `Array.prototype.join`, number-to-string conversion and substring search.
 */
module JsText {

  /** A code point matched by the regular-expression class `\s`; `String.prototype.trim`
      removes exactly the same set (ECMAScript WhiteSpace and LineTerminator). */
  predicate IsWs(c: char) {
    var n := c as int;
    (0x09 <= n <= 0x0D) || n == 0x20 || n == 0xA0 || n == 0x1680 || (0x2000 <= n <= 0x200A)
    || n == 0x2028 || n == 0x2029 || n == 0x202F || n == 0x205F || n == 0x3000 || n == 0xFEFF
  }

  /** No whitespace at all. */
  predicate NoWs(s: string) {
    forall i :: 0 <= i < |s| ==> !IsWs(s[i])
  }

  /** Whitespace only. */
  predicate AllWs(s: string) {
    forall i :: 0 <= i < |s| ==> IsWs(s[i])
  }

  /** No two consecutive whitespace characters. */
  predicate NoAdjacentWs(s: string) {
    forall i :: 0 < i < |s| ==> !WsPairAt(s, i)
  }

  /** The characters at `i - 1` and `i` are both whitespace. */
  predicate WsPairAt(s: string, i: nat)
    requires 0 < i < |s|
  {
    IsWs(s[i - 1]) && IsWs(s[i])
  }

  /** Every whitespace character is a plain space. */
  predicate WsAreSpaces(s: string) {
    forall i :: 0 <= i < |s| && IsWs(s[i]) ==> s[i] == ' '
  }

  /** Neither the first nor the last character is whitespace. */
  predicate Trimmed(s: string) {
    s == [] || (!IsWs(s[0]) && !IsWs(s[|s| - 1]))
  }

  /** The non-whitespace characters of `s`, in order. */
  function Visible(s: string): (r: string)
    ensures NoWs(r) && |r| <= |s|
  {
    if s == [] then [] else if IsWs(s[0]) then Visible(s[1..]) else [s[0]] + Visible(s[1..])
  }

  lemma {:induction false} VisibleAppend(a: string, b: string)
    ensures Visible(a + b) == Visible(a) + Visible(b)
  {
    if a != [] {
      assert (a + b)[0] == a[0] && (a + b)[1..] == a[1..] + b;
      VisibleAppend(a[1..], b);
    } else {
      assert a + b == b;
    }
  }

  lemma {:induction false} VisibleAllWs(s: string)
    requires AllWs(s)
    ensures Visible(s) == []
  {
    if s != [] {
      VisibleAllWs(s[1..]);
    }
  }

  /** The length of the leading whitespace run. */
  function LeadingWs(s: string): (k: nat)
    ensures k <= |s| && (k < |s| ==> !IsWs(s[k]))
    ensures forall i :: 0 <= i < k ==> IsWs(s[i])
  {
    if s != [] && IsWs(s[0]) then 1 + LeadingWs(s[1..]) else 0
  }

  /** The length of the trailing whitespace run. */
  function TrailingWs(s: string): (k: nat)
    ensures k <= |s| && (k < |s| ==> !IsWs(s[|s| - 1 - k]))
    ensures forall i :: |s| - k <= i < |s| ==> IsWs(s[i])
  {
    if s != [] && IsWs(s[|s| - 1]) then 1 + TrailingWs(s[..|s| - 1]) else 0
  }

  /** `trimStart`: drops the leading whitespace and nothing else. */
  function TrimStart(s: string): string {
    s[LeadingWs(s)..]
  }

  /** `trimEnd`: drops the trailing whitespace and nothing else. */
  function TrimEnd(s: string): string {
    s[..|s| - TrailingWs(s)]
  }

  /** `String.prototype.trim`. */
  function Trim(s: string): string {
    TrimEnd(TrimStart(s))
  }

  /** Dropping whitespace at the front of a string keeps its visible characters. */
  lemma TrimStartVisible(s: string)
    ensures Visible(TrimStart(s)) == Visible(s)
  {
    var a := TrimStart(s);
    var p := s[..|s| - |a|];
    assert s == p + a;
    VisibleAppend(p, a);
    VisibleAllWs(p);
  }

  lemma TrimEndVisible(a: string)
    ensures Visible(TrimEnd(a)) == Visible(a)
  {
    var r := TrimEnd(a);
    var q := a[|r|..];
    assert a == r + q;
    VisibleAppend(r, q);
    VisibleAllWs(q);
  }

  /** Trimming removes whitespace at both ends and keeps every other character,
      and what it keeps is one contiguous piece of the input. */
  lemma TrimProperties(s: string)
    ensures Trimmed(Trim(s))
    ensures Visible(Trim(s)) == Visible(s)
    ensures Includes(s, Trim(s))
  {
    var a := TrimStart(s);
    TrimStartVisible(s);
    TrimEndVisible(a);
    var r := TrimEnd(a);
    var i := |s| - |a|;
    assert r == s[i..i + |r|];
    assert OccursAt(s, r, i);
  }

  /** A contiguous piece of a string keeps its "normalised whitespace" properties. */
  lemma SliceKeepsShape(s: string, i: nat, j: nat)
    requires i <= j <= |s|
    requires NoAdjacentWs(s) && WsAreSpaces(s)
    ensures NoAdjacentWs(s[i..j]) && WsAreSpaces(s[i..j])
  {
    var t := s[i..j];
    forall k | 0 < k < |t| ensures !WsPairAt(t, k) {
      assert t[k - 1] == s[i + k - 1] && t[k] == s[i + k];
      assert !WsPairAt(s, i + k);
    }
    forall k | 0 <= k < |t| && IsWs(t[k]) ensures t[k] == ' ' {
      assert t[k] == s[i + k];
    }
  }

  /** `s.replace(/\s+/g, ' ')`: every maximal run of whitespace becomes one space. */
  function Collapse(s: string): (r: string)
    ensures NoAdjacentWs(r) && WsAreSpaces(r)
    ensures (r == []) == (s == [])
    ensures r != [] ==> IsWs(r[0]) == IsWs(s[0])
    decreases |s|
  {
    if s == [] then []
    else if IsWs(s[0]) then
      var t := TrimStart(s);
      var r := Collapse(t);
      assert r == [] || !IsWs(r[0]) by {
        assert t == [] || t[0] == s[LeadingWs(s)];
      }
      ConsKeepsShape(' ', r);
      " " + r
    else
      var r := Collapse(s[1..]);
      ConsKeepsShape(s[0], r);
      [s[0]] + r
  }

  /** Putting a visible character, or a space before a visible character, in front
      of a normalised string keeps it normalised. */
  lemma ConsKeepsShape(c: char, x: string)
    requires NoAdjacentWs(x) && WsAreSpaces(x)
    requires IsWs(c) ==> c == ' ' && (x == [] || !IsWs(x[0]))
    ensures NoAdjacentWs([c] + x) && WsAreSpaces([c] + x)
  {
    var y := [c] + x;
    forall i | 0 < i < |y| ensures !WsPairAt(y, i) {
      if i > 1 {
        assert y[i - 1] == x[i - 2] && y[i] == x[i - 1];
        assert !WsPairAt(x, i - 1);
      }
    }
  }

  lemma {:induction false} CollapseKeepsVisible(s: string)
    ensures Visible(Collapse(s)) == Visible(s)
    decreases |s|
  {
    if s == [] {
    } else if IsWs(s[0]) {
      var t := TrimStart(s);
      CollapseKeepsVisible(t);
      VisibleAppend(" ", Collapse(t));
      assert s == s[..|s| - |t|] + t;
      VisibleAppend(s[..|s| - |t|], t);
      VisibleAllWs(s[..|s| - |t|]);
    } else {
      CollapseKeepsVisible(s[1..]);
      VisibleAppend([s[0]], Collapse(s[1..]));
    }
  }

  lemma {:induction false} CollapseWord(w: string, x: string)
    requires NoWs(w)
    ensures Collapse(w + x) == w + Collapse(x)
  {
    if w != [] {
      assert (w + x)[0] == w[0] && !IsWs(w[0]);
      assert (w + x)[1..] == w[1..] + x;
      CollapseWord(w[1..], x);
      assert w == [w[0]] + w[1..];
    } else {
      assert w + x == x;
    }
  }

  /** The length of the leading run of non-whitespace characters. */
  function WordLen(s: string): (k: nat)
    ensures k <= |s| && (k < |s| ==> IsWs(s[k]))
    ensures forall i :: 0 <= i < k ==> !IsWs(s[i])
  {
    if s == [] || IsWs(s[0]) then 0 else 1 + WordLen(s[1..])
  }

  /** The longest whitespace-free prefix. */
  function NonWsPrefix(s: string): string {
    s[..WordLen(s)]
  }

  /** A token list as `split(/\s+/)` produces it: never empty, no token holds
      whitespace, and only the first and the last token may be empty. */
  predicate WellFormed(ts: seq<string>) {
    && |ts| >= 1
    && (forall i :: 0 <= i < |ts| ==> NoWs(ts[i]))
    && (forall i :: 0 < i < |ts| - 1 ==> ts[i] != [])
  }

  /** `s.split(/\s+/)`: the pieces between maximal whitespace runs; a leading
      (trailing) run yields an empty first (last) piece, and `""` yields `[""]`. */
  function Split(s: string): (ts: seq<string>)
    ensures WellFormed(ts)
    ensures ts[0] == NonWsPrefix(s)
    decreases |s|
  {
    var w := NonWsPrefix(s);
    if |w| == |s| then [w]
    else
      var t := TrimStart(s[|w|..]);
      assert t == [] || NonWsPrefix(t) != [];
      [w] + Split(t)
  }

  /** `ts.join(sep)`. */
  function Join(ts: seq<string>, sep: string): string {
    if |ts| == 0 then [] else if |ts| == 1 then ts[0] else ts[0] + sep + Join(ts[1..], sep)
  }

  lemma {:induction false} NonWsPrefixOf(w: string, y: string)
    requires NoWs(w)
    requires y == [] || IsWs(y[0])
    ensures NonWsPrefix(w + y) == w
  {
    if w != [] {
      assert (w + y)[1..] == w[1..] + y;
      NonWsPrefixOf(w[1..], y);
    } else {
      assert w + y == y;
    }
  }

  lemma {:induction false} TrimStartOf(r: string, u: string)
    requires AllWs(r)
    requires u == [] || !IsWs(u[0])
    ensures TrimStart(r + u) == u
  {
    if r != [] {
      assert (r + u)[1..] == r[1..] + u;
      TrimStartOf(r[1..], u);
    } else {
      assert r + u == u;
    }
  }

  lemma SplitWord(w: string)
    requires NoWs(w)
    ensures Split(w) == [w]
  {
    NonWsPrefixOf(w, []);
    assert w + [] == w;
  }

  /** The defining step of the split: a word, a whitespace run, the rest. */
  lemma SplitCons(w: string, r: string, u: string)
    requires NoWs(w) && r != [] && AllWs(r)
    requires u == [] || !IsWs(u[0])
    ensures Split(w + r + u) == [w] + Split(u)
  {
    var s := w + r + u;
    assert s == w + (r + u);
    NonWsPrefixOf(w, r + u);
    assert s[|w|..] == r + u;
    TrimStartOf(r, u);
  }

  /** One step of the split: the first word, then the split of what follows
      the whitespace run after it. */
  lemma SplitStep(s: string)
    requires |NonWsPrefix(s)| < |s|
    ensures Split(s) == [NonWsPrefix(s)] + Split(TrimStart(s[|NonWsPrefix(s)|..]))
  {
  }

  lemma CollapseWsHead(rest: string)
    requires rest != [] && IsWs(rest[0])
    ensures Collapse(rest) == " " + Collapse(TrimStart(rest))
  {
  }

  lemma CollapseAfterWord(s: string, w: string, rest: string)
    requires s == w + rest && NoWs(w)
    ensures Collapse(s) == w + Collapse(rest)
  {
    CollapseWord(w, rest);
  }

  /** One step of the collapse, in the same shape as `SplitStep`. */
  lemma CollapseStep(s: string)
    requires |NonWsPrefix(s)| < |s|
    ensures Collapse(s) == NonWsPrefix(s) + (" " + Collapse(TrimStart(s[|NonWsPrefix(s)|..])))
  {
    var w := NonWsPrefix(s);
    var rest := s[|w|..];
    assert s == w + rest;
    CollapseAfterWord(s, w, rest);
    CollapseWsHead(rest);
  }

  lemma JoinCons(w: string, ts: seq<string>, sep: string)
    requires |ts| >= 1
    ensures Join([w] + ts, sep) == w + (sep + Join(ts, sep))
  {
    assert ([w] + ts)[0] == w && ([w] + ts)[1..] == ts;
  }

  /** Joining split tokens with one space is the same as collapsing whitespace runs:
      `s.split(/\s+/).join(' ') == s.replace(/\s+/g, ' ')`. */
  lemma {:induction false} JoinSplitIsCollapse(s: string)
    ensures Join(Split(s), " ") == Collapse(s)
    decreases |s|
  {
    var w := NonWsPrefix(s);
    if |w| == |s| {
      assert w == s;
      CollapseWord(s, []);
      assert s + [] == s;
    } else {
      var t := TrimStart(s[|w|..]);
      SplitStep(s);
      CollapseStep(s);
      JoinCons(w, Split(t), " ");
      JoinSplitIsCollapse(t);
    }
  }

  /** Splitting undoes joining with one space, for any token list `split` can produce. */
  lemma {:induction false} SplitJoinRoundTrip(ts: seq<string>)
    requires WellFormed(ts)
    ensures Split(Join(ts, " ")) == ts
  {
    if |ts| == 1 {
      SplitWord(ts[0]);
    } else {
      TailWellFormed(ts);
      SplitJoinRoundTrip(ts[1..]);
      SplitJoinCons(ts);
    }
  }

  /** The inductive step of the round trip: the first token, one space, the rest. */
  lemma SplitJoinCons(ts: seq<string>)
    requires WellFormed(ts) && |ts| > 1
    requires Split(Join(ts[1..], " ")) == ts[1..]
    ensures Split(Join(ts, " ")) == ts
  {
    var w, tail := ts[0], ts[1..];
    var u := Join(tail, " ");
    assert |tail| > 1 ==> tail[0] != [] by {
      if |tail| > 1 { assert tail[0] == ts[1]; }
    }
    TailWellFormed(ts);
    JoinStartsVisible(tail);
    assert AllWs(" ");
    SplitCons(w, " ", u);
    assert Join(ts, " ") == w + " " + u;
    assert ts == [w] + tail;
  }

  lemma TailWellFormed(ts: seq<string>)
    requires WellFormed(ts) && |ts| > 1
    ensures WellFormed(ts[1..])
  {
    var tail := ts[1..];
    forall i | 0 < i < |tail| - 1 ensures tail[i] != [] {
      assert tail[i] == ts[i + 1];
    }
    forall i | 0 <= i < |tail| ensures NoWs(tail[i]) {
      assert tail[i] == ts[i + 1];
    }
  }

  /** A space-joined well-formed list does not start with whitespace. */
  lemma JoinStartsVisible(ts: seq<string>)
    requires WellFormed(ts) && (|ts| > 1 ==> ts[0] != [])
    ensures Join(ts, " ") == [] || !IsWs(Join(ts, " ")[0])
  {
    if |ts| > 1 {
      assert Join(ts, " ")[0] == ts[0][0];
    }
  }

  /** Drops an empty first token (the one a leading whitespace run produces). */
  function DropLeading(ts: seq<string>): seq<string> {
    if |ts| > 1 && ts[0] == [] then ts[1..] else ts
  }

  /** Drops an empty last token (the one a trailing whitespace run produces). */
  function DropTrailing(ts: seq<string>): seq<string> {
    if |ts| > 1 && ts[|ts| - 1] == [] then ts[..|ts| - 1] else ts
  }

  /** The tokens `split` yields once leading and trailing whitespace are gone. */
  function Inner(ts: seq<string>): seq<string> {
    DropTrailing(DropLeading(ts))
  }

  lemma SplitTrimStart(s: string)
    ensures Split(TrimStart(s)) == DropLeading(Split(s))
  {
  }

  lemma {:induction false} TrimEndAllWs(x: string, r: string)
    requires AllWs(r)
    ensures TrimEnd(x + r) == TrimEnd(x)
    decreases |r|
  {
    if r != [] {
      var r' := r[..|r| - 1];
      assert (x + r)[..|x + r| - 1] == x + r';
      TrimEndAllWs(x, r');
    } else {
      assert x + r == x;
    }
  }

  lemma {:induction false} TrimEndAppend(x: string, y: string)
    requires TrimEnd(y) != []
    ensures TrimEnd(x + y) == x + TrimEnd(y)
    decreases |y|
  {
    if IsWs(y[|y| - 1]) {
      var y' := y[..|y| - 1];
      assert (x + y)[..|x + y| - 1] == x + y';
      TrimEndAppend(x, y');
    }
  }

  /** A string whose first word is followed by more: the word, the whitespace
      run after it, and the rest starting with a visible character (or empty). */
  lemma Decompose(s: string)
    requires |NonWsPrefix(s)| < |s|
    ensures var w := NonWsPrefix(s);
            var rest := s[|w|..];
            var t := TrimStart(rest);
            var r := rest[..|rest| - |t|];
            && s == w + r + t && r != [] && AllWs(r)
  {
    var w := NonWsPrefix(s);
    var rest := s[|w|..];
    var t := TrimStart(rest);
    var r := rest[..|rest| - |t|];
    assert rest == r + t;
    assert s == w + rest;
  }

  lemma TrimEndKeepsHead(t: string)
    requires t != [] && !IsWs(t[0])
    ensures TrimEnd(t) != [] && TrimEnd(t)[0] == t[0]
  {
  }

  lemma TrimEndWord(w: string)
    requires NoWs(w)
    ensures TrimEnd(w) == w
  {
  }

  lemma DropTrailingCons(w: string, ts: seq<string>)
    requires |ts| >= 1 && ts[0] != []
    ensures DropTrailing([w] + ts) == [w] + DropTrailing(ts)
  {
    if |ts| > 1 && ts[|ts| - 1] == [] {
      assert ([w] + ts)[..|ts|] == [w] + ts[..|ts| - 1];
    }
  }

  lemma {:induction false} SplitTrimEnd(s: string)
    ensures Split(TrimEnd(s)) == DropTrailing(Split(s))
    decreases |s|
  {
    var w := NonWsPrefix(s);
    if |w| == |s| {
      assert w == s;
      TrimEndWord(s);
    } else {
      var rest := s[|w|..];
      var t := TrimStart(rest);
      var r := rest[..|rest| - |t|];
      Decompose(s);
      SplitStep(s);
      if t == [] {
        assert s == w + r;
        TrimEndAllWs(w, r);
        TrimEndWord(w);
        SplitWord(w);
      } else {
        var u := TrimEnd(t);
        TrimEndKeepsHead(t);
        TrimEndAppend(w + r, t);
        SplitCons(w, r, u);
        SplitTrimEnd(t);
        DropTrailingCons(w, Split(t));
      }
    }
  }

  /** Trimming, then splitting, gives the split tokens without the empty ends. */
  lemma SplitTrim(s: string)
    ensures Split(Trim(s)) == Inner(Split(s))
  {
    SplitTrimStart(s);
    SplitTrimEnd(TrimStart(s));
  }

  lemma InnerShape(ts: seq<string>)
    requires WellFormed(ts)
    ensures WellFormed(Inner(ts)) && |Inner(ts)| <= |ts|
  {
    var a := DropLeading(ts);
    assert WellFormed(a) by {
      if a != ts {
        forall i | 0 < i < |a| - 1 ensures a[i] != [] {
          assert a[i] == ts[i + 1];
        }
      }
    }
    var b := DropTrailing(a);
    assert WellFormed(b) by {
      if b != a {
        forall i | 0 < i < |b| - 1 ensures b[i] != [] {
          assert b[i] == a[i];
        }
      }
    }
  }

  /** `ts.slice(0, n)`. */
  function Take<T>(ts: seq<T>, n: nat): (r: seq<T>)
    ensures |r| == if n <= |ts| then n else |ts|
    ensures r <= ts
  {
    if n <= |ts| then ts[..n] else ts
  }

  lemma TakeWellFormed(ts: seq<string>, n: nat)
    requires WellFormed(ts) && n >= 1
    ensures WellFormed(Take(ts, n))
  {
    var p := Take(ts, n);
    forall i | 0 < i < |p| - 1 ensures p[i] != [] {
      assert p[i] == ts[i];
    }
  }

  lemma {:induction false} JoinTakePrefix(ts: seq<string>, n: nat, sep: string)
    requires n >= 1
    ensures Join(Take(ts, n), sep) <= Join(ts, sep)
  {
    if n < |ts| && |ts| > 1 {
      var tail := Join(ts[1..], sep);
      assert Join(ts, sep) == ts[0] + (sep + tail);
      if n == 1 {
        assert Take(ts, n) == [ts[0]];
        assert Join(ts, sep) == ts[0] + (sep + tail);
      } else {
        JoinTakePrefix(ts[1..], n - 1, sep);
        var p := Take(ts, n);
        assert p[0] == ts[0] && p[1..] == Take(ts[1..], n - 1);
        var q := Join(Take(ts[1..], n - 1), sep);
        assert Join(p, sep) == ts[0] + (sep + q);
        PrefixAppend(sep, q, tail);
        PrefixAppend(ts[0], sep + q, sep + tail);
      }
    } else {
      assert Take(ts, n) == ts;
    }
  }

  lemma PrefixAppend(a: string, x: string, y: string)
    requires x <= y
    ensures a + x <= a + y
  {
    assert a + y == (a + x) + y[|x|..];
  }

  /** The number of occurrences of a character. */
  function Count(c: char, s: string): nat {
    if s == [] then 0 else (if s[0] == c then 1 else 0) + Count(c, s[1..])
  }

  lemma {:induction false} CountAppend(c: char, a: string, b: string)
    ensures Count(c, a + b) == Count(c, a) + Count(c, b)
  {
    if a != [] {
      assert (a + b)[0] == a[0] && (a + b)[1..] == a[1..] + b;
      CountAppend(c, a[1..], b);
    } else {
      assert a + b == b;
    }
  }

  /** The total number of occurrences of a character over a list of strings. */
  function CountAll(c: char, ts: seq<string>): nat {
    if ts == [] then 0 else Count(c, ts[0]) + CountAll(c, ts[1..])
  }

  /** The total length of a list of strings. */
  function TotalLength(ts: seq<string>): nat {
    if ts == [] then 0 else |ts[0]| + TotalLength(ts[1..])
  }

  /** Joining n pieces with a one-character separator adds exactly n - 1 copies of it
      and nothing else: the length and the separator count add up. */
  lemma {:induction false} JoinCounts(ts: seq<string>, c: char)
    requires |ts| >= 1
    ensures Count(c, Join(ts, [c])) == CountAll(c, ts) + |ts| - 1
    ensures |Join(ts, [c])| == TotalLength(ts) + |ts| - 1
  {
    if |ts| > 1 {
      JoinCounts(ts[1..], c);
      CountAppend(c, ts[0], [c]);
      CountAppend(c, ts[0] + [c], Join(ts[1..], [c]));
    }
  }

  /** The character for a decimal digit. */
  function DigitChar(d: nat): (c: char)
    requires d < 10
    ensures '0' <= c <= '9' && (c as int) - ('0' as int) == d
  {
    (('0' as int) + d) as char
  }

  predicate IsDigit(c: char) {
    '0' <= c <= '9'
  }

  predicate AllDigits(s: string) {
    forall i :: 0 <= i < |s| ==> IsDigit(s[i])
  }

  /** `String(n)` for a non-negative integer: its decimal digits, without leading zeros. */
  function Decimal(n: nat): (r: string)
    ensures |r| >= 1 && AllDigits(r)
    ensures r[0] == '0' ==> n == 0
  {
    if n < 10 then [DigitChar(n)] else Decimal(n / 10) + [DigitChar(n % 10)]
  }

  /** Reads a string of decimal digits back as a number. */
  function DigitsValue(s: string): nat
    requires AllDigits(s)
  {
    if s == [] then 0 else 10 * DigitsValue(s[..|s| - 1]) + ((s[|s| - 1] as int) - ('0' as int))
  }

  /** Rendering a status code and reading it back gives the same number. */
  lemma {:induction false} DecimalRoundTrip(n: nat)
    ensures DigitsValue(Decimal(n)) == n
  {
    if n >= 10 {
      DecimalRoundTrip(n / 10);
      var d := Decimal(n);
      assert d[..|d| - 1] == Decimal(n / 10);
    }
  }

  /** `sub` occurs in `s` at offset `i`. */
  predicate OccursAt(s: string, sub: string, i: nat) {
    i + |sub| <= |s| && s[i..i + |sub|] == sub
  }

  /** `s.includes(sub)`. */
  predicate Includes(s: string, sub: string) {
    exists i | 0 <= i <= |s| :: OccursAt(s, sub, i)
  }

  /** A string includes whatever was concatenated into it. */
  lemma IncludesMiddle(a: string, b: string, c: string)
    ensures Includes(a + b + c, b)
  {
    assert OccursAt(a + b + c, b, |a|);
  }

  /** `toLowerCase` on the ASCII letters. */
  function LowerChar(c: char): (d: char)
    ensures 'A' <= c <= 'Z' ==> 'a' <= d <= 'z' && (d as int) - (c as int) == 32
    ensures !('A' <= c <= 'Z') ==> d == c
  {
    if 'A' <= c <= 'Z' then ((c as int) + 32) as char else c
  }

  /** `s.toLowerCase()`, character by character. */
  function Lower(s: string): (r: string)
    ensures |r| == |s|
    ensures forall i :: 0 <= i < |s| ==> r[i] == LowerChar(s[i])
  {
    if s == [] then [] else [LowerChar(s[0])] + Lower(s[1..])
  }

  /** Lower-casing twice is lower-casing once. */
  lemma LowerIdempotent(s: string)
    ensures Lower(Lower(s)) == Lower(s)
  {
  }
}
