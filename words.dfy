/**
 * Word counting and the per-record word cap shared by the search clients:
 * `countWords = str.trim().split(/\s+/).length`, and the cut
 * `text.split(/\s+/).slice(0, MAX_WORDS).join(' ') + '...'`.
 */
module Words {
  import opened JsText

  /** `countWords(str)`. Never below one: `"".split(/\s+/)` is `[""]`. */
  function CountWords(s: string): (n: nat)
    ensures n >= 1
  {
    |Split(Trim(s))|
  }

  /** The word count is the number of split tokens once the empty first and last
      tokens produced by leading and trailing whitespace are dropped. */
  lemma CountWordsIsInner(s: string)
    ensures CountWords(s) == |Inner(Split(s))|
  {
    SplitTrim(s);
  }

  /** The empty string and every all-whitespace string count as one word. */
  lemma CountWordsBlank(s: string)
    requires AllWs(s)
    ensures CountWords(s) == 1
  {
    assert TrimStart(s) == [];
  }

  /** Space-joined tokens: at most as many words as tokens. */
  lemma CountWordsOfJoin(ts: seq<string>)
    requires WellFormed(ts)
    ensures CountWords(Join(ts, " ")) == |Inner(ts)| <= |ts|
  {
    CountWordsIsInner(Join(ts, " "));
    SplitJoinRoundTrip(ts);
    InnerShape(ts);
  }

  /** The word count never exceeds the number of split tokens. */
  lemma WordsAtMostTokens(s: string)
    ensures CountWords(s) <= |Split(s)|
  {
    CountWordsIsInner(s);
    InnerShape(Split(s));
  }

  /** The part of an over-long text that the cut keeps: its first `max` split
      tokens, joined by single spaces. */
  function KeptWords(text: string, max: nat): string {
    Join(Take(Split(text), max), " ")
  }

  /** The per-record cut: a text of more than `max` words becomes its kept part
      followed by `...`; any other text is returned as it is. */
  function CapWords(text: string, max: nat): string {
    if CountWords(text) > max then KeptWords(text, max) + "..." else text
  }

  /** What the cut promises: a text within the cap is untouched; a longer one becomes
      exactly its first `max` tokens, followed by `...`, where the kept part carries at
      most `max` words and is a prefix of the text with its whitespace normalised. */
  lemma CapWordsSpec(text: string, max: nat)
    requires max >= 1
    ensures CountWords(text) <= max ==> CapWords(text, max) == text
    ensures CountWords(text) > max ==>
      && CapWords(text, max) == KeptWords(text, max) + "..."
      && |Split(text)| >= max
      && Split(KeptWords(text, max)) == Split(text)[..max]
      && CountWords(KeptWords(text, max)) <= max
      && KeptWords(text, max) <= Collapse(text)
  {
    if CountWords(text) > max {
      var ts := Split(text);
      WordsAtMostTokens(text);
      var kept := ts[..max];
      assert Take(ts, max) == kept;
      TakeWellFormed(ts, max);
      SplitJoinRoundTrip(kept);
      CountWordsOfJoin(kept);
      JoinTakePrefix(ts, max, " ");
      JoinSplitIsCollapse(text);
    }
  }
}
