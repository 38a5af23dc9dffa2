/**
 * The input hook: the text being analysed, the chosen input method, the
 * free-form target-keyword string and the text statistics, plus the
 * comma-separated keyword list derived from the keyword string.
 */
module InputManagement {
  import opened JsStrings

  /** Word, sentence and character counts of a text. */
  datatype TextStats = TextStats(wordCount: nat, sentenceCount: nat, charCount: nat)

  /** The two input methods this hook's state admits. */
  datatype InputMethod = TextMethod | FileMethod

  const InitialStats := TextStats(0, 0, 0)

  /** `map(kw => kw.trim())`. */
  function TrimAll(parts: seq<string>): (r: seq<string>)
    ensures |r| == |parts|
    ensures forall i :: 0 <= i < |parts| ==> r[i] == Trim(parts[i])
  {
    if parts == [] then [] else [Trim(parts[0])] + TrimAll(parts[1..])
  }

  /** `filter(Boolean)` on strings: keeps the non-empty ones, in order. */
  function DropEmpty(xs: seq<string>): (r: seq<string>)
    ensures |r| <= |xs|
    ensures forall k <- r :: k != [] && k in xs
  {
    if xs == [] then []
    else DropEmpty(xs[..|xs| - 1]) + (if xs[|xs| - 1] == [] then [] else [xs[|xs| - 1]])
  }

  /** The positions in `xs` that `DropEmpty` keeps, in increasing order. */
  function KeptIndices(xs: seq<string>): seq<nat>
  {
    if xs == [] then []
    else KeptIndices(xs[..|xs| - 1]) + (if xs[|xs| - 1] == [] then [] else [|xs| - 1])
  }

  /**
   * `r` is the non-empty elements of `xs` in order: its k-th element is
   * `xs[idx[k]]` for strictly increasing positions `idx`, and a position is
   * among them exactly when its element is non-empty.
   */
  ghost predicate SelectsNonEmpty(xs: seq<string>, idx: seq<nat>, r: seq<string>) {
    && |idx| == |r|
    && (forall k :: 0 <= k < |idx| ==> idx[k] < |xs| && r[k] == xs[idx[k]])
    && (forall a, b :: 0 <= a < b < |idx| ==> idx[a] < idx[b])
    && (forall i :: 0 <= i < |xs| ==> (i in idx <==> xs[i] != []))
  }

  /** `DropEmpty` is an order-preserving selection of the non-empty elements. */
  lemma {:induction false} DropEmptySelects(xs: seq<string>)
    ensures SelectsNonEmpty(xs, KeptIndices(xs), DropEmpty(xs))
  {
    if xs != [] {
      var init, last := xs[..|xs| - 1], xs[|xs| - 1];
      DropEmptySelects(init);
      var r, idx := DropEmpty(xs), KeptIndices(xs);
      var r0, idx0 := DropEmpty(init), KeptIndices(init);
      assert r == r0 + (if last == [] then [] else [last]);
      assert idx == idx0 + (if last == [] then [] else [|xs| - 1]);
      assert forall k :: 0 <= k < |idx0| ==> idx0[k] < |init|;
      forall i | 0 <= i < |xs|
        ensures i in idx <==> xs[i] != []
      {
        if i < |init| {
          assert xs[i] == init[i];
          assert i in idx <==> i in idx0;
        }
      }
    }
  }

  /** Trimming comma-free segments gives trimmed, comma-free strings. */
  lemma TrimmedSegmentsAreClean(segments: seq<string>)
    requires forall p <- segments :: ',' !in p
    ensures forall k <- TrimAll(segments) :: IsTrimmed(k) && ',' !in k
  {
    var pieces := TrimAll(segments);
    forall i | 0 <= i < |pieces| ensures ',' !in pieces[i] {
      assert segments[i] in segments;
      TrimKeepsAbsent(segments[i], ',');
    }
  }

  /** `targetKeywords.split(',').map(kw => kw.trim()).filter(Boolean)`. */
  function KeywordsList(targetKeywords: string): (keywords: seq<string>)
    ensures forall k <- keywords :: k != [] && IsTrimmed(k) && ',' !in k
    ensures |keywords| <= CountChar(targetKeywords, ',') + 1
  {
    var segments := Split(targetKeywords, ',');
    TrimmedSegmentsAreClean(segments);
    DropEmpty(TrimAll(segments))
  }

  /**
   * The keyword list keeps the segments' order: its k-th element is the trim
   * of segment `idx[k]` of the comma split, for strictly increasing `idx`,
   * and a segment contributes exactly when its trim is non-empty.
   */
  lemma KeywordsListFollowsSegments(targetKeywords: string) returns (idx: seq<nat>)
    ensures var segments, keywords := Split(targetKeywords, ','), KeywordsList(targetKeywords);
      && |idx| == |keywords|
      && (forall k :: 0 <= k < |idx| ==> idx[k] < |segments| && keywords[k] == Trim(segments[idx[k]]))
      && (forall a, b :: 0 <= a < b < |idx| ==> idx[a] < idx[b])
      && (forall i :: 0 <= i < |segments| ==> (i in idx <==> Trim(segments[i]) != []))
  {
    var segments := Split(targetKeywords, ',');
    var pieces := TrimAll(segments);
    var keywords := KeywordsList(targetKeywords);
    assert keywords == DropEmpty(pieces);
    idx := KeptIndices(pieces);
    DropEmptySelects(pieces);
    assert SelectsNonEmpty(pieces, idx, keywords);
    forall k | 0 <= k < |idx|
      ensures idx[k] < |segments| && keywords[k] == Trim(segments[idx[k]])
    {
      assert keywords[k] == pieces[idx[k]];
    }
    forall i | 0 <= i < |segments|
      ensures i in idx <==> Trim(segments[i]) != []
    {
      assert pieces[i] == Trim(segments[i]);
    }
  }

  /** Without a comma the list is empty or the single trimmed input. */
  lemma KeywordsListWithoutComma(targetKeywords: string)
    requires ',' !in targetKeywords
    ensures KeywordsList(targetKeywords) == if Trim(targetKeywords) == [] then [] else [Trim(targetKeywords)]
  {
    SplitNoSeparator(targetKeywords, ',');
    assert TrimAll([targetKeywords]) == [Trim(targetKeywords)];
  }

  /** The hook's state; `calculate` is the statistics function it delegates to. */
  class InputState {
    var text: string
    var inputMethod: InputMethod
    var targetKeywords: string
    var textStats: TextStats
    const calculate: string -> TextStats

    /** Initial state: empty text and keywords, text input, all counts zero. */
    constructor (calculate: string -> TextStats)
      ensures text == [] && inputMethod == TextMethod && targetKeywords == []
      ensures textStats == InitialStats
      ensures this.calculate == calculate
    {
      text := [];
      inputMethod := TextMethod;
      targetKeywords := [];
      textStats := InitialStats;
      this.calculate := calculate;
    }

    method SetText(t: string)
      modifies this`text
      ensures text == t
    {
      text := t;
    }

    method SetInputMethod(m: InputMethod)
      modifies this`inputMethod
      ensures inputMethod == m
    {
      inputMethod := m;
    }

    method SetTargetKeywords(k: string)
      modifies this`targetKeywords
      ensures targetKeywords == k
    {
      targetKeywords := k;
    }

    /** Recomputes the statistics of `t`, stores them and returns the stored value. */
    method UpdateTextStats(t: string) returns (stats: TextStats)
      modifies this`textStats
      ensures stats == calculate(t)
      ensures textStats == stats
    {
      stats := calculate(t);
      textStats := stats;
    }

    /** The keyword list of the current keyword string. */
    function TargetKeywordsList(): (keywords: seq<string>)
      reads this
      ensures forall k <- keywords :: k != [] && IsTrimmed(k)
      ensures keywords == KeywordsList(targetKeywords)
    {
      KeywordsList(targetKeywords)
    }
  }
}
