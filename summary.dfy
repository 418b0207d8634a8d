/** `generateSummary` in server.js: the text is cut into sentences at runs of
    `.`, `!` and `?`; sentences whose trimmed text is longer than ten
    characters are eligible; up to five of them, evenly strided, become the
    bullets (a fixed four-bullet text when none is eligible); the result carries
    the bulleted summary, the key terms, both word counts and the compression
    percentage. */
module Summarizer {
  import opened Builtins
  import opened KeyTerms

  /** How many bullets the summary has at most. */
  const MaxBullets := 5

  predicate IsSentenceMark(c: char) { c == '.' || c == '!' || c == '?' }

  /** `text.split(/[.!?]+/)`. */
  function Fragments(text: string): seq<string> {
    Split(text, IsSentenceMark)
  }

  /** The filter `s => s.trim().length > 10`. */
  predicate IsEligible(s: string) {
    |Trim(s)| > 10
  }

  /** The eligible fragments, in order. */
  function Eligible(frags: seq<string>): (r: seq<string>)
    ensures |r| <= |frags|
    ensures forall k :: 0 <= k < |r| ==> IsEligible(r[k]) && r[k] in frags
  {
    if frags == [] then []
    else (if IsEligible(frags[0]) then [frags[0]] else []) + Eligible(frags[1..])
  }

  /** The filter keeps every eligible fragment. */
  lemma {:induction false} EligibleKeepsAll(frags: seq<string>)
    ensures forall s :: s in frags && IsEligible(s) ==> s in Eligible(frags)
  {
    if frags != [] {
      EligibleKeepsAll(frags[1..]);
      assert frags == [frags[0]] + frags[1..];
    }
  }

  /** The `sentences` of `generateSummary`. */
  function Sentences(text: string): seq<string> {
    Eligible(Fragments(text))
  }

  // ---------------------------------------------------------------- bullets

  /** `Math.max(1, Math.floor(n / 5))`. */
  function Step(n: nat): (step: nat)
    ensures step >= 1
  {
    Max(1, n / 5)
  }

  /** The index of the `k`-th sampled sentence out of `n`. */
  function SampleIndex(n: nat, k: nat): nat {
    k * Step(n)
  }

  /** Each of the first `min(5, n)` sample indices lies inside the sentence
      list; so the loop of `generateSummary` takes `min(5, n)` bullets. */
  lemma SampleIndexInRange(n: nat, k: nat)
    ensures k < Min(MaxBullets, n) ==> SampleIndex(n, k) < n
  {
    if n >= 10 && k < MaxBullets {
      assert 5 * (n / 5) <= n;
      assert k * (n / 5) <= 4 * (n / 5);
    }
  }

  /** The sampled bullets: the trimmed sentences at indices `0, step, 2*step, ...`. */
  function Sample(ss: seq<string>): (r: seq<string>)
    ensures |r| == Min(MaxBullets, |ss|)
  {
    seq(Min(MaxBullets, |ss|), k requires 0 <= k < Min(MaxBullets, |ss|) =>
      SampleIndexInRange(|ss|, k);
      Trim(ss[SampleIndex(|ss|, k)]))
  }

  /** The bullets used when no sentence is eligible. */
  function FallbackBullets(): seq<string> {
    [
      "The text discusses key concepts and their relationships",
      "Main ideas are presented with supporting evidence",
      "Practical applications are highlighted",
      "Important terminology is defined and explained"
    ]
  }

  /** The `bulletPoints` chosen for the eligible sentences `ss`. */
  function BulletsOf(ss: seq<string>): seq<string> {
    var sampled := if |ss| > 0 then Sample(ss) else [];
    if sampled == [] then FallbackBullets() else sampled
  }

  lemma SampleIndexNext(n: nat, k: nat)
    ensures SampleIndex(n, k + 1) == SampleIndex(n, k) + Step(n)
  {
  }

  /** Taking one more bullet extends the sample by the next strided sentence. */
  lemma SampleExtend(ss: seq<string>, bullets: seq<string>)
    requires |bullets| < Min(MaxBullets, |ss|) && bullets == Sample(ss)[..|bullets|]
    ensures SampleIndex(|ss|, |bullets|) < |ss|
    ensures bullets + [Trim(ss[SampleIndex(|ss|, |bullets|)])] == Sample(ss)[..|bullets| + 1]
  {
    SampleIndexInRange(|ss|, |bullets|);
  }

  /** The bullet-building part of `generateSummary`: the strided loop, then the
      fallback. */
  method BuildBullets(sentences: seq<string>) returns (bullets: seq<string>)
    ensures bullets == BulletsOf(sentences)
  {
    bullets := [];
    if |sentences| > 0 {
      var n := |sentences|;
      var step := Max(1, n / 5);
      var i := 0;
      while i < n && |bullets| < MaxBullets
        invariant i == SampleIndex(n, |bullets|)
        invariant |bullets| <= Min(MaxBullets, n)
        invariant bullets == Sample(sentences)[..|bullets|]
        decreases n - i
      {
        SampleIndexInRange(n, |bullets|);
        SampleExtend(sentences, bullets);
        SampleIndexNext(n, |bullets|);
        bullets := bullets + [Trim(sentences[i])];
        i := i + step;
      }
      SampleIndexInRange(n, |bullets|);
      assert bullets == Sample(sentences);
    }
    if |bullets| == 0 {
      bullets := FallbackBullets();
    }
  }

  /** The bullets of the summary of `text`. */
  function Bullets(text: string): seq<string> {
    BulletsOf(Sentences(text))
  }

  /** A summary has between one and five bullets. */
  lemma BulletCount(text: string)
    ensures 1 <= |Bullets(text)| <= MaxBullets
  {
  }

  /** A sentence holds no sentence mark, and neither does its trimmed text. */
  lemma SentenceHasNoMarks(text: string, s: string)
    requires s in Sentences(text)
    ensures forall i :: 0 <= i < |Trim(s)| ==> !IsSentenceMark(Trim(s)[i])
  {
    var frags := Fragments(text);
    var k :| 0 <= k < |Sentences(text)| && Sentences(text)[k] == s;
    assert s in frags;
    var f :| 0 <= f < |frags| && frags[f] == s;
    assert forall i :: 0 <= i < |s| ==> !IsSentenceMark(s[i]);
    TrimChars(s, IsSpace);
    forall i | 0 <= i < |Trim(s)| ensures !IsSentenceMark(Trim(s)[i]) {
      assert Trim(s)[i] in Trim(s);
    }
  }

  /** With no eligible sentence the summary is the fallback text; otherwise every
      bullet is the trimmed text of an eligible sentence: longer than ten
      characters and free of sentence marks. */
  lemma BulletsSource(text: string)
    ensures Sentences(text) == [] ==> Bullets(text) == FallbackBullets()
    ensures Sentences(text) != [] ==> Bullets(text) == Sample(Sentences(text))
    ensures Sentences(text) != [] ==> forall k :: 0 <= k < |Bullets(text)| ==>
              && (exists j :: 0 <= j < |Sentences(text)| && Bullets(text)[k] == Trim(Sentences(text)[j]))
              && |Bullets(text)[k]| > 10
              && (forall i :: 0 <= i < |Bullets(text)[k]| ==> !IsSentenceMark(Bullets(text)[k][i]))
  {
    var ss := Sentences(text);
    if ss != [] {
      var bullets := Sample(ss);
      forall k | 0 <= k < |bullets|
        ensures exists j :: 0 <= j < |ss| && bullets[k] == Trim(ss[j])
        ensures |bullets[k]| > 10
        ensures forall i :: 0 <= i < |bullets[k]| ==> !IsSentenceMark(bullets[k][i])
      {
        SampleIndexInRange(|ss|, k);
        var j := SampleIndex(|ss|, k);
        assert bullets[k] == Trim(ss[j]);
        SentenceHasNoMarks(text, ss[j]);
      }
      assert Bullets(text) == bullets;
    }
  }

  /** The bullets follow the document: the first bullet is the first eligible
      sentence, each later one comes from a later sentence, and when there are
      at most five eligible sentences every one of them is a bullet. */
  lemma SampleInDocumentOrder(ss: seq<string>)
    requires ss != []
    ensures Sample(ss)[0] == Trim(ss[0])
    ensures forall k :: 0 < k < |Sample(ss)| ==> SampleIndex(|ss|, k - 1) < SampleIndex(|ss|, k) < |ss|
    ensures |ss| <= MaxBullets ==> Sample(ss) == seq(|ss|, j requires 0 <= j < |ss| => Trim(ss[j]))
  {
    forall k | 0 < k < |Sample(ss)| ensures SampleIndex(|ss|, k - 1) < SampleIndex(|ss|, k) < |ss| {
      SampleIndexInRange(|ss|, k);
    }
  }

  // ---------------------------------------------------------------- rendering

  /** Each bullet with its `• ` prefix. */
  function Bulleted(bullets: seq<string>): (r: seq<string>)
    ensures |r| == |bullets|
  {
    seq(|bullets|, k requires 0 <= k < |bullets| => "• " + bullets[k])
  }

  /** The `summary` text: `bulletPoints.map(bp => `• ${bp}`).join('\n')`. */
  function Render(bullets: seq<string>): string {
    Join(Bulleted(bullets), "\n")
  }

  predicate IsNewline(c: char) { c == '\n' }

  /** The rendered summary splits back into its bullet lines, each the bullet
      behind `• `, as long as no bullet holds a line break. */
  lemma RenderLines(bullets: seq<string>)
    requires |bullets| >= 1
    requires forall k, i :: 0 <= k < |bullets| && 0 <= i < |bullets[k]| ==> bullets[k][i] != '\n'
    ensures Split(Render(bullets), IsNewline) == Bulleted(bullets)
    ensures forall k :: 0 <= k < |bullets| ==> Bulleted(bullets)[k][..2] == "• " && Bulleted(bullets)[k][2..] == bullets[k]
  {
    var lines := Bulleted(bullets);
    forall k, i | 0 <= k < |lines| && 0 <= i < |lines[k]| ensures !IsNewline(lines[k][i]) {
      if i >= 2 {
        assert lines[k][i] == bullets[k][i - 2];
      }
    }
    SplitJoin(lines, '\n', IsNewline);
  }

  // ---------------------------------------------------------------- counts

  /** `text.split(/\s+/).length`. */
  function WordCount(text: string): (r: nat)
    ensures r >= 1
  {
    |Split(text, IsSpace)|
  }

  /** `bulletPoints.join(' ').split(/\s+/).length`. */
  function SummaryWordCount(bullets: seq<string>): nat {
    WordCount(Join(bullets, " "))
  }

  /** `Math.round((1 - summaryWords / Math.max(originalWords, 1)) * 100)`, computed exactly. */
  function CompressionRatio(summaryWords: nat, originalWords: nat): int {
    var o := Max(originalWords, 1);
    RoundQuotient(100 * (o - summaryWords), o)
  }

  /** `r` is the integer nearest to `100 * (1 - s / o)`, halves rounded up. */
  predicate NearestRatio(r: int, s: int, o: int) {
    o * (2 * r - 1) <= 200 * (o - s) < o * (2 * r + 1)
  }

  /** The ratio is the integer nearest to `100 * (1 - s / o)`, at most 100 for a
      summary of at least one word, and negative exactly when the summary is
      longer than the text by more than half a percent of it. */
  lemma CompressionRatioBounds(s: nat, o: nat)
    requires o >= 1
    ensures var r := CompressionRatio(s, o);
            && NearestRatio(r, s, o)
            && (s >= 1 ==> r <= 100)
            && (r < 0 <==> 200 * (s - o) > o)
  {
    var r := CompressionRatio(s, o);
    RoundQuotientIsNearest(100 * (o - s), o);
    MulMonotone(o, 200, 2 * r - 1);
    if r < 0 {
      MulMonotone(o, 2 * r + 1, -1);
    } else {
      MulMonotone(o, 0, 2 * r);
    }
  }

  /** The object `generateSummary` returns. */
  datatype Summary = Summary(
    summary: string,
    keyTerms: seq<string>,
    originalWordCount: nat,
    summaryWordCount: nat,
    compressionRatio: string)

  /** The summary of `text`. */
  function SummaryOf(text: string): Summary {
    var bullets := Bullets(text);
    var words := WordCount(text);
    var summaryWords := SummaryWordCount(bullets);
    Summary(Render(bullets), KeyTermsOf(text), words, summaryWords,
            PercentText(CompressionRatio(summaryWords, words)))
  }

  /** `` `${n}%` ``. */
  function PercentText(n: int): string {
    IntText(n) + "%"
  }

  /** A percentage text ends in `%` and reads back as its number. */
  lemma PercentTextValue(n: int)
    ensures var t := PercentText(n); |t| >= 2 && t[|t| - 1] == '%' && IntValue(t[..|t| - 1]) == n
  {
    var t := PercentText(n);
    assert t[..|t| - 1] == IntText(n);
    IntTextValue(n);
  }

  /** The summary's percentage is the percentage text of a number `r` (which
      reads back as `r`, by `PercentTextValue`); `r` is the integer nearest to
      `100 * (1 - s / o)` for the summary's word count `s` and the text's word
      count `o`, both at least one. It is at most 100, and it is negative
      exactly when the summary has more words than the text by more than half
      a percent of it. */
  lemma SummaryRatio(text: string)
    ensures var summary := SummaryOf(text);
            var o, s := summary.originalWordCount, summary.summaryWordCount;
            var r := CompressionRatio(s, o);
            && o >= 1 && s >= 1
            && summary.compressionRatio == PercentText(r)
            && NearestRatio(r, s, o)
            && r <= 100
            && (r < 0 <==> 200 * (s - o) > o)
  {
    var summary := SummaryOf(text);
    CompressionRatioBounds(summary.summaryWordCount, summary.originalWordCount);
  }

  /** An empty text is one word, and its summary, the fallback bullets, more
      than one. */
  lemma EmptyTextCounts(text: string)
    requires text == ""
    ensures SummaryOf(text).originalWordCount == 1
    ensures SummaryOf(text).summaryWordCount >= 2
  {
    assert Sentences(text) == [];
    var bullets := FallbackBullets();
    JoinCons(bullets[0], bullets[1..], " ");
    assert [bullets[0]] + bullets[1..] == bullets;
    var joined := Join(bullets, " ");
    assert joined[|bullets[0]|] == ' ';
    SplitWithSeparatorHasTwo(joined, |bullets[0]|, IsSpace);
  }

  /** Against a text of one word the ratio is exact: `100 * (1 - s)`. */
  lemma RatioOfOneWord(s: nat)
    ensures CompressionRatio(s, 1) == 100 - 100 * s
  {
    var p := 100 * (1 - s);
    assert (2 * p + 1) / 2 == p;
  }

  /** So the compression ratio of an empty text is negative: it is the
      percentage text of `100 - 100 * s` for the `s` words of the fallback
      bullets, at most -100. */
  lemma EmptyTextRatio(text: string)
    requires text == ""
    ensures var summary := SummaryOf(text);
            var s := summary.summaryWordCount;
            && summary.compressionRatio == PercentText(CompressionRatio(s, 1))
            && CompressionRatio(s, 1) == 100 - 100 * s <= -100
  {
    EmptyTextCounts(text);
    RatioOfOneWord(SummaryOf(text).summaryWordCount);
  }

  method GenerateSummary(text: string) returns (r: Summary)
    ensures r == SummaryOf(text)
  {
    var bullets := BuildBullets(Sentences(text));
    var keyTerms := ExtractKeyTerms(text);
    var words := WordCount(text);
    var summaryWords := SummaryWordCount(bullets);
    var ratio := CompressionRatio(summaryWords, words);
    r := Summary(Render(bullets), keyTerms, words, summaryWords, PercentText(ratio));
  }
}
