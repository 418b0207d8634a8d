/** The key-term ranker of the summariser (`extractKeyTerms` in server.js): the
    text is lower-cased and split at white space, every token loses all that is
    not a letter `a`..`z`, tokens of at most three letters and stop words are
    dropped, the rest are counted in a dictionary, and the six most frequent
    words are returned, most frequent first, ties in order of first occurrence.

    The ranking is stated for any stop-word set `stop`; `KeyTermsOf` fixes it to
    the set the summariser uses. */
module KeyTerms {
  import opened Builtins
  import opened Sorting

  /** The stop-word set of `extractKeyTerms`, grouped here by word length. */
  function StopWords(): set<string> {
    ShortStopWords() + FourLetterStopWords() + LongStopWords()
  }

  /** The stop words of at most three letters. */
  function ShortStopWords(): set<string> {
    {
      "the", "a", "an", "is", "are", "was", "be", "has", "had", "do", "did", "may", "can",
      "to", "of", "in", "for", "on", "at", "by", "as", "out", "off", "and", "but", "or",
      "nor", "not", "so", "yet", "all", "any", "few", "no", "own", "too", "it", "its"
    }
  }

  /** The stop words of four letters. */
  function FourLetterStopWords(): set<string> {
    {
      "were", "been", "have", "does", "will", "need", "dare", "used", "with", "from", "into",
      "over", "then", "once", "both", "each", "more", "most", "some", "such", "only", "same",
      "than", "very", "just", "this", "that"
    }
  }

  /** The stop words of five letters or more. */
  function LongStopWords(): set<string> {
    {
      "being", "would", "could", "should", "might", "shall", "ought", "through", "during",
      "before", "after", "above", "below", "between", "under", "again", "further", "either",
      "neither", "every", "other", "because", "these", "those"
    }
  }

  /** How many terms the ranker returns at most (`slice(0, 6)`). */
  const MaxTerms := 6

  predicate IsAsciiLower(c: char) { 'a' <= c <= 'z' }

  predicate IsNotAsciiLower(c: char) { !IsAsciiLower(c) }

  /** `w.replace(/[^a-z]/g, '')`: the letters `a`..`z` of `w`, in order. */
  function Clean(w: string): (r: string)
    ensures |r| <= |w| && forall i :: 0 <= i < |r| ==> IsAsciiLower(r[i])
  {
    WithoutSeparators(w, IsNotAsciiLower)
  }

  /** The filter a cleaned token must pass to be counted. */
  predicate Counts(clean: string, stop: set<string>) {
    |clean| > 3 && clean !in stop
  }

  /** What every counted word is: letters `a`..`z` only, longer than three, not a stop word. */
  predicate IsTerm(w: string, stop: set<string>) {
    Counts(w, stop) && forall i :: 0 <= i < |w| ==> IsAsciiLower(w[i])
  }

  /** `text.toLowerCase().split(/\s+/)`. */
  function Words(text: string): seq<string> {
    Split(Lower(text), IsSpace)
  }

  /** The cleaned tokens of `words` that are counted, in text order. */
  function Counted(words: seq<string>, stop: set<string>): (r: seq<string>)
    ensures |r| <= |words|
  {
    if words == [] then []
    else
      var c := Clean(words[|words| - 1]);
      Counted(words[..|words| - 1], stop) + (if Counts(c, stop) then [c] else [])
  }

  /** Only terms are counted. */
  lemma {:induction false} CountedAreTerms(words: seq<string>, stop: set<string>)
    ensures forall w :: w in Counted(words, stop) ==> IsTerm(w, stop)
  {
    if words != [] {
      CountedAreTerms(words[..|words| - 1], stop);
    }
  }

  /** The distinct elements of `s` in the order of their first occurrence: the
      key order of a JavaScript object none of whose keys looks like an integer. */
  function FirstOccurrences(s: seq<string>): (r: seq<string>)
    ensures forall x :: x in r <==> x in s
    ensures Distinct(r)
  {
    if s == [] then []
    else
      var d := FirstOccurrences(s[..|s| - 1]);
      if s[|s| - 1] in d then d else d + [s[|s| - 1]]
  }

  /** `Object.entries(freq)` once every word of `counted` has been counted:
      one entry per distinct word, in order of first occurrence, with the
      number of its occurrences. */
  function Entries(counted: seq<string>): (r: seq<Entry>)
    ensures |r| == |FirstOccurrences(counted)|
    ensures forall i :: 0 <= i < |r| ==> r[i].word == FirstOccurrences(counted)[i]
    ensures forall i :: 0 <= i < |r| ==> r[i].count == multiset(counted)[r[i].word] >= 1
  {
    var keys := FirstOccurrences(counted);
    var r := seq(|keys|, i requires 0 <= i < |keys| => Entry(keys[i], multiset(counted)[keys[i]]));
    forall i | 0 <= i < |r| ensures r[i].count >= 1 {
      assert keys[i] in keys;
    }
    r
  }

  /** Each word of `counted` has exactly one entry, the one carrying its number
      of occurrences. */
  lemma EntriesOfWord(counted: seq<string>, w: string)
    ensures w in counted <==> Entry(w, multiset(counted)[w]) in Entries(counted)
    ensures forall e :: e in Entries(counted) && e.word == w ==> e == Entry(w, multiset(counted)[w])
  {
    var keys := FirstOccurrences(counted);
    var r := Entries(counted);
    if w in counted {
      assert w in keys;
      var i :| 0 <= i < |keys| && keys[i] == w;
      assert r[i] == Entry(w, multiset(counted)[w]);
    }
    if Entry(w, multiset(counted)[w]) in r {
      var i :| 0 <= i < |r| && r[i] == Entry(w, multiset(counted)[w]);
      assert keys[i] in keys;
    }
  }

  /** The entries, sorted by descending count, ties kept in key order. */
  function Ranking(counted: seq<string>): (r: seq<Entry>)
    ensures |r| == |FirstOccurrences(counted)| && NonIncreasing(r)
  {
    SortByCount(Entries(counted))
  }

  /** The words of the first six entries of the ranking. */
  function TopWords(counted: seq<string>): (r: seq<string>)
    ensures |r| == Min(MaxTerms, |FirstOccurrences(counted)|)
  {
    var ranked := Ranking(counted);
    seq(Min(MaxTerms, |ranked|), i requires 0 <= i < Min(MaxTerms, |ranked|) => ranked[i].word)
  }

  /** The `keyTerms` field of the summary of `text`. */
  function KeyTermsOf(text: string): seq<string> {
    TopWords(Counted(Words(text), StopWords()))
  }

  /** How many times `w` is counted in `text`. */
  function Frequency(text: string, w: string): nat {
    multiset(Counted(Words(text), StopWords()))[w]
  }

  // ---------------------------------------------------------------- what the ranking promises

  /** The ranking holds exactly one entry per counted word, the one carrying its count. */
  lemma RankingEntries(counted: seq<string>)
    ensures forall e :: e in Ranking(counted) ==> e.word in counted && e.count == multiset(counted)[e.word]
    ensures forall w :: w in counted ==> Entry(w, multiset(counted)[w]) in Ranking(counted)
    ensures forall i, j :: 0 <= i < j < |Ranking(counted)| ==> Ranking(counted)[i].word != Ranking(counted)[j].word
  {
    var entries := Entries(counted);
    var ranked := Ranking(counted);
    SortByCountMembers(entries);
    forall e | e in ranked ensures e.word in counted && e.count == multiset(counted)[e.word] {
      var i :| 0 <= i < |entries| && entries[i] == e;
      assert FirstOccurrences(counted)[i] in FirstOccurrences(counted);
    }
    forall w | w in counted ensures Entry(w, multiset(counted)[w]) in ranked {
      EntriesOfWord(counted, w);
    }
    assert Distinct(entries) by {
      forall i, j | 0 <= i < j < |entries| ensures entries[i] != entries[j] {
        assert entries[i].word != entries[j].word;
      }
    }
    forall i, j | 0 <= i < j < |ranked| ensures ranked[i].word != ranked[j].word {
      assert ranked[i] in ranked && ranked[j] in ranked;
    }
  }

  /** The top words are distinct counted words, at most six of them, each at
      least as frequent as the next. */
  lemma TopWordsAreRanked(counted: seq<string>)
    ensures |TopWords(counted)| <= MaxTerms
    ensures Distinct(TopWords(counted))
    ensures forall w :: w in TopWords(counted) ==> w in counted
    ensures forall i, j :: 0 <= i < j < |TopWords(counted)| ==>
              multiset(counted)[TopWords(counted)[i]] >= multiset(counted)[TopWords(counted)[j]]
  {
    var ranked := Ranking(counted);
    var r := TopWords(counted);
    RankingEntries(counted);
    forall i | 0 <= i < |r| ensures r[i] == ranked[i].word && r[i] in counted && multiset(counted)[r[i]] == ranked[i].count {
      assert ranked[i] in ranked;
    }
  }

  /** A counted word is left out only when six words were kept, each at least
      as frequent as it. */
  lemma TopWordsAreTheMostFrequent(counted: seq<string>, w: string)
    requires w in counted && w !in TopWords(counted)
    ensures |TopWords(counted)| == MaxTerms
    ensures forall i :: 0 <= i < MaxTerms ==> multiset(counted)[TopWords(counted)[i]] >= multiset(counted)[w]
  {
    var ranked := Ranking(counted);
    var r := TopWords(counted);
    RankingEntries(counted);
    var p :| 0 <= p < |ranked| && ranked[p] == Entry(w, multiset(counted)[w]);
    assert forall i :: 0 <= i < |r| ==> ranked[i].word == r[i] != w;
    forall i | 0 <= i < |r| ensures multiset(counted)[r[i]] >= multiset(counted)[w] {
      assert ranked[i] in ranked;
    }
  }

  /** `x` first occurs in `s` before `y` does. */
  predicate OccursBefore(x: string, y: string, s: seq<string>) {
    exists p, q :: 0 <= p < q < |FirstOccurrences(s)| && FirstOccurrences(s)[p] == x && FirstOccurrences(s)[q] == y
  }

  /** Top words that are equally frequent appear in the order of their first
      occurrence: `Array.prototype.sort` is stable. */
  lemma TopWordsTiesInTextOrder(counted: seq<string>, i: nat, j: nat)
    requires i < j < |TopWords(counted)|
    requires multiset(counted)[TopWords(counted)[i]] == multiset(counted)[TopWords(counted)[j]]
    ensures OccursBefore(TopWords(counted)[i], TopWords(counted)[j], counted)
  {
    var entries := Entries(counted);
    var ranked := Ranking(counted);
    RankingEntries(counted);
    assert ranked[i] in ranked && ranked[j] in ranked;
    SortByCountKeepsTies(entries, i, j);
    var p, q :| 0 <= p < q < |entries| && entries[p] == ranked[i] && entries[q] == ranked[j];
    assert FirstOccurrences(counted)[p] == TopWords(counted)[i];
    assert FirstOccurrences(counted)[q] == TopWords(counted)[j];
  }

  /** Every key term of a text is a counted word of it: letters `a`..`z` only,
      longer than three letters, and not a stop word. */
  lemma KeyTermsAreTerms(text: string)
    ensures forall w :: w in KeyTermsOf(text) ==> Frequency(text, w) >= 1 && IsTerm(w, StopWords())
  {
    var counted := Counted(Words(text), StopWords());
    TopWordsAreRanked(counted);
    CountedAreTerms(Words(text), StopWords());
  }

  // ---------------------------------------------------------------- the counting loop

  lemma CountedStep(words: seq<string>, stop: set<string>, i: nat)
    requires i < |words|
    ensures Counts(Clean(words[i]), stop) ==> Counted(words[..i + 1], stop) == Counted(words[..i], stop) + [Clean(words[i])]
    ensures !Counts(Clean(words[i]), stop) ==> Counted(words[..i + 1], stop) == Counted(words[..i], stop)
  {
    assert words[..i + 1][..i] == words[..i];
  }

  lemma FirstOccurrencesStep(s: seq<string>, x: string)
    ensures FirstOccurrences(s + [x]) == if x in FirstOccurrences(s) then FirstOccurrences(s) else FirstOccurrences(s) + [x]
  {
    assert (s + [x])[..|s|] == s;
  }

  /** `freq` counts every word of `counted`, and `keys` lists its keys in
      insertion order. */
  ghost predicate Tallied(freq: map<string, nat>, keys: seq<string>, counted: seq<string>) {
    && keys == FirstOccurrences(counted)
    && (forall w :: w in freq <==> w in keys)
    && (forall w :: w in freq ==> freq[w] == multiset(counted)[w])
  }

  lemma MultisetSnoc(s: seq<string>, x: string)
    ensures multiset(s + [x]) == multiset(s) + multiset{x}
  {
  }

  /** One more occurrence of a known key adds one to its count. */
  lemma TalliedKnown(freq: map<string, nat>, keys: seq<string>, counted: seq<string>, x: string)
    requires Tallied(freq, keys, counted) && x in freq
    ensures Tallied(freq[x := freq[x] + 1], keys, counted + [x])
  {
    FirstOccurrencesStep(counted, x);
    MultisetSnoc(counted, x);
    var f := freq[x := freq[x] + 1];
    assert forall w :: w in f <==> w in freq;
  }

  /** The first occurrence of a word adds it with count 1 at the end of the key order. */
  lemma TalliedNew(freq: map<string, nat>, keys: seq<string>, counted: seq<string>, x: string)
    requires Tallied(freq, keys, counted) && x !in freq
    ensures Tallied(freq[x := 1], keys + [x], counted + [x])
  {
    FirstOccurrencesStep(counted, x);
    MultisetSnoc(counted, x);
    assert multiset(counted)[x] == 0;
  }

  /** One turn of the `forEach` loop keeps the dictionary tallied: a word that
      is not counted changes nothing, a known word adds one to its count, and a
      new word is added with count 1 at the end of the key order. */
  lemma TallyStep(freq: map<string, nat>, keys: seq<string>, words: seq<string>, stop: set<string>, i: nat)
    requires i < |words| && Tallied(freq, keys, Counted(words[..i], stop))
    ensures var c := Clean(words[i]);
            && (!Counts(c, stop) ==> Tallied(freq, keys, Counted(words[..i + 1], stop)))
            && (Counts(c, stop) && c in freq ==> Tallied(freq[c := freq[c] + 1], keys, Counted(words[..i + 1], stop)))
            && (Counts(c, stop) && c !in freq ==> Tallied(freq[c := 1], keys + [c], Counted(words[..i + 1], stop)))
  {
    CountedStep(words, stop, i);
    var c := Clean(words[i]);
    if Counts(c, stop) {
      if c in freq {
        TalliedKnown(freq, keys, Counted(words[..i], stop), c);
      } else {
        TalliedNew(freq, keys, Counted(words[..i], stop), c);
      }
    }
  }

  /** The `forEach` loop of `extractKeyTerms`: counts every counted word in
      `freq`; `keys` is the insertion order of the dictionary's keys. */
  method CountTerms(words: seq<string>, stop: set<string>) returns (freq: map<string, nat>, keys: seq<string>)
    ensures keys == FirstOccurrences(Counted(words, stop))
    ensures forall w :: w in freq <==> w in keys
    ensures forall w :: w in freq ==> freq[w] == multiset(Counted(words, stop))[w]
  {
    freq, keys := map[], [];
    for i := 0 to |words|
      invariant Tallied(freq, keys, Counted(words[..i], stop))
    {
      TallyStep(freq, keys, words, stop, i);
      var clean := Clean(words[i]);
      if |clean| > 3 && clean !in stop {
        if clean in freq {
          freq := freq[clean := freq[clean] + 1];
        } else {
          freq := freq[clean := 1];
          keys := keys + [clean];
        }
      }
    }
    assert words[..|words|] == words;
  }

  /** `extractKeyTerms(text)`: counts the words, then ranks the dictionary's
      entries and keeps the first six words. */
  method ExtractKeyTerms(text: string) returns (terms: seq<string>)
    ensures terms == KeyTermsOf(text)
  {
    var freq, keys := CountTerms(Words(text), StopWords());
    var entries := seq(|keys|, j requires 0 <= j < |keys| => Entry(keys[j], freq[keys[j]]));
    EntriesOfTally(Counted(Words(text), StopWords()), freq, keys, entries);
    var ranked := SortByCount(entries);
    terms := seq(Min(MaxTerms, |ranked|), j requires 0 <= j < Min(MaxTerms, |ranked|) => ranked[j].word);
  }

  /** The entries read off the tally are those of the counted words. */
  lemma EntriesOfTally(counted: seq<string>, freq: map<string, nat>, keys: seq<string>, entries: seq<Entry>)
    requires keys == FirstOccurrences(counted)
    requires forall w :: w in freq <==> w in keys
    requires forall w :: w in freq ==> freq[w] == multiset(counted)[w]
    requires |entries| == |keys| && forall j :: 0 <= j < |keys| ==> entries[j] == Entry(keys[j], freq[keys[j]])
    ensures entries == Entries(counted)
  {
  }
}

/** The dictionary of `extractKeyTerms` as written: `freq` is a plain object
    `{}`, so reading a key it does not own falls through to `Object.prototype`,
    and `(freq[clean] || 0) + 1` works on whatever that read returns. */
module KeyTermsAsWritten {
  import opened Builtins
  import opened Sorting
  import opened KeyTerms

  /** The JavaScript values the counting expression can meet. */
  datatype JsValue = Undefined | Num(n: int) | Str(s: string) | Inherited(key: string)

  /** `freq[w]` on a plain object: an own property, else a member inherited from
      `Object.prototype`, else `undefined`. */
  function Lookup(freq: map<string, JsValue>, w: string): (v: JsValue)
    ensures w in freq ==> v == freq[w]
    ensures w !in freq ==> (v == Undefined <==> w !in PrototypeNames())
  {
    if w in freq then freq[w] else if w in PrototypeNames() then Inherited(w) else Undefined
  }

  /** `String(v)` for an inherited member: `constructor` is the `Object`
      function, the other members are native functions of their own name. */
  function InheritedText(key: string): string {
    if key == "constructor" then "function Object() { [native code] }"
    else if key == "__proto__" then "[object Object]"
    else "function " + key + "() { [native code] }"
  }

  /** `(v || 0) + 1`: a falsy value counts as 0, a number goes up by one, and
      anything else is converted to a string with `"1"` appended. */
  function PlusOne(v: JsValue): JsValue {
    match v
    case Undefined => Num(1)
    case Num(n) => if n == 0 then Num(1) else Num(n + 1)
    case Str(s) => if s == [] then Num(1) else Str(s + "1")
    case Inherited(key) => Str(InheritedText(key) + "1")
  }

  /** The object after counting every word of `counted` as written. */
  function CountAsWritten(counted: seq<string>): map<string, JsValue> {
    if counted == [] then map[]
    else
      var freq := CountAsWritten(counted[..|counted| - 1]);
      var w := counted[|counted| - 1];
      freq[w := PlusOne(Lookup(freq, w))]
  }

  /** Away from the inherited names the object counts correctly: it holds
      exactly the counted words, each with its number of occurrences. */
  lemma {:induction false} CountAsWrittenAgrees(counted: seq<string>)
    requires forall w :: w in counted ==> w !in PrototypeNames()
    ensures forall w :: w in CountAsWritten(counted) <==> w in counted
    ensures forall w :: w in CountAsWritten(counted) ==> CountAsWritten(counted)[w] == Num(multiset(counted)[w])
  {
    if counted != [] {
      var init, x := counted[..|counted| - 1], counted[|counted| - 1];
      assert counted == init + [x];
      CountAsWrittenAgrees(init);
      MultisetSnoc(init, x);
    }
  }

  lemma {:induction false} CleanKeepsLetters(w: string)
    requires forall i :: 0 <= i < |w| ==> IsAsciiLower(w[i])
    ensures Clean(w) == w
  {
    if w != [] {
      CleanKeepsLetters(w[1..]);
      assert [w[0]] + w[1..] == w;
    }
  }

  lemma ConstructorNotShortStopWord()
    ensures "constructor" !in ShortStopWords()
  {
  }

  lemma ConstructorNotFourLetterStopWord()
    ensures "constructor" !in FourLetterStopWords()
  {
  }

  lemma ConstructorNotLongStopWord()
    ensures "constructor" !in LongStopWords()
  {
  }

  lemma ConstructorNotStopWord()
    ensures "constructor" !in StopWords()
  {
    ConstructorNotShortStopWord();
    ConstructorNotFourLetterStopWord();
    ConstructorNotLongStopWord();
  }

  /** `constructor` passes the filter of `extractKeyTerms` unchanged ... */
  lemma ConstructorIsCounted(w: string)
    requires w == "constructor"
    ensures Clean(w) == w
    ensures Counts(w, StopWords())
  {
    assert forall i :: 0 <= i < |w| ==> IsAsciiLower(w[i]);
    CleanKeepsLetters(w);
    ConstructorNotStopWord();
  }

  /** The text `constructor` counts that one word. */
  lemma ConstructorText(text: string)
    requires text == "constructor"
    ensures Counted(Words(text), StopWords()) == [text]
  {
    assert forall i :: 0 <= i < |text| ==> IsAsciiLower(text[i]);
    LettersOnlyWord(text);
    ConstructorIsCounted(text);
    assert [text][..0] == [];
  }

  /** A text of letters `a`..`z` only is one word. */
  lemma LettersOnlyWord(w: string)
    requires forall i :: 0 <= i < |w| ==> IsAsciiLower(w[i])
    ensures Words(w) == [w]
  {
    assert Lower(w) == w;
    SplitNoSeparator(w, IsSpace);
  }

  /** Counting an inherited name once stores a string: the text of the
      inherited member with `1` appended. */
  lemma CountOnceAsWritten(w: string)
    requires w in PrototypeNames()
    ensures CountAsWritten([w]) == map[w := Str(InheritedText(w) + "1")]
  {
    assert [w][..0] == [];
  }

  /** The intended count of a single word. */
  lemma TopWordsOfOne(w: string)
    ensures Entries([w]) == [Entry(w, 1)]
    ensures TopWords([w]) == [w]
  {
    assert [w][..0] == [];
    assert FirstOccurrences([w]) == [w];
    assert multiset([w])[w] == 1;
    assert SortByCount([Entry(w, 1)]) == [Entry(w, 1)];
  }

  /** ... and counting it once stores the string `function Object() { [native
      code] }1` instead of the number 1, where the ranking intends the entry
      `["constructor", 1]` and the key terms `["constructor"]`. */
  lemma ConstructorMiscounted(text: string)
    requires text == "constructor"
    ensures CountAsWritten(Counted(Words(text), StopWords()))
              == map[text := Str("function Object() { [native code] }1")]
    ensures Entries(Counted(Words(text), StopWords())) == [Entry(text, 1)]
    ensures KeyTermsOf(text) == [text]
  {
    var counted := Counted(Words(text), StopWords());
    ConstructorText(text);
    CountOnceAsWritten(text);
    assert CountAsWritten(counted) == map[text := Str(InheritedText(text) + "1")];
    assert InheritedText(text) + "1" == "function Object() { [native code] }1";
    TopWordsOfOne(text);
  }

  // ---------------------------------------------------------------- ranking as written

  /** An entry `[word, value]` of `Object.entries(freq)` as written. */
  datatype Pair = Pair(word: string, value: JsValue)

  /** `a - b`; `None` is `NaN`, which every operand that is not a number gives
      (the strings the counting stores never read as numbers). */
  function Minus(a: JsValue, b: JsValue): Option<int> {
    if a.Num? && b.Num? then Some(a.n - b.n) else None
  }

  /** The comparator `(a, b) => b[1] - a[1]` puts `a` strictly before `b`:
      the difference is a negative number. `NaN` counts as a tie. */
  predicate AheadAsWritten(a: Pair, b: Pair) {
    var d := Minus(b.value, a.value);
    d.Some? && d.value < 0
  }

  /** Places `e` before the first pair of `sorted` it is strictly ahead of. */
  function InsertAsWritten(e: Pair, sorted: seq<Pair>): (r: seq<Pair>)
    ensures |r| == |sorted| + 1
  {
    if sorted == [] || AheadAsWritten(e, sorted[0]) then [e] + sorted
    else [sorted[0]] + InsertAsWritten(e, sorted[1..])
  }

  /** `entries.sort((a, b) => b[1] - a[1])` as a stable insertion sort. */
  function SortAsWritten(s: seq<Pair>): (r: seq<Pair>)
    ensures |r| == |s|
  {
    if s == [] then []
    else InsertAsWritten(s[|s| - 1], SortAsWritten(s[..|s| - 1]))
  }

  /** The pairs of the object as written, in key order. */
  function PairsAsWritten(counted: seq<string>): seq<Pair> {
    var keys := FirstOccurrences(counted);
    var freq := CountAsWritten(counted);
    seq(|keys|, i requires 0 <= i < |keys| => Pair(keys[i], Lookup(freq, keys[i])))
  }

  /** The key terms as written: the words of the first six sorted pairs. */
  function TopWordsAsWritten(counted: seq<string>): (r: seq<string>) {
    var ranked := SortAsWritten(PairsAsWritten(counted));
    seq(Min(MaxTerms, |ranked|), i requires 0 <= i < Min(MaxTerms, |ranked|) => ranked[i].word)
  }

  /** The keys and counts of the words `constructor apple apple`. */
  lemma ConstructorAppleKeys(counted: seq<string>)
    requires counted == ["constructor", "apple", "apple"]
    ensures FirstOccurrences(counted) == [counted[0], counted[1]]
    ensures multiset(counted)[counted[0]] == 1 && multiset(counted)[counted[1]] == 2
  {
    var c, a := counted[0], counted[1];
    assert counted[..2] == [c, a] && counted[..2][..1] == [c];
    assert c != a;
    assert FirstOccurrences([c]) == [c] by { assert [c][..0] == []; }
  }

  /** As written, `apple`'s entry `["apple", 2]` cannot pass the entry of
      `constructor`, whose value is a string. */
  lemma ConstructorAppleAsWritten(counted: seq<string>)
    requires counted == ["constructor", "apple", "apple"]
    ensures TopWordsAsWritten(counted) == ["constructor", "apple"]
  {
    var c, a := counted[0], counted[1];
    ConstructorAppleKeys(counted);
    assert counted[..2] == [c, a] && counted[..2][..1] == [c] && [c][..0] == [];
    CountOnceAsWritten(c);
    var once := CountAsWritten([c]);
    assert a !in once && a !in PrototypeNames();
    var twice := CountAsWritten([c, a]);
    assert twice == once[a := Num(1)];
    var freq := CountAsWritten(counted);
    assert freq == twice[a := Num(2)];
    var pc, pa := Pair(c, Str(InheritedText(c) + "1")), Pair(a, Num(2));
    assert PairsAsWritten(counted) == [pc, pa];
    SortedAsWritten(pc, pa);
  }

  /** Two pairs of which the second is not ahead of the first keep their order. */
  lemma SortedAsWritten(p: Pair, q: Pair)
    requires !AheadAsWritten(q, p)
    ensures SortAsWritten([p, q]) == [p, q]
  {
    assert [p, q][..1] == [p] && [p][..0] == [] && [p][1..] == [];
    assert SortAsWritten([p]) == InsertAsWritten(p, []) == [p];
    assert InsertAsWritten(q, []) == [q];
    assert InsertAsWritten(q, [p]) == [p] + InsertAsWritten(q, []);
  }

  /** The intended ranking puts `apple`, counted twice, first. */
  lemma ConstructorAppleIntended(counted: seq<string>)
    requires counted == ["constructor", "apple", "apple"]
    ensures TopWords(counted) == ["apple", "constructor"]
  {
    var c, a := counted[0], counted[1];
    ConstructorAppleKeys(counted);
    var ec, ea := Entry(c, 1), Entry(a, 2);
    assert Entries(counted) == [ec, ea];
    assert [ec, ea][..1] == [ec] && [ec][..0] == [];
    assert SortByCount([ec]) == [ec];
    assert InsertPosition(ea, [ec]) == 0;
    assert SortByCount([ec, ea]) == [ea, ec];
  }

  /** The words of `constructor apple apple`, all counted: as written, `apple`,
      counted twice, stays behind `constructor`, counted once, because the
      stored string makes every comparison with it `NaN`; the intended ranking
      puts `apple` first. */
  lemma ConstructorOutranks(counted: seq<string>)
    requires counted == ["constructor", "apple", "apple"]
    ensures TopWordsAsWritten(counted) == ["constructor", "apple"]
    ensures TopWords(counted) == ["apple", "constructor"]
  {
    ConstructorAppleAsWritten(counted);
    ConstructorAppleIntended(counted);
  }
}
