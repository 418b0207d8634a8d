/** The template generators of server.js: `generateQuiz`, `generateFlashcards`,
    `generateRelatedTopics` and `generateExplanation`. Each one fills the topic
    into fixed prose and takes a prefix of a fixed list. The prose is kept
    word for word in the `...Text` functions, which the proofs never open: what
    is proved is which template lands where, never what its words are. */
module Generators {
  import opened Builtins

  // ---------------------------------------------------------------- slices

  /** `list.slice(0, end)` on a list of length `len`: the length of the prefix
      taken. A negative end counts from the back of the list. */
  function SliceLength(len: nat, end: int): (r: nat)
    ensures r <= len
  {
    if end < 0 then Max(len + end, 0) else Min(end, len)
  }

  /** A request's `count`: `None` is an absent count, which takes the default. */
  function CountOr(count: Option<int>, default: int): int {
    if count.None? then default else count.value
  }

  /** How many templates `slice(0, Math.min(count, N))` keeps: the first `count`
      of them, all of them when `count` is `N` or more, and for a negative
      `count` all but the last `-count`. */
  lemma SliceLengthOfCount(len: nat, count: int)
    ensures count >= 0 ==> SliceLength(len, Min(count, len)) == Min(count, len)
    ensures count >= len ==> SliceLength(len, Min(count, len)) == len
    ensures count < 0 ==> SliceLength(len, Min(count, len)) == Max(len + count, 0)
    ensures count < 0 && -count >= len ==> SliceLength(len, Min(count, len)) == 0
  {
  }

  // ---------------------------------------------------------------- quiz

  datatype Question = Question(question: string, options: seq<string>, correct: nat, explanation: string)

  datatype QuizSet = QuizSet(topic: string, questions: seq<Question>, totalQuestions: nat, estimatedTime: string)

  const QuizTemplateCount := 7
  const DefaultQuestionCount := 5

  /** The question of template `k`. */
  function QuestionText(k: nat, topic: string): string {
    if k == 0 then "What is the primary purpose of " + topic + "?"
    else if k == 1 then "Which of the following best describes a key characteristic of " + topic + "?"
    else if k == 2 then "What is a common misconception about " + topic + "?"
    else if k == 3 then "In what context is " + topic + " most commonly applied?"
    else if k == 4 then "What prerequisite knowledge is most helpful for understanding " + topic + "?"
    else if k == 5 then "How does " + topic + " relate to real-world problem solving?"
    else "What is the best approach to studying " + topic + "?"
  }

  /** Option `j` of template `k`. */
  function OptionText(k: nat, j: nat): string {
    if k == 0 then
      if j == 0 then "To provide a structured approach to understanding complex systems"
      else if j == 1 then "To replace all existing methodologies"
      else if j == 2 then "To simplify unrelated concepts"
      else "To eliminate the need for further study"
    else if k == 1 then
      if j == 0 then "It only works in theoretical scenarios"
      else if j == 1 then "It builds upon foundational principles and scales to complex applications"
      else if j == 2 then "It requires no prerequisite knowledge"
      else "It cannot be applied practically"
    else if k == 2 then
      if j == 0 then "It requires deep understanding"
      else if j == 1 then "It has practical applications"
      else if j == 2 then "It can be mastered through memorization alone"
      else "It connects to other disciplines"
    else if k == 3 then
      if j == 0 then "Only in academic research"
      else if j == 1 then "In problem-solving and analytical thinking across multiple domains"
      else if j == 2 then "Exclusively in laboratory settings"
      else "Only in standardized testing"
    else if k == 4 then
      if j == 0 then "No prerequisites are needed"
      else if j == 1 then "Only advanced mathematics"
      else if j == 2 then "Basic foundational concepts in the related field"
      else "Expert-level domain knowledge"
    else if k == 5 then
      if j == 0 then "It has no real-world applications"
      else if j == 1 then "It provides frameworks that can be adapted to solve practical problems"
      else if j == 2 then "It only applies to textbook problems"
      else "It makes problems more complicated"
    else
      if j == 0 then "Read once and move on"
      else if j == 1 then "Memorize all formulas without understanding"
      else if j == 2 then "Practice with examples and understand underlying principles"
      else "Skip the basics and jump to advanced topics"
  }

  /** The explanation shown after answering template `k`. */
  function AnswerText(k: nat, topic: string): string {
    if k == 0 then topic + " primarily aims to provide structured understanding of complex systems through organized principles."
    else if k == 1 then "A key characteristic is that it builds on foundations and scales — this is what makes " + topic + " powerful and versatile."
    else if k == 2 then "Many students think " + topic + " can be memorized, but true mastery requires understanding and application."
    else if k == 3 then topic + " finds its most common application in problem-solving across various domains."
    else if k == 4 then "Having basic foundational concepts helps build a strong understanding of " + topic + "."
    else if k == 5 then topic + " provides adaptable frameworks for solving real-world problems effectively."
    else "The most effective approach combines practice with understanding of underlying principles."
  }

  /** The index of the right option of each template. */
  function CorrectOptions(): (r: seq<nat>)
    ensures |r| == QuizTemplateCount
    ensures forall k :: 0 <= k < |r| ==> r[k] < 4
  {
    [0, 1, 2, 1, 2, 1, 2]
  }

  /** Template `k` of `quizTemplates`. */
  function QuizTemplate(k: nat, topic: string): Question
    requires k < QuizTemplateCount
  {
    Question(QuestionText(k, topic), seq(4, j requires 0 <= j < 4 => OptionText(k, j)),
             CorrectOptions()[k], AnswerText(k, topic))
  }

  /** `quizTemplates`, the seven questions about `topic`. */
  function QuizTemplates(topic: string): (r: seq<Question>)
    ensures |r| == QuizTemplateCount
  {
    seq(QuizTemplateCount, k requires 0 <= k < QuizTemplateCount => QuizTemplate(k, topic))
  }

  /** The number of questions `generateQuiz` returns for `count`. */
  function QuizLength(count: Option<int>): nat {
    SliceLength(QuizTemplateCount, Min(CountOr(count, DefaultQuestionCount), QuizTemplateCount))
  }

  /** `` `${n} minutes` ``. */
  function Minutes(n: int): string {
    IntText(n) + " minutes"
  }

  /** `generateQuiz(topic, count)`. */
  function GenerateQuiz(topic: string, count: Option<int>): QuizSet {
    var selected := QuizTemplates(topic)[..QuizLength(count)];
    QuizSet(topic, selected, |selected|, Minutes(|selected| * 2))
  }

  /** The quiz holds the first templates in order: five without a count,
      `min(count, 7)` for a count that is not negative, all but the last
      `-count` for a negative one; it reports its own length, and every
      question has four options of which the right one is one. */
  lemma QuizShape(topic: string, count: Option<int>)
    ensures var quiz := GenerateQuiz(topic, count);
            && quiz.topic == topic
            && quiz.totalQuestions == |quiz.questions|
            && (count.None? ==> |quiz.questions| == 5)
            && (count.Some? && count.value >= 0 ==> |quiz.questions| == Min(count.value, 7))
            && (count.Some? && count.value < 0 ==> |quiz.questions| == Max(7 + count.value, 0))
            && (forall k :: 0 <= k < |quiz.questions| ==> quiz.questions[k] == QuizTemplate(k, topic))
            && (forall k :: 0 <= k < |quiz.questions| ==>
                  0 <= quiz.questions[k].correct < |quiz.questions[k].options| == 4)
  {
    var quiz := GenerateQuiz(topic, count);
    QuizLengthOfCount(count);
    forall k | 0 <= k < |quiz.questions|
      ensures quiz.questions[k] == QuizTemplate(k, topic)
      ensures 0 <= quiz.questions[k].correct < |quiz.questions[k].options| == 4
    {
      assert quiz.questions[k] == QuizTemplates(topic)[k];
    }
  }

  /** How many questions a count selects. */
  lemma QuizLengthOfCount(count: Option<int>)
    ensures count.None? ==> QuizLength(count) == 5
    ensures count.Some? && count.value >= 0 ==> QuizLength(count) == Min(count.value, 7)
    ensures count.Some? && count.value < 0 ==> QuizLength(count) == Max(7 + count.value, 0)
  {
    SliceLengthOfCount(QuizTemplateCount, CountOr(count, DefaultQuestionCount));
  }

  /** The estimated time is two minutes per question: the text is a number
      followed by ` minutes`, and the number reads back as twice the count. */
  lemma QuizTime(topic: string, count: Option<int>)
    ensures var quiz := GenerateQuiz(topic, count);
            var t := quiz.estimatedTime;
            && |t| > 8 && t[|t| - 8..] == " minutes"
            && IntValue(t[..|t| - 8]) == 2 * quiz.totalQuestions
  {
    var quiz := GenerateQuiz(topic, count);
    var t := quiz.estimatedTime;
    var n := |quiz.questions| * 2;
    assert t == IntText(n) + " minutes";
    assert t[..|t| - 8] == IntText(n);
    IntTextValue(n);
  }

  // ---------------------------------------------------------------- flashcards

  datatype Card = Card(id: nat, front: string, back: string, mastered: bool)

  datatype FlashcardSet = FlashcardSet(topic: string, cards: seq<Card>, totalCards: nat)

  const CardTemplateCount := 8
  const DefaultCardCount := 6

  /** The front of card template `k`. */
  function FrontText(k: nat, topic: string): string {
    if k == 0 then "Define " + topic
    else if k == 1 then "What are the 3 key components of " + topic + "?"
    else if k == 2 then "Why is " + topic + " important?"
    else if k == 3 then "Common mistake when studying " + topic + "?"
    else if k == 4 then "How to apply " + topic + " in practice?"
    else if k == 5 then topic + ": Key formula/principle"
    else if k == 6 then "What connects " + topic + " to other subjects?"
    else "Quick review: " + topic + " essentials"
  }

  /** The back of card template `k`. */
  function BackText(k: nat, topic: string): string {
    if k == 0 then topic + " is a systematic approach to understanding and applying core principles within its domain. It involves structured analysis and practical application of theoretical concepts."
    else if k == 1 then "1. **Foundation** — Core principles and definitions\n2. **Methodology** — Approaches and techniques\n3. **Application** — Real-world use cases and practice"
    else if k == 2 then topic + " is important because it:\n• Builds critical thinking skills\n• Provides structured problem-solving frameworks\n• Connects theory to practice\n• Enables deeper understanding of related concepts"
    else if k == 3 then "The most common mistake is **rote memorization** without understanding.\n\nInstead, focus on:\n• Understanding the 'why' behind concepts\n• Practicing with varied examples\n• Making connections to prior knowledge"
    else if k == 4 then "Step-by-step application:\n1. Identify the problem context\n2. Map relevant principles from " + topic + "\n3. Design a solution using appropriate methods\n4. Test and validate your approach\n5. Iterate and refine"
    else if k == 5 then "The fundamental principle states that complex problems in " + topic + " can be decomposed into simpler sub-problems.\n\n**Remember:** Start simple, build complexity gradually, and always verify your understanding."
    else if k == 6 then topic + " shares connections with:\n• **Logic** — Structured reasoning\n• **Mathematics** — Quantitative analysis\n• **Science** — Empirical validation\n• **Communication** — Clear expression of ideas"
    else "✅ Understand core definitions\n✅ Know the key principles\n✅ Practice with examples\n✅ Connect to real-world scenarios\n✅ Review and self-test regularly"
  }

  /** The number of cards `generateFlashcards` returns for `count`. */
  function CardCount(count: Option<int>): nat {
    SliceLength(CardTemplateCount, Min(CountOr(count, DefaultCardCount), CardTemplateCount))
  }

  /** `generateFlashcards(topic, count)`: the selected templates, numbered from
      one and not yet mastered. */
  function GenerateFlashcards(topic: string, count: Option<int>): FlashcardSet {
    var n := CardCount(count);
    var cards := seq(n, i requires 0 <= i < n => Card(i + 1, FrontText(i, topic), BackText(i, topic), false));
    FlashcardSet(topic, cards, |cards|)
  }

  /** The deck: six cards without a count, `min(count, 8)` for a count that is
      not negative, all but the last `-count` for a negative one; card `i` is
      template `i` with id `i + 1`, so the ids are 1..n in increasing order; no
      card is mastered; `totalCards` is the deck size. */
  lemma FlashcardShape(topic: string, count: Option<int>)
    ensures var deck := GenerateFlashcards(topic, count);
            && deck.topic == topic
            && deck.totalCards == |deck.cards| <= 8
            && (count.None? ==> |deck.cards| == 6)
            && (count.Some? && count.value >= 0 ==> |deck.cards| == Min(count.value, 8))
            && (count.Some? && count.value < 0 ==> |deck.cards| == Max(8 + count.value, 0))
            && (forall i :: 0 <= i < |deck.cards| ==>
                  && deck.cards[i].id == i + 1 && !deck.cards[i].mastered
                  && deck.cards[i].front == FrontText(i, topic) && deck.cards[i].back == BackText(i, topic))
            && (forall i, j :: 0 <= i < j < |deck.cards| ==> deck.cards[i].id < deck.cards[j].id)
  {
    SliceLengthOfCount(CardTemplateCount, CountOr(count, DefaultCardCount));
  }

  /** A smaller count gives a prefix of the deck a larger count gives. */
  lemma FlashcardsPrefix(topic: string, m: nat, n: nat)
    requires m <= n
    ensures GenerateFlashcards(topic, Some(m)).cards <= GenerateFlashcards(topic, Some(n)).cards
  {
  }

  // ---------------------------------------------------------------- related topics

  /** Suggestion `k` of the five in `related`. */
  function RelatedText(k: nat, topic: string): string {
    if k == 0 then "Advanced " + topic
    else if k == 1 then topic + " in Practice"
    else if k == 2 then "History of " + topic
    else if k == 3 then topic + " vs Alternatives"
    else "Applications of " + topic
  }

  /** `generateRelatedTopics(topic)`: `related.slice(0, 3)`. */
  function RelatedTopics(topic: string): seq<string> {
    seq(5, k requires 0 <= k < 5 => RelatedText(k, topic))[..3]
  }

  /** Always three suggestions: the first three of the five. */
  lemma RelatedTopicsAreFirstThree(topic: string)
    ensures |RelatedTopics(topic)| == 3
    ensures forall k :: 0 <= k < 3 ==> RelatedTopics(topic)[k] == RelatedText(k, topic)
  {
  }

  // ---------------------------------------------------------------- explanation

  /** The levels the `explanations` object has its own template for. */
  predicate IsLevel(key: string) {
    key == "simple" || key == "intermediate" || key == "advanced"
  }

  /** The `default` text of level `key` (the simple one for any other key). */
  function LevelText(key: string, topic: string): string {
    if key == "intermediate" then
      "## " + topic + " — Intermediate Explanation\n\n"
      + topic + " is a concept that operates on several interconnected principles:\n\n"
      + "### Core Mechanism\n"
      + "At its heart, " + topic + " works by processing information through defined stages. Each stage transforms the input in a specific way.\n\n"
      + "### Key Components\n"
      + "1. **Foundation Layer** — The base principles that " + topic + " relies on\n"
      + "2. **Processing Layer** — Where the main transformation happens\n"
      + "3. **Output Layer** — The results and applications\n\n"
      + "### Practical Application\n"
      + "In practice, " + topic + " is used to solve problems like optimization, pattern recognition, and structured analysis.\n\n"
      + "### Common Misconceptions\n"
      + "- It's NOT just memorization — it requires understanding\n"
      + "- It builds upon prerequisite knowledge\n"
      + "- Mastery comes through practice and application"
    else if key == "advanced" then
      "## " + topic + " — Advanced Deep Dive\n\n"
      + "### Theoretical Foundation\n"
      + topic + " emerges from the intersection of multiple disciplines. Its formal definition involves rigorous mathematical and logical frameworks.\n\n"
      + "### Formal Definition\n"
      + "Let *S* be the system under study. " + topic + " can be formally described as a mapping *f: X → Y* where the transformation preserves certain invariant properties.\n\n"
      + "### Advanced Properties\n"
      + "1. **Composability** — Complex instances can be decomposed into simpler sub-problems\n"
      + "2. **Scalability** — The approach generalizes across different scales\n"
      + "3. **Optimality** — Under certain constraints, provably optimal solutions exist\n\n"
      + "### Research Frontiers\n"
      + "Current research in " + topic + " focuses on:\n"
      + "- Extending theoretical bounds\n"
      + "- Novel applications in emerging fields\n"
      + "- Computational efficiency improvements\n\n"
      + "### Critical Analysis\n"
      + "While powerful, " + topic + " has known limitations including edge cases and computational complexity constraints that active research aims to address."
    else
      "Let me explain **" + topic + "** in simple terms:\n\n"
      + "Think of " + topic + " like a recipe 🍳. Just as a recipe has step-by-step instructions to make a dish, " + topic + " follows a structured approach to achieve its goal.\n\n"
      + "**Key Points:**\n"
      + "• It's a fundamental concept that builds on basic principles\n"
      + "• You can think of it as connecting simple ideas together\n"
      + "• Real-world example: Just like building blocks, each piece fits together\n\n"
      + "**Why it matters:** Understanding " + topic + " helps you see the bigger picture and solve related problems more easily."
  }

  /** The property name `level` is looked up under: an absent level is the key
      `"undefined"`. */
  function LevelKey(level: Option<string>): string {
    if level.None? then "undefined" else level.value
  }

  /** The level whose template is shown: the requested one when it is one of
      the three, `simple` otherwise. */
  function ShownLevel(level: Option<string>): (r: string)
    ensures IsLevel(r)
  {
    if IsLevel(LevelKey(level)) then LevelKey(level) else "simple"
  }

  /** `estimatedReadTime`: decided by the level's name alone. */
  function ReadTime(level: Option<string>): string {
    if level == Some("simple") then "2 min"
    else if level == Some("intermediate") then "5 min"
    else "10 min"
  }

  datatype Explanation = Explanation(
    topic: string, level: Option<string>, explanation: string,
    relatedTopics: seq<string>, estimatedReadTime: string)

  /** `generateExplanation(topic, level)`, with the level lookup confined to
      the three levels (`GeneratorsAsWritten` has the lookup as written). */
  function GenerateExplanation(topic: string, level: Option<string>): Explanation {
    Explanation(topic, level, LevelText(ShownLevel(level), topic), RelatedTopics(topic), ReadTime(level))
  }

  /** The template shown is the requested level's own for the three known
      levels and the simple one for any other level, an absent one included. */
  lemma ShownLevelChoice(level: Option<string>)
    ensures IsLevel(LevelKey(level)) ==> ShownLevel(level) == LevelKey(level)
    ensures !IsLevel(LevelKey(level)) ==> ShownLevel(level) == "simple"
    ensures level.None? ==> ShownLevel(level) == "simple"
  {
  }

  /** The explanation shows the requested level's own text when the level is
      one of the three, and the simple text otherwise, an absent level
      included. */
  lemma ExplanationText(topic: string, level: Option<string>)
    ensures var e := GenerateExplanation(topic, level);
            && (level.Some? && IsLevel(level.value) ==> e.explanation == LevelText(level.value, topic))
            && (level.None? || !IsLevel(level.value) ==> e.explanation == LevelText("simple", topic))
  {
    ShownLevelChoice(level);
  }

  /** The explanation echoes the topic and the level, offers the topic's three
      related topics, and reads in 2 minutes at the simple level, 5 at the
      intermediate one and 10 at any other. */
  lemma ExplanationShape(topic: string, level: Option<string>)
    ensures var e := GenerateExplanation(topic, level);
            && e.topic == topic && e.level == level
            && |e.relatedTopics| == 3
            && (forall k :: 0 <= k < 3 ==> e.relatedTopics[k] == RelatedText(k, topic))
            && e.estimatedReadTime == (if level == Some("simple") then "2 min"
                                       else if level == Some("intermediate") then "5 min"
                                       else "10 min")
  {
    RelatedTopicsAreFirstThree(topic);
  }

  /** The read time is 2, 5 or 10 minutes for the simple, intermediate and
      advanced levels; an unknown level, shown with the simple text, still
      gets the ten-minute read time. */
  lemma ReadTimeOfLevel(level: Option<string>)
    ensures level == Some("simple") ==> ReadTime(level) == "2 min"
    ensures level == Some("intermediate") ==> ReadTime(level) == "5 min"
    ensures level == Some("advanced") ==> ReadTime(level) == "10 min"
    ensures !IsLevel(LevelKey(level)) ==> ShownLevel(level) == "simple" && ReadTime(level) == "10 min"
  {
  }
}

/** `generateExplanation` as written looks the level up in a plain object, so a
    level named like a property every object inherits (`constructor`,
    `toString`, `__proto__`, ...) finds that inherited value instead of a
    template: the value is truthy, so the `|| explanations.simple` fallback is
    skipped, and its `.default` is `undefined`. */
module GeneratorsAsWritten {
  import opened Builtins
  import opened Generators

  /** The level whose template `(explanations[level] || explanations.simple)`
      finds; `None` when the lookup finds an inherited value, whose `.default`
      is `undefined`. */
  function ShownLevelAsWritten(level: Option<string>): (r: Option<string>)
    ensures r.None? <==> !IsLevel(LevelKey(level)) && LevelKey(level) in PrototypeNames()
  {
    var key := LevelKey(level);
    if IsLevel(key) then Some(key)
    else if key in PrototypeNames() then None
    else Some("simple")
  }

  /** `(explanations[level] || explanations.simple).default`; `None` is `undefined`. */
  function LevelTextAsWritten(topic: string, level: Option<string>): Option<string> {
    var shown := ShownLevelAsWritten(level);
    if shown.None? then None else Some(LevelText(shown.value, topic))
  }

  /** Away from the inherited names the lookup as written finds the template
      the corrected lookup shows. */
  lemma ShownLevelAsWrittenAgrees(level: Option<string>)
    requires LevelKey(level) !in PrototypeNames()
    ensures ShownLevelAsWritten(level) == Some(ShownLevel(level))
  {
  }

  /** The level `constructor` yields no explanation text as written, while the
      corrected lookup falls back to the simple explanation. */
  lemma ConstructorLevelHasNoText(topic: string, level: string)
    requires level == "constructor"
    ensures LevelTextAsWritten(topic, Some(level)) == None
    ensures ShownLevel(Some(level)) == "simple"
  {
    assert !IsLevel(level);
    assert level in PrototypeNames();
  }
}
