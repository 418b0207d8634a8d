# AI Study Buddy, modelled in Dafny

AI Study Buddy is a browser study aid with a small Express backend. Its "AI" is
deterministic: the server builds explanations, summaries, quizzes, flashcards
and chat replies from fixed templates and simple text processing. The browser
runs three small state machines: the quiz session, the flashcard deck and the
app shell (streak counter, theme, tabs).

This project models that logic and proves what it promises.

- `builtins.dfy` (`Builtins`): the JavaScript built-ins the core relies on, written out.
  - `String.prototype.trim` and the `\s` class.
  - `split` on a run of separators (`/[.!?]+/`, `/\s+/`) and `join`.
  - ASCII `toLowerCase` and `includes`.
  - `Math.round` of a quotient, computed exactly on integers.
  - Decimal number text, and the names a plain object inherits from `Object.prototype`.
- `summary.dfy` (`Summarizer`): `generateSummary`. The bullet-picking loop is a method proved against a specification function.
- `keyterms.dfy` (`KeyTerms`, `KeyTermsAsWritten`): `extractKeyTerms`. The counting loop over the `freq` dictionary is a method proved against a specification function.
- `sorting.dfy` (`Sorting`): the stable descending-count sort that ranks the key terms.
- `generators.dfy` (`Generators`, `GeneratorsAsWritten`): `generateQuiz`, `generateFlashcards`, `generateRelatedTopics` and `generateExplanation`.
- `chat.dfy` (`ChatReplies`): `generateChatReply`, its first-match keyword dispatch and its topic extraction.
- `app.dfy` (`AppShell`): the `App` object as a class: `switchTab`, `toggleTheme`, `incrementStreak` and `loadState`.
- `quiz.dfy` (`QuizFlow`): the `Quiz` object as a class, with the result percentage and its bands.
- `flashcards.dfy` (`FlashcardFlow`): the `Flashcards` object as a class. Its deck is an `array` whose card statuses `markCard` changes in place.

Template prose is kept word for word in functions indexed by template
number (`QuestionText`, `FrontText`, `LevelText`, `ReplyText`, ...). The
lemmas state which template is chosen, never facts about the words.

Network calls are replaced by calling the server functions directly. A `reachable` flag
stands for a failed request. The page is kept as the fields the code writes:
the `active` flags of tabs and panels, the theme attribute and icon, the
stored values, and which quiz or deck screen shows.

An empty text counts as one word, because splitting `""` on `/\s+/` gives
`[""]`; the model follows the code (`Summarizer.WordCount`).

## Model

| member | source | states |
|---|---|---|
| Builtins.IsSpace | server.js:119 | the characters of the `\s` class: tab, line feed, vertical tab, form feed, carriage return, space, no-break space, the line and paragraph separators, the byte order mark and the Unicode space separators |
| Builtins.Trim | server.js:118 | `String.prototype.trim`: whitespace removed from both ends |
| Builtins.TrimSlice | server.js:125 | `trim` removes exactly the leading and the trailing whitespace run: the result is the middle slice, and neither of its ends is whitespace |
| Builtins.DropRunDrops | server.js:125 | dropping the leading run removes only characters of the run and leaves a suffix that does not start with one |
| Builtins.DropRunEndDrops | server.js:125 | dropping the trailing run removes only characters of the run and leaves a prefix that does not end with one |
| Builtins.RunsAroundSlice | server.js:125 | a prefix of a suffix, with only trimmed characters cut off on either side, is a trimmed slice of the text |
| Builtins.TrimChars | server.js:285 | every character of a trimmed string comes from the original |
| Builtins.TrimEmptyIffAll | public/js/quiz.js:38-39 | a trimmed topic is empty exactly when the input is all whitespace |
| Builtins.Split | server.js:118-119 | splitting on separator runs gives at least one fragment, and no fragment holds a separator |
| Builtins.SplitInnerFragmentsNonEmpty | server.js:118 | because the pattern matches whole runs (`+`), only the first and last fragments can be empty |
| Builtins.SplitKeepsText | server.js:118 | the fragments concatenated are the text without its separators |
| Builtins.SplitNoSeparator | server.js:142 | text without separators splits into itself |
| Builtins.SplitAfterSeparator | server.js:142 | a leading separator gives an empty first fragment |
| Builtins.SplitAtSeparator | server.js:142 | a separator after a separator-free prefix ends the first fragment there |
| Builtins.Join | server.js:139 | joining no parts gives the empty string, and joining one part gives that part |
| Builtins.SplitJoin | server.js:139 | joining non-empty separator-free parts with a separator and splitting again gives the parts back |
| Builtins.SplitWithSeparatorHasTwo | server.js:142 | a text holding a separator splits into at least two fragments |
| Builtins.JoinCons | server.js:142 | joining a part before a non-empty list puts the glue between the part and the rest joined |
| Builtins.LowerChar | server.js:274 | `toLowerCase` maps `A`..`Z` to `a`..`z` and leaves every other character alone |
| Builtins.Lower | server.js:148 | lowering keeps the length and lowers each character |
| Builtins.RoundQuotient | server.js:143 | `Math.round(p / q)` on integers, as `floor((2p + q) / 2q)` |
| Builtins.Contains | server.js:277 | `String.prototype.includes`: `sub` occurs at some position of `s` |
| Builtins.RoundQuotientIsNearest | public/js/quiz.js:153 | `Math.round(p / q)` is the integer nearest to `p / q`, with halves rounded up |
| Builtins.DigitChar | server.js:249 | a digit's character is a decimal digit of that value |
| Builtins.NatText | server.js:249 | a number's decimal text is non-empty, all digits, and without leading zeros |
| Builtins.IntText | server.js:143 | an integer's decimal text is non-empty |
| Builtins.NatTextValue | server.js:249 | a natural number's decimal text reads back as the number |
| Builtins.IntTextValue | server.js:143 | an integer's decimal text, sign included, reads back as the integer |
| Summarizer.Fragments | server.js:118 | `text.split(/[.!?]+/)` |
| Summarizer.Sentences | server.js:118 | `text.split(/[.!?]+/)` keeping the fragments longer than 10 characters once trimmed |
| Summarizer.Eligible | server.js:118 | the kept fragments are fragments of the text, each longer than 10 characters once trimmed |
| Summarizer.EligibleKeepsAll | server.js:118 | every fragment longer than 10 characters once trimmed is kept |
| Summarizer.Step | server.js:123 | the sampling stride is at least 1 |
| Summarizer.SampleIndexInRange | server.js:124-125 | each sampled index is inside the sentence list |
| Summarizer.Sample | server.js:124-126 | the sample has `min(5, n)` bullets |
| Summarizer.SampleInDocumentOrder | server.js:123-126 | the first bullet is the first sentence; sampled indices strictly increase; with 5 or fewer sentences, every sentence is taken, trimmed |
| Summarizer.BuildBullets | server.js:121-136 | the push loop yields the sample of the eligible sentences, or the 4 fallback bullets when there are none |
| Summarizer.BulletCount | server.js:121-136 | there are between 1 and 5 bullets |
| Summarizer.SentenceHasNoMarks | server.js:118 | an eligible sentence, trimmed, holds no `.`, `!` or `?` |
| Summarizer.BulletsSource | server.js:118-136 | with no eligible fragment the bullets are the fallback; otherwise they are the sample of the eligible sentences, each trimmed, longer than 10 characters and without sentence marks (a text may spell the fallback sentences itself) |
| Summarizer.FallbackBullets | server.js:130-135 | template text: the 4 fallback bullets |
| Summarizer.BulletsOf | server.js:121-136 | the sample of the eligible sentences, or the fallback when there are none |
| Summarizer.Bullets | server.js:121-136 | the bullets of a text: the sampled eligible sentences, or the 4 fallback bullets |
| Summarizer.Render | server.js:139 | `bulletPoints.map(bp => '• ' + bp).join('\n')` |
| Summarizer.Bulleted | server.js:139 | each bullet gets one line |
| Summarizer.RenderLines | server.js:139 | the rendered summary splits back at line breaks into the lines `• ` + bullet |
| Summarizer.SummaryWordCount | server.js:142 | `bulletPoints.join(' ').split(/\s+/).length` |
| Summarizer.WordCount | server.js:119 | the original word count is at least 1 |
| Summarizer.CompressionRatio | server.js:143 | `Math.round((1 - s / max(o, 1)) * 100)` on integers |
| Summarizer.CompressionRatioBounds | server.js:143 | the ratio is the integer nearest to `100 * (1 - s / o)`; it is at most 100 when the summary has a word, and it is negative exactly when `200 * (s - o) > o` |
| Summarizer.PercentText | server.js:143 | the number's decimal text followed by `%` |
| Summarizer.PercentTextValue | server.js:143 | the ratio text ends in `%`, and the text before it reads back as the number |
| Summarizer.SummaryRatio | server.js:138-144 | both word counts are at least 1; the ratio string is the percentage text (digits then `%`) of the integer `r` nearest to `100 * (1 - s / o)` for exactly those counts; `r` is at most 100, and negative exactly when `200 * (s - o) > o` |
| Summarizer.EmptyTextCounts | server.js:117-142 | an empty text counts 1 word, while its fallback summary counts at least 2 |
| Summarizer.RatioOfOneWord | server.js:143 | against a one-word text, a summary of `s` words has ratio `100 - 100 * s` |
| Summarizer.EmptyTextRatio | server.js:117-145 | for an empty text the ratio string is the percentage text of a ratio of at most -100, so the reported compression is negative |
| Summarizer.SummaryOf | server.js:137-144 | the object `generateSummary` returns: rendered bullets, key terms, both word counts and the ratio string |
| Summarizer.GenerateSummary | server.js:117-145 | the summary, bullets, key terms and counts it computes are those of `SummaryOf(text)` |
| KeyTerms.StopWords | server.js:149 | the 89 stop words of `stopWords`, as the union of the three groups below |
| KeyTerms.ShortStopWords | server.js:149 | template text: the stop words of at most three letters |
| KeyTerms.FourLetterStopWords | server.js:149 | template text: the stop words of four letters |
| KeyTerms.LongStopWords | server.js:149 | template text: the stop words of five letters or more |
| KeyTerms.Words | server.js:148 | `text.toLowerCase().split(/\s+/)` |
| KeyTerms.Clean | server.js:152 | cleaning keeps only `a`..`z` and never lengthens a word |
| KeyTerms.Counted | server.js:151-156 | no more words are counted than were read |
| KeyTerms.CountedAreTerms | server.js:152-153 | every counted word is longer than 3 letters, all `a`..`z`, and not a stop word |
| KeyTerms.FirstOccurrences | server.js:157 | the dictionary's keys are the counted words, each once, in first-insertion order |
| KeyTerms.Entries | server.js:150-157 | each entry pairs a key with its number of occurrences, which is at least 1 |
| KeyTerms.EntriesOfWord | server.js:157 | a word has an entry exactly when it was counted, and that entry is unique and carries its count |
| KeyTerms.Ranking | server.js:158 | the ranking keeps every entry and orders counts from high to low |
| KeyTerms.RankingEntries | server.js:157-158 | the ranking holds exactly the counted words, each once, with its count |
| KeyTerms.TopWords | server.js:159-160 | the result has `min(6, number of distinct terms)` words |
| KeyTerms.TopWordsAreRanked | server.js:157-160 | at most 6 distinct counted words, in order of non-increasing frequency |
| KeyTerms.TopWordsAreTheMostFrequent | server.js:158-159 | a counted word left out means 6 words were chosen, each at least as frequent as it |
| KeyTerms.TopWordsTiesInTextOrder | server.js:158 | among equally frequent terms, the one first seen in the text comes first |
| KeyTerms.KeyTermsAreTerms | server.js:147-161 | every key term occurs in the text and is a term (length over 3, `a`..`z`, no stop word) |
| KeyTerms.KeyTermsOf | server.js:147-161 | the key terms of a text: the first six words of the ranking of its counted words |
| KeyTerms.TallyStep | server.js:151-155 | one turn of the `forEach` keeps the dictionary a tally of the counted words: a word that is not counted changes nothing, a known word gets one more, a new word enters with 1 at the end of the key order |
| KeyTerms.CountTerms | server.js:150-156 | the `forEach` loop builds a dictionary keyed by the counted words in first-seen order, each mapped to its count |
| KeyTerms.EntriesOfTally | server.js:157 | the entries read off the finished dictionary are one per counted word, in insertion order, with its count |
| KeyTerms.ExtractKeyTerms | server.js:147-161 | the method returns `KeyTermsOf(text)`, the first six words of the ranking |
| KeyTermsAsWritten.CountAsWritten | server.js:150-156 | the `freq` object as written, where `freq[clean] \|\| 0` reads inherited names |
| KeyTermsAsWritten.InheritedText | server.js:154 | `String(v)` of an inherited member: `function Object() { [native code] }` for `constructor` |
| KeyTermsAsWritten.PlusOne | server.js:154 | `(v \|\| 0) + 1`: a falsy value gives 1, a number one more, anything else its string with `1` appended |
| KeyTermsAsWritten.Lookup | server.js:154 | looking up a key the dictionary lacks is `undefined`, unless the key is inherited from `Object.prototype` |
| KeyTermsAsWritten.CountAsWrittenAgrees | server.js:151-156 | with no inherited names among the words, the dictionary as written holds exactly the counts |
| KeyTermsAsWritten.ConstructorIsCounted | server.js:152-153 | `constructor` survives cleaning and the stop-word filter |
| KeyTermsAsWritten.LettersOnlyWord | server.js:148 | a text of letters `a`..`z` alone is a single word |
| KeyTermsAsWritten.CountOnceAsWritten | server.js:154 | counting an inherited name once stores a string, not 1 |
| KeyTermsAsWritten.ConstructorMiscounted | server.js:147-161 | for the text `constructor` the dictionary as written holds the string `function Object() { [native code] }1`, while the intended tally is 1 |
| KeyTermsAsWritten.PairsAsWritten | server.js:157 | `Object.entries(freq)` as written: the keys in insertion order with the values the object holds |
| KeyTermsAsWritten.Minus | server.js:158 | `b[1] - a[1]` on two values: their difference when both are numbers, otherwise `NaN` (none) |
| KeyTermsAsWritten.AheadAsWritten | server.js:158 | the comparator puts `a` ahead of `b` only when it returns a negative number, so never on `NaN` |
| KeyTermsAsWritten.InsertAsWritten | server.js:158 | inserting one entry, driven by the comparator as written, adds exactly one entry |
| KeyTermsAsWritten.SortAsWritten | server.js:158 | the sort as written keeps the number of entries |
| KeyTermsAsWritten.TopWordsAsWritten | server.js:157-160 | the first six words of the entries as written, sorted as written |
| KeyTermsAsWritten.ConstructorAppleKeys | server.js:150-157 | for the words `constructor apple apple` the dictionary's keys are `constructor` then `apple`, counted 1 and 2 times |
| KeyTermsAsWritten.SortedAsWritten | server.js:158 | the comparator `b[1] - a[1]` as written leaves two entries in place unless it finds the second ahead |
| KeyTermsAsWritten.ConstructorAppleAsWritten | server.js:147-161 | as written, the words `constructor apple apple` rank `constructor` first, because its string count makes the comparator `NaN` |
| KeyTermsAsWritten.ConstructorAppleIntended | server.js:147-161 | with the intended tally, `apple` (twice) ranks before `constructor` (once) |
| KeyTermsAsWritten.ConstructorOutranks | server.js:147-161 | as written `constructor` outranks the more frequent `apple`, the reverse of the intended order |
| Sorting.InsertByCount | server.js:158 | one step of the stable sort by descending count: the entry goes after every entry whose count is at least its own |
| Sorting.InsertPosition | server.js:158 | an entry goes after every entry with a count at least its own, and before the first with a lower count |
| Sorting.InsertByCountShape | server.js:158 | inserting places the entry at its position and shifts the rest unchanged |
| Sorting.InsertByCountMembers | server.js:158 | inserting adds exactly that entry |
| Sorting.InsertByCountSorted | server.js:158 | inserting into a non-increasing list keeps it non-increasing |
| Sorting.SortByCount | server.js:158 | sorting keeps the length and orders counts from high to low |
| Sorting.SortByCountMembers | server.js:158 | sorting keeps exactly the same entries, and distinct entries stay distinct |
| Sorting.SortByCountIsStable | server.js:158 | for every count, the entries with that count keep their input order |
| Sorting.BeforeInWithCountTail | server.js:158 | putting the head back keeps an order already present among the later entries of a count |
| Sorting.HeadBeforeInWithCount | server.js:158 | a head of a given count precedes every later entry of that count |
| Sorting.WithCountOrderAt | server.js:158 | two entries of one count appear in that order in the whole list |
| Sorting.SortByCountKeepsTies | server.js:158 | of two sorted entries with equal counts, the earlier one came earlier in the input |
| Generators.SliceLength | server.js:244 | `slice(0, end)` never returns more than the array holds |
| Generators.SliceLengthOfCount | server.js:244 | `slice(0, min(count, n))` keeps `min(count, n)` items for `count >= 0`; a negative count keeps `max(n + count, 0)` items from the front |
| Generators.CountOr | server.js:163 | a default parameter: the given count, or the default when none is given |
| Generators.QuizLength | server.js:163-244 | the number of questions `slice(0, Math.min(count, 7))` keeps |
| Generators.Minutes | server.js:249 | `${n} minutes` |
| Generators.QuestionText | server.js:164-242 | template text: the question of each template |
| Generators.OptionText | server.js:164-242 | template text: the four options of each template |
| Generators.AnswerText | server.js:164-242 | template text: the explanation of each template |
| Generators.CorrectOptions | server.js:164-242 | the index of the right option of each template, each below 4 |
| Generators.QuizTemplate | server.js:164-242 | one template: question, options, right option and explanation |
| Generators.QuizTemplates | server.js:164-242 | the seven templates in order |
| Generators.QuizLengthOfCount | server.js:244 | a missing count selects 5 questions, a count of 0 or more `min(count, 7)`, a negative count `max(7 + count, 0)` |
| Generators.GenerateQuiz | server.js:163-251 | the quiz reply: the selected question templates, their number and the time text |
| Generators.QuizShape | server.js:163-251 | the quiz is the first `min(count, 7)` templates, 5 when no count is given, counted from the back for a negative count; `totalQuestions` is their number, and each right answer is one of its 4 options |
| Generators.QuizTime | server.js:249 | the estimated time reads as twice the question count, followed by ` minutes` |
| Generators.GenerateFlashcards | server.js:253-271 | the flashcard reply: the selected card templates numbered from 1, unmastered, and their number |
| Generators.CardCount | server.js:253-265 | the number of cards `slice(0, Math.min(count, 8))` keeps, with 6 when no count is given |
| Generators.FrontText | server.js:254-263 | template text: the front of each card |
| Generators.BackText | server.js:254-263 | template text: the back of each card |
| Generators.FlashcardShape | server.js:253-271 | the deck is the first `min(count, 8)` templates, 6 when no count is given; cards get ids 1..n in order and are not mastered; `totalCards` is their number |
| Generators.FlashcardsPrefix | server.js:265 | asking for more cards only extends the deck |
| Generators.RelatedText | server.js:108-114 | template text: the five related-topic suggestions |
| Generators.RelatedTopics | server.js:106-115 | `related.slice(0, 3)` of the five suggestions |
| Generators.RelatedTopicsAreFirstThree | server.js:106-115 | the related topics are the first 3 of the 5 suggestions |
| Generators.LevelText | server.js:51-95 | template text: the explanation of each level |
| Generators.IsLevel | server.js:51-95 | the three levels the `explanations` object holds |
| Generators.LevelKey | server.js:100 | the key the lookup uses: the level, with an absent level read as `undefined` |
| Generators.ShownLevel | server.js:100 | the explanation shown is always one of the three levels |
| Generators.ShownLevelChoice | server.js:100 | a known level shows its own text, while an unknown or missing level shows the simple one |
| Generators.ReadTime | server.js:102 | the read time chosen by the requested level |
| Generators.GenerateExplanation | server.js:97-103 | the explanation reply: topic, level, the shown level's text, related topics and read time |
| Generators.ExplanationText | server.js:100 | a known level gets its own text; a missing or unknown level gets the simple text |
| Generators.ExplanationShape | server.js:97-103 | the reply echoes topic and level, carries the 3 related topics `Advanced`, `in Practice`, `History of`, and reads 2 min for `simple`, 5 min for `intermediate` and 10 min for any other or no level |
| Generators.ReadTimeOfLevel | server.js:102 | read times are 2, 5 and 10 minutes for the three levels; an unknown level shows the simple text but gets 10 minutes |
| GeneratorsAsWritten.ShownLevelAsWritten | server.js:100 | the lookup as written finds no text exactly for a level that is not one of the three but is inherited from `Object.prototype` |
| GeneratorsAsWritten.LevelTextAsWritten | server.js:100 | `(explanations[level] \|\| explanations.simple).default` as written, with `undefined` as none |
| GeneratorsAsWritten.ShownLevelAsWrittenAgrees | server.js:100 | for every other level, the lookup as written agrees with the corrected choice |
| GeneratorsAsWritten.ConstructorLevelHasNoText | server.js:100 | level `constructor` yields no explanation text as written, while the corrected choice shows the simple text |
| ChatReplies.Keywords | server.js:277-322 | the keywords each rule of the `if` chain tests with `includes` |
| ChatReplies.FirstMention | server.js:277-339 | the first rule of the chain whose keywords the message mentions |
| ChatReplies.IntentOf | server.js:274-339 | the branch of the `if` chain the lower-cased message takes |
| ChatReplies.FirstMentionIsFirst | server.js:277-339 | the chosen rule matches, no earlier rule matches, and the default is chosen exactly when no rule matches |
| ChatReplies.IntentIsFirstMatch | server.js:274-339 | the reply branch taken is the first rule matching the lower-cased message |
| ChatReplies.ExplainThisIsGreeting | server.js:277 | `explain this` gets the greeting, because `this` contains `hi` |
| ChatReplies.Fillers | server.js:285 | the alternatives of the filler pattern, in pattern order |
| ChatReplies.MatchAt | server.js:285 | a filler match at the front has the length of one filler, compared case-insensitively |
| ChatReplies.StripFillers | server.js:285 | removing fillers never lengthens the message and keeps only its characters |
| ChatReplies.StripWithoutFillers | server.js:285 | a message without fillers is left as it is |
| ChatReplies.ChatTopic | server.js:285 | the message without fillers, trimmed, or `this concept` when nothing is left |
| ChatReplies.ChatTopicShape | server.js:285 | the topic is never empty; unless it is the default `this concept`, it is made of the message's characters and has no surrounding whitespace |
| ChatReplies.ReplyText | server.js:278-338 | template text: the reply of each branch, with the topic spliced into the explain reply |
| ChatReplies.Suggestions | server.js:344-349 | template text: the four suggestions |
| ChatReplies.GenerateChatReply | server.js:273-351 | the chat reply: the branch's text, the timestamp and the 4 suggestions |
| ChatReplies.ChatReplyShape | server.js:274-350 | the reply is the text of the first rule, in the order of the `if` chain, that the lower-cased message matches (the default when none does) |
| AppShell.ThemeIcon | public/js/app.js:98 | the icon class: the moon for `dark`, the sun otherwise |
| AppShell.MilestoneOf | public/js/app.js:81-90 | the celebration for a streak value, if any |
| AppShell.MilestoneCases | public/js/app.js:81-90 | a celebration fires exactly at 5, at 10 and at multiples of 25, with no confetti at 5, 20 pieces at 10 and 40 at a multiple of 25 |
| AppShell.NextTheme | public/js/app.js:65-66 | the next theme is always `dark` or `light` |
| AppShell.ToggleTwice | public/js/app.js:63-67 | toggling twice from `dark` or `light` comes back to it; from anything but `dark` the toggle goes to `dark` |
| AppShell.CountSet | public/js/app.js:53-55 | no more flags are set than there are |
| AppShell.OneFlagPerKey | public/js/app.js:53-60 | with distinct ids, exactly one button (panel) is active when the tab exists, and none otherwise |
| AppShell.App.constructor | public/js/app.js:5-7 | the app starts on tab `chat` with streak 0 |
| AppShell.App.SwitchTab | public/js/app.js:49-61 | the tab becomes current; exactly the nav buttons for it and the panel `tab-<id>` are active; nothing else changes |
| AppShell.App.ToggleTheme | public/js/app.js:63-74 | the next theme is set, its icon shown and the theme stored; the toast names the theme |
| AppShell.App.IncrementStreak | public/js/app.js:76-91 | the streak goes up by exactly 1 and is stored; the celebration returned is the milestone reached |
| AppShell.App.LoadState | public/js/app.js:93-103 | the stored theme and streak are loaded, or `dark` and 0 when none is stored |
| QuizFlow.Percentage | public/js/quiz.js:152-153 | `Math.round(score / total * 100)`, or `NaN` (none) for an empty quiz |
| QuizFlow.PercentageBounds | public/js/quiz.js:152-153 | the percentage is the integer nearest to `100 * score / total` and lies between 0 and 100 |
| QuizFlow.PercentageEnds | public/js/quiz.js:153 | with fewer than 200 questions, 100% means a full score and 0% means no right answer |
| QuizFlow.BandOf | public/js/quiz.js:156-170 | the icon, title and confetti count chosen by the percentage |
| QuizFlow.ResultOf | public/js/quiz.js:152-178 | the results screen: percentage, band, right, wrong and total counts |
| QuizFlow.BandThresholds | public/js/quiz.js:156-170 | the bands cut at 80, 60 and 40; a higher percentage never gets a lower band; confetti falls exactly from 80; an empty quiz (`NaN`) gets the bottom band |
| QuizFlow.Quiz.ScoreBounded | public/js/quiz.js:104-122 | the score never exceeds the number of questions, so the incorrect count is never negative |
| QuizFlow.Quiz.constructor | public/js/quiz.js:5-10 | a new quiz has no questions, asks for 5 and shows the setup screen |
| QuizFlow.Quiz.ChooseCount | public/js/quiz.js:14-19 | a count button sets the number of questions asked for next |
| QuizFlow.Quiz.Start | public/js/quiz.js:37-69 | a blank topic or a failed request changes nothing; otherwise the generated questions are loaded, index, score and answered are reset, and the question screen shows |
| QuizFlow.Quiz.RenderQuestion | public/js/quiz.js:71-74 | the current question is shown unanswered |
| QuizFlow.Quiz.Answer | public/js/quiz.js:104-136 | once answered, nothing changes; otherwise the question becomes answered and the score rises by 1 exactly when the chosen option is the right one; the score counts each question at most once |
| QuizFlow.Quiz.Next | public/js/quiz.js:138-146 | the index rises by exactly 1; the results show exactly when it reaches the end, keeping `answered`, and then the streak goes up by 1 and is stored; otherwise the next question shows unanswered and the streak and its stored copy stay; the app's tab, theme, icon and flags never change |
| QuizFlow.Quiz.ShowResults | public/js/quiz.js:148-185 | the results screen shows the percentage, its band, and right and wrong counts that are never negative; the streak goes up by 1 and is stored, and nothing else of the app changes |
| QuizFlow.Quiz.Reset | public/js/quiz.js:187-192 | the setup screen shows again |
| FlashcardFlow.CountStatus | public/js/flashcards.js:177-178 | a tally never exceeds the number of cards |
| FlashcardFlow.CountStatusAll | public/js/flashcards.js:177-180 | the tally of a status is the deck size exactly when every card has it, and positive exactly when some card has it |
| FlashcardFlow.DeckEndOf | public/js/flashcards.js:176-185 | the end-of-deck message chosen by the mastered and review tallies |
| FlashcardFlow.DeckEndCases | public/js/flashcards.js:176-185 | a finished deck is celebrated exactly when every card is mastered; otherwise it reports the review count exactly when some card is marked for review |
| FlashcardFlow.DotClass | public/js/flashcards.js:129-135 | the class string of one progress dot |
| FlashcardFlow.DotClassDistinguishes | public/js/flashcards.js:129-135 | two dots look alike exactly when both or neither are current and their statuses are equal or both among `good` and `unseen` |
| FlashcardFlow.Dots | public/js/flashcards.js:129 | there is one dot per card |
| FlashcardFlow.OneCurrentDot | public/js/flashcards.js:129-135 | of the dots drawn, exactly those with the class of a current card of their status are current, and there is exactly one such dot when the index is inside the deck and none otherwise |
| FlashcardFlow.Flashcards.constructor | public/js/flashcards.js:5-9 | a new deck is empty, asks for 6 cards and shows its front |
| FlashcardFlow.Flashcards.ChooseCount | public/js/flashcards.js:13-19 | a count button sets the number of cards asked for next |
| FlashcardFlow.Flashcards.Generate | public/js/flashcards.js:74-106 | a blank topic or a failed request changes nothing; otherwise a fresh deck of the generated cards, all unseen, at the first card, front up |
| FlashcardFlow.Flashcards.RenderCard | public/js/flashcards.js:108-125 | the current card shows its front |
| FlashcardFlow.Flashcards.Flip | public/js/flashcards.js:138-142 | the card turns over |
| FlashcardFlow.Flashcards.Prev | public/js/flashcards.js:144-149 | one card back, front up, unless at the first card, where nothing changes |
| FlashcardFlow.Flashcards.Next | public/js/flashcards.js:151-156 | one card on, front up, unless at the last card, where nothing changes |
| FlashcardFlow.Flashcards.MarkCard | public/js/flashcards.js:158-189 | only the current card's status changes; before the last card the deck moves on, front up; at the last card the end message is returned and the streak goes up by 1 and is stored; nothing else of the app changes |
| FlashcardFlow.Flashcards.BackToSetup | public/js/flashcards.js:191-194 | the setup form shows again and the deck is kept |
| FlashcardFlow.Flashcards.Progress | public/js/flashcards.js:127-136 | dot `i` is `fc-dot`, plus ` current` on the current card, plus ` mastered` or ` review` by status; exactly one dot is drawn current while the index is inside the deck |

## Left out

- Express routing, `app.listen` and the `fetch` client (public/js/api.js) are network plumbing. The server functions are called directly, and a `reachable` flag stands for a failed request.
- DOM reads and writes, toasts and the loading screen are left out. What the code decides is kept as fields and results: active flags, theme, icon, screen and end messages.
- `Utils.spawnConfetti` draws random positions. Only the number of pieces is kept.
- Local storage and `JSON.parse` are foreign calls. The stored theme and streak are plain fields.
- The chat reply's `timestamp` reads the clock. It is a parameter.
- The chat `history` argument is never read by the server, so it is dropped.
- The 400 ms timer before `markCard` moves to the next card is modelled as an immediate step. In the source, two marks within 400 ms (key `3` pressed twice, say) schedule two advances, so a card is skipped; at the last-but-one card the second advance moves `currentIndex` past the deck, after which `renderCard` and `markCard` throw. The model's `Flashcards.Valid()` (the index stays inside the deck) holds only because each mark advances at once.
- public/js/chat.js, public/js/summarizer.js, public/js/explainer.js and `Utils.markdownToHtml` are not part of this model.
- Floating point: `Math.round` of the quiz percentage and of the compression ratio is computed exactly on integers. Where the exact value is a half, double-precision error in the source could round the other way; that is not modelled.
- `toLowerCase` and the `i` flag of the filler pattern are modelled for ASCII letters only.
- Strings are sequences of Unicode characters, not UTF-16 code units. The `\s` class is the full set of characters JavaScript counts as whitespace.
- Counts that are not integers (`parseInt` giving `NaN`, fractional request values) are not modelled. Counts are integers or absent.
- Template prose is reproduced, but no lemma states anything about its words. Lemmas say which template is chosen.
- Exceptions are not modelled as such. `renderQuestion` and `renderCard` on an empty list, `answer` past the last question and `markCard` on an empty deck throw a `TypeError` in the source. The model leaves the fields as they are at the throw: after the resets in the first three cases, and unchanged in the last.
- The `keydown` handlers that call the same operations are left out.
- QuizFlow.PercentageEnds: only proved for fewer than 200 questions. From 200 questions on, one wrong answer rounds to 100% (199 of 200); from 201 on, one right answer rounds to 0%.
- KeyTermsAsWritten.SortAsWritten: `Array.prototype.sort` is modelled as a stable insertion sort driven by the comparator as written. On two entries any engine agrees with it; on longer lists a comparator that is not consistent (one returning `NaN`) may leave a different order in a given engine.
- KeyTermsAsWritten.ConstructorOutranks: starts from the counted words `constructor apple apple`, not from the raw text; reading them off a text is stated in general by `KeyTerms.Words` and `KeyTerms.Counted`.
- Generators.FlashcardShape: the templates themselves are stated through `FrontText` and `BackText`, not word by word.

## Findings

| source | as written | input that shows it | evidently intended | confidence | as-written member | corrected member |
|---|---|---|---|---|---|---|
| server.js:150-154 | `freq` is a plain object, so `freq["constructor"]` is the inherited `Object` function, and `(freq[clean] \|\| 0) + 1` stores the string `function Object() { [native code] }1`; the sort's `b[1] - a[1]` is then `NaN`, so `constructor` can outrank more frequent words (`KeyTermsAsWritten.ConstructorOutranks`: words `constructor apple apple` rank `constructor` before `apple`) | text `constructor` | the word is tallied with count 1, like any other term | high, not executed | KeyTermsAsWritten.ConstructorMiscounted | KeyTerms.CountTerms |
| server.js:100 | `explanations[level]` for level `constructor` (or `toString`, `valueOf`, ...) is an inherited function, so `\|\|` keeps it and `.default` is `undefined` | level `constructor` | an unknown level falls back to the simple explanation | high, not executed | GeneratorsAsWritten.ConstructorLevelHasNoText | Generators.ShownLevelChoice |
