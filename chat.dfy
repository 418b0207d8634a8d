/** `generateChatReply` in server.js: the lower-cased message is tested against
    seven keyword rules in a fixed order and the first rule that matches picks
    the reply; the explain reply names a topic cut out of the message by
    removing filler phrases; every reply carries the same four suggestions. */
module ChatReplies {
  import opened Builtins

  // ---------------------------------------------------------------- intents

  /** The branch of the `if` chain a message takes; `Other` is the final `else`. */
  datatype Intent = Greeting | Explain | QuizHint | FlashcardHint | SummarizeHint | Help | Thanks | Other

  /** The keywords each branch tests with `includes`. */
  function Keywords(intent: Intent): seq<string> {
    match intent
    case Greeting => ["hello", "hi", "hey"]
    case Explain => ["explain", "what is", "what are", "define"]
    case QuizHint => ["quiz", "test"]
    case FlashcardHint => ["flashcard"]
    case SummarizeHint => ["summarize", "summary"]
    case Help => ["help", "how"]
    case Thanks => ["thank"]
    case Other => []
  }

  /** The position of a branch in the chain. */
  function Rank(intent: Intent): nat {
    match intent
    case Greeting => 0
    case Explain => 1
    case QuizHint => 2
    case FlashcardHint => 3
    case SummarizeHint => 4
    case Help => 5
    case Thanks => 6
    case Other => 7
  }

  /** The message holds one of the branch's keywords. */
  predicate Mentions(msg: string, intent: Intent) {
    exists k :: 0 <= k < |Keywords(intent)| && Contains(msg, Keywords(intent)[k])
  }

  /** The branch `generateChatReply` takes for `message`, tested in the
      source's order on `message.toLowerCase()`. */
  function IntentOf(message: string): Intent {
    var msg := Lower(message);
    if Contains(msg, "hello") || Contains(msg, "hi") || Contains(msg, "hey") then Greeting
    else if Contains(msg, "explain") || Contains(msg, "what is") || Contains(msg, "what are") || Contains(msg, "define") then Explain
    else if Contains(msg, "quiz") || Contains(msg, "test") then QuizHint
    else if Contains(msg, "flashcard") then FlashcardHint
    else if Contains(msg, "summarize") || Contains(msg, "summary") then SummarizeHint
    else if Contains(msg, "help") || Contains(msg, "how") then Help
    else if Contains(msg, "thank") then Thanks
    else Other
  }

  lemma MentionsGreeting(msg: string)
    ensures Mentions(msg, Greeting) <==> Contains(msg, "hello") || Contains(msg, "hi") || Contains(msg, "hey")
  {
    if Contains(msg, "hello") { assert Keywords(Greeting)[0] == "hello"; }
    if Contains(msg, "hi") { assert Keywords(Greeting)[1] == "hi"; }
    if Contains(msg, "hey") { assert Keywords(Greeting)[2] == "hey"; }
  }

  lemma MentionsExplain(msg: string)
    ensures Mentions(msg, Explain)
            <==> Contains(msg, "explain") || Contains(msg, "what is") || Contains(msg, "what are") || Contains(msg, "define")
  {
    if Contains(msg, "explain") { assert Keywords(Explain)[0] == "explain"; }
    if Contains(msg, "what is") { assert Keywords(Explain)[1] == "what is"; }
    if Contains(msg, "what are") { assert Keywords(Explain)[2] == "what are"; }
    if Contains(msg, "define") { assert Keywords(Explain)[3] == "define"; }
  }

  lemma MentionsQuiz(msg: string)
    ensures Mentions(msg, QuizHint) <==> Contains(msg, "quiz") || Contains(msg, "test")
  {
    if Contains(msg, "quiz") { assert Keywords(QuizHint)[0] == "quiz"; }
    if Contains(msg, "test") { assert Keywords(QuizHint)[1] == "test"; }
  }

  lemma MentionsFlashcard(msg: string)
    ensures Mentions(msg, FlashcardHint) <==> Contains(msg, "flashcard")
  {
    if Contains(msg, "flashcard") { assert Keywords(FlashcardHint)[0] == "flashcard"; }
  }

  lemma MentionsSummarize(msg: string)
    ensures Mentions(msg, SummarizeHint) <==> Contains(msg, "summarize") || Contains(msg, "summary")
  {
    if Contains(msg, "summarize") { assert Keywords(SummarizeHint)[0] == "summarize"; }
    if Contains(msg, "summary") { assert Keywords(SummarizeHint)[1] == "summary"; }
  }

  lemma MentionsHelp(msg: string)
    ensures Mentions(msg, Help) <==> Contains(msg, "help") || Contains(msg, "how")
  {
    if Contains(msg, "help") { assert Keywords(Help)[0] == "help"; }
    if Contains(msg, "how") { assert Keywords(Help)[1] == "how"; }
  }

  lemma MentionsThanks(msg: string)
    ensures Mentions(msg, Thanks) <==> Contains(msg, "thank")
  {
    if Contains(msg, "thank") { assert Keywords(Thanks)[0] == "thank"; }
  }

  /** The first rule, in the order of the chain, whose keywords `msg` mentions. */
  function FirstMention(msg: string): Intent {
    if Mentions(msg, Greeting) then Greeting
    else if Mentions(msg, Explain) then Explain
    else if Mentions(msg, QuizHint) then QuizHint
    else if Mentions(msg, FlashcardHint) then FlashcardHint
    else if Mentions(msg, SummarizeHint) then SummarizeHint
    else if Mentions(msg, Help) then Help
    else if Mentions(msg, Thanks) then Thanks
    else Other
  }

  /** `FirstMention` is the rule of lowest rank that matches, and `Other`
      exactly when no rule matches. */
  lemma FirstMentionIsFirst(msg: string)
    ensures FirstMention(msg) != Other ==> Mentions(msg, FirstMention(msg))
    ensures forall r: Intent :: Rank(r) < Rank(FirstMention(msg)) ==> !Mentions(msg, r)
    ensures FirstMention(msg) == Other <==> forall r: Intent :: r != Other ==> !Mentions(msg, r)
  {
    assert !Mentions(msg, Other);
  }

  /** The `if` chain on the lower-cased message is the first-match rule over
      the keyword table. */
  lemma IntentIsFirstMatch(message: string)
    ensures IntentOf(message) == FirstMention(Lower(message))
  {
    var msg := Lower(message);
    MentionsGreeting(msg);
    MentionsExplain(msg);
    MentionsQuiz(msg);
    MentionsFlashcard(msg);
    MentionsSummarize(msg);
    MentionsHelp(msg);
    MentionsThanks(msg);
  }

  /** "explain this" is answered with the greeting: "this" holds "hi", and the
      greeting rule is tested before the explain rule. */
  lemma ExplainThisIsGreeting(message: string)
    requires message == "explain this"
    ensures IntentOf(message) == Greeting
  {
    forall i | 0 <= i < |message| ensures Lower(message)[i] == message[i] {
      assert !('A' <= message[i] <= 'Z');
    }
    assert Lower(message) == message;
    assert message[9..] == "his";
    assert "hi" <= message[9..];
  }

  // ---------------------------------------------------------------- topic

  /** The alternatives of `/explain|what is|what are|define|please|can you|tell me about/gi`, in order. */
  function Fillers(): seq<string> {
    ["explain", "what is", "what are", "define", "please", "can you", "tell me about"]
  }

  /** The length of the first alternative in `alts` that the text starts with,
      letters compared without case; zero when none matches. */
  function MatchAt(s: string, alts: seq<string>): (n: nat)
    ensures n <= |s|
    ensures n > 0 ==> exists k :: 0 <= k < |alts| && |alts[k]| == n && Lower(s[..n]) == alts[k]
  {
    if alts == [] then 0
    else if |alts[0]| <= |s| && Lower(s[..|alts[0]|]) == alts[0] && |alts[0]| > 0 then |alts[0]|
    else
      var n := MatchAt(s, alts[1..]);
      assert n > 0 ==> exists k :: 0 <= k < |alts[1..]| && |alts[1..][k]| == n && Lower(s[..n]) == alts[1..][k];
      n
  }

  /** `message.replace(filler, '')`: scanning left to right, every match of an
      alternative is removed and scanning resumes after it. */
  function StripFillers(s: string): (r: string)
    ensures |r| <= |s|
    ensures forall c :: c in r ==> c in s
    decreases |s|
  {
    if s == [] then []
    else
      var n := MatchAt(s, Fillers());
      if n > 0 then
        var rest := StripFillers(s[n..]);
        assert forall c :: c in rest ==> c in s[n..];
        rest
      else
        var rest := StripFillers(s[1..]);
        assert forall c :: c in rest ==> c in s[1..];
        [s[0]] + rest
  }

  /** A message in which no filler starts anywhere is kept as it is. */
  lemma {:induction false} StripWithoutFillers(s: string)
    requires forall i :: 0 <= i < |s| ==> MatchAt(s[i..], Fillers()) == 0
    ensures StripFillers(s) == s
    decreases |s|
  {
    if s != [] {
      assert s[0..] == s;
      forall i | 0 <= i < |s[1..]| ensures MatchAt(s[1..][i..], Fillers()) == 0 {
        assert s[1..][i..] == s[i + 1..];
      }
      StripWithoutFillers(s[1..]);
    }
  }

  /** The topic of the explain reply: the message without fillers, trimmed,
      or `this concept` when nothing is left. */
  function ChatTopic(message: string): string {
    var t := Trim(StripFillers(message));
    if t == [] then "this concept" else t
  }

  /** The topic is never empty; unless it is the default it is made of the
      message's own characters and has no surrounding white space. */
  lemma ChatTopicShape(message: string)
    ensures ChatTopic(message) != []
    ensures ChatTopic(message) != "this concept" ==>
              (forall c :: c in ChatTopic(message) ==> c in message)
              && !IsSpace(ChatTopic(message)[0]) && !IsSpace(ChatTopic(message)[|ChatTopic(message)| - 1])
  {
    var stripped := StripFillers(message);
    var t := Trim(stripped);
    if t != [] {
      TrimChars(stripped, IsSpace);
      TrimSlice(stripped, IsSpace);
    }
  }

  // ---------------------------------------------------------------- reply

  /** The reply text of each branch. */
  function ReplyText(intent: Intent, message: string): string {
    match intent
    case Greeting =>
      "Hello! 👋 I'm your AI Study Buddy. I can help you with:\n\n"
      + "📖 **Explaining topics** — Ask me to explain anything!\n"
      + "📝 **Summarizing notes** — Paste your notes and I'll condense them\n"
      + "❓ **Generating quizzes** — Test your knowledge\n"
      + "🃏 **Creating flashcards** — For quick review\n\n"
      + "What would you like to study today?"
    case Explain =>
      var topic := ChatTopic(message);
      "Great question! Let me explain **" + topic + "**:\n\n"
      + "**" + topic + "** is a concept that involves understanding and applying specific principles. "
      + "Think of it as building blocks — each piece connects to form a complete picture.\n\n"
      + "**Key takeaways:**\n"
      + "1. It starts with fundamental principles\n"
      + "2. Each concept builds on the previous one\n"
      + "3. Practice and application solidify understanding\n\n"
      + "Would you like me to go deeper, create a quiz, or make flashcards on this topic? 🎓"
    case QuizHint =>
      "I'd love to help you test your knowledge! 🎯\n\n"
      + "To generate a quiz, head over to the **Quiz Generator** tab and enter your topic.\n\n"
      + "Or tell me the subject and I can give you a quick question right here!\n\n"
      + "What topic would you like to be quizzed on?"
    case FlashcardHint =>
      "Flashcards are a great study tool! 🃏\n\n"
      + "Check out the **Flashcards** tab to generate a full set.\n\n"
      + "Or tell me a topic and I'll give you a quick one:\n\n"
      + "**Front:** What's on your mind?\n**Back:** The answer you're looking for! 😄\n\n"
      + "What topic should the flashcards cover?"
    case SummarizeHint =>
      "I can help summarize your notes! 📝\n\n"
      + "Head to the **Summarizer** tab and paste your text, or share it here in chat.\n\n"
      + "I'll extract the key points and give you a concise summary with important terms highlighted."
    case Help =>
      "Here's how I can help you study more effectively:\n\n"
      + "🔹 **Type a question** — I'll answer it conversationally\n"
      + "🔹 **Use the tabs above** — For specialized tools:\n"
      + "   • 💡 Explainer — Deep topic explanations\n"
      + "   • 📝 Summarizer — Condense long notes\n"
      + "   • ❓ Quiz — Test your knowledge\n"
      + "   • 🃏 Flashcards — Quick review cards\n\n"
      + "🔹 **Study tips:**\n"
      + "   • Break study sessions into 25-min blocks (Pomodoro)\n"
      + "   • Test yourself regularly with quizzes\n"
      + "   • Use flashcards for spaced repetition\n\n"
      + "What would you like to work on?"
    case Thanks =>
      "You're welcome! 😊 Happy studying! Remember:\n\n"
      + "💪 Consistency beats intensity\n"
      + "🧠 Understanding beats memorization\n"
      + "📚 Practice makes permanent\n\n"
      + "I'm here whenever you need help!"
    case Other =>
      "That's an interesting question about \"" + message + "\"!\n\n"
      + "Here's what I can tell you:\n\n"
      + "This topic involves understanding core principles and their applications. "
      + "The key is to break it down into smaller, manageable concepts.\n\n"
      + "**My suggestions:**\n"
      + "1. Start with the basics — make sure fundamentals are solid\n"
      + "2. Look for patterns and connections\n"
      + "3. Practice with real examples\n"
      + "4. Test yourself regularly\n\n"
      + "Want me to create a quiz or flashcards on this topic? Or would you like a more detailed explanation? 🎓"
  }

  /** The follow-up prompts offered with every reply. */
  function Suggestions(): seq<string> {
    ["Explain this in simpler terms", "Create a quiz on this topic", "Generate flashcards", "Give me study tips"]
  }

  datatype ChatReply = ChatReply(reply: string, timestamp: string, suggestions: seq<string>)

  /** `generateChatReply(message, history)`; the clock reading is the
      `timestamp` parameter. */
  function GenerateChatReply(message: string, timestamp: string): ChatReply {
    ChatReply(ReplyText(IntentOf(message), message), timestamp, Suggestions())
  }

  /** Every reply is the text of the first rule, in the order of the chain,
      whose keywords the lower-cased message contains (`FirstMentionIsFirst`
      states what that rule is). */
  lemma ChatReplyShape(message: string, timestamp: string)
    ensures var r := GenerateChatReply(message, timestamp);
            r.reply == ReplyText(FirstMention(Lower(message)), message)
  {
    IntentIsFirstMatch(message);
  }
}
