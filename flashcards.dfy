/** The `Flashcards` object of public/js/flashcards.js: a deck of the cards
    `generateFlashcards` returned, each with a study status that marking
    changes in place, a current card that moves within the deck, and whether
    the current card shows its back. */
module FlashcardFlow {
  import opened Builtins
  import opened Generators
  import opened AppShell

  /** The `status` a card carries: `unseen` when dealt, then whichever of the
      three buttons marked it last. */
  datatype Status = Unseen | Review | Good | Mastered

  /** A card of the deck: the generated card and its status. */
  datatype DeckCard = DeckCard(card: Card, status: Status)

  // ---------------------------------------------------------------- tallies

  /** `cards.filter(c => c.status === status).length`. */
  function CountStatus(cards: seq<DeckCard>, status: Status): (n: nat)
    ensures n <= |cards|
  {
    if cards == [] then 0
    else (if cards[0].status == status then 1 else 0) + CountStatus(cards[1..], status)
  }

  /** Every card has the status exactly when the tally is the deck size; the
      tally is positive exactly when some card has it. */
  lemma {:induction false} CountStatusAll(cards: seq<DeckCard>, status: Status)
    ensures CountStatus(cards, status) == |cards| <==> forall i :: 0 <= i < |cards| ==> cards[i].status == status
    ensures CountStatus(cards, status) > 0 <==> exists i :: 0 <= i < |cards| && cards[i].status == status
  {
    if cards != [] {
      CountStatusAll(cards[1..], status);
      assert forall i :: 1 <= i < |cards| ==> cards[i] == cards[1..][i - 1];
      if CountStatus(cards[1..], status) > 0 {
        var j :| 0 <= j < |cards[1..]| && cards[1..][j].status == status;
        assert cards[j + 1].status == status;
      }
    }
  }

  /** What the last card's marking reports about the finished deck. */
  datatype DeckEnd = AllMastered | NeedReview(count: nat) | Quiet

  /** The message for a finished deck: a celebration (with 30 pieces of
      confetti) when every card is mastered, else the number of cards marked
      for review when there are any. */
  function DeckEndOf(cards: seq<DeckCard>): DeckEnd {
    var mastered := CountStatus(cards, Mastered);
    var review := CountStatus(cards, Review);
    if mastered == |cards| then AllMastered
    else if review > 0 then NeedReview(review)
    else Quiet
  }

  /** The finished deck is celebrated exactly when every card is mastered;
      otherwise it reports the review count exactly when some card is marked
      for review. */
  lemma DeckEndCases(cards: seq<DeckCard>)
    ensures DeckEndOf(cards) == AllMastered <==> forall i :: 0 <= i < |cards| ==> cards[i].status == Mastered
    ensures DeckEndOf(cards).NeedReview? <==>
              (exists i :: 0 <= i < |cards| && cards[i].status != Mastered)
              && (exists i :: 0 <= i < |cards| && cards[i].status == Review)
    ensures DeckEndOf(cards).NeedReview? ==> DeckEndOf(cards).count == CountStatus(cards, Review) > 0
  {
    CountStatusAll(cards, Mastered);
    CountStatusAll(cards, Review);
  }

  // ---------------------------------------------------------------- progress dots

  /** The class of progress dot `i`: `fc-dot`, then ` current` on the current
      card, then ` mastered` or ` review` by status. */
  function DotClass(isCurrent: bool, status: Status): string {
    "fc-dot" + (if isCurrent then " current" else "")
    + (if status == Mastered then " mastered" else if status == Review then " review" else "")
  }

  /** The dot's class tells whether the card is current and whether it is
      mastered, marked for review or neither: `good` and `unseen` look alike,
      and nothing else does. */
  lemma DotClassDistinguishes(c1: bool, s1: Status, c2: bool, s2: Status)
    ensures DotClass(c1, s1) == DotClass(c2, s2) <==>
              c1 == c2 && (s1 == s2 || (s1 in {Good, Unseen} && s2 in {Good, Unseen}))
  {
    if DotClass(c1, s1) == DotClass(c2, s2) {
      assert |DotClass(c1, s1)| == |DotClass(c2, s2)|;
    }
  }

  /** `renderProgress()`: the class of every dot. */
  function Dots(cards: seq<DeckCard>, currentIndex: int): (r: seq<string>)
    ensures |r| == |cards|
  {
    seq(|cards|, i requires 0 <= i < |cards| => DotClass(i == currentIndex, cards[i].status))
  }

  /** How many of the dots from position `from` on are drawn as current,
      that is carry the class of a current card of their status. */
  function CurrentDots(cards: seq<DeckCard>, currentIndex: int, from: nat): nat
    requires from <= |cards|
    decreases |cards| - from
  {
    if from == |cards| then 0
    else
      var drawnCurrent := Dots(cards, currentIndex)[from] == DotClass(true, cards[from].status);
      (if drawnCurrent then 1 else 0) + CurrentDots(cards, currentIndex, from + 1)
  }

  /** Of the dots `renderProgress()` draws, exactly one is current when the
      current index is in the deck, and none otherwise. */
  lemma {:induction false} OneCurrentDot(cards: seq<DeckCard>, currentIndex: int, from: nat)
    requires from <= |cards|
    ensures CurrentDots(cards, currentIndex, from) == (if from <= currentIndex < |cards| then 1 else 0)
    decreases |cards| - from
  {
    if from < |cards| {
      var status := cards[from].status;
      DotClassDistinguishes(from == currentIndex, status, true, status);
      OneCurrentDot(cards, currentIndex, from + 1);
    }
  }

  // ---------------------------------------------------------------- the deck

  class Flashcards {
    var cards: array<DeckCard>
    var currentIndex: int
    /** The count chosen with the count buttons. */
    var cardCount: int
    var isFlipped: bool
    /** Whether the deck is showing rather than the setup form. */
    var deckShown: bool

    /** The current card is in the deck, or the deck is empty and the index 0. */
    predicate Valid()
      reads this
    {
      0 <= currentIndex && (currentIndex < cards.Length || currentIndex == 0)
    }

    /** The object literal: an empty deck showing its front. */
    constructor ()
      ensures Valid()
      ensures cards.Length == 0 && currentIndex == 0 && cardCount == 6 && !isFlipped && !deckShown
    {
      cards := new DeckCard[0];
      currentIndex := 0;
      cardCount := 6;
      isFlipped := false;
      deckShown := false;
    }

    /** A count button: the number of cards to ask for next. */
    method ChooseCount(count: int)
      modifies this
      ensures cardCount == count
      ensures cards == old(cards) && currentIndex == old(currentIndex)
      ensures isFlipped == old(isFlipped) && deckShown == old(deckShown)
    {
      cardCount := count;
    }

    /** `generate()` for the topic typed in: nothing happens for a blank topic
        or when the request fails (`reachable` false); otherwise a new deck of
        the cards `generateFlashcards` returns, all unseen, at the first card,
        front up. */
    method Generate(topic: string, reachable: bool)
      requires Valid()
      modifies this
      ensures Valid()
      ensures Trim(topic) == [] || !reachable ==>
                cards == old(cards) && currentIndex == old(currentIndex) && isFlipped == old(isFlipped)
                && deckShown == old(deckShown)
      ensures Trim(topic) != [] && reachable ==>
                && fresh(cards)
                && cards.Length == |GenerateFlashcards(Trim(topic), Some(cardCount)).cards|
                && (forall i :: 0 <= i < cards.Length ==>
                      cards[i] == DeckCard(GenerateFlashcards(Trim(topic), Some(cardCount)).cards[i], Unseen))
                && currentIndex == 0 && !isFlipped && deckShown
      ensures cardCount == old(cardCount)
    {
      var t := Trim(topic);
      if t == [] || !reachable {
        return;
      }
      var dealt := GenerateFlashcards(t, Some(cardCount)).cards;
      cards := new DeckCard[|dealt|](i requires 0 <= i < |dealt| => DeckCard(dealt[i], Unseen));
      currentIndex := 0;
      deckShown := true;
      RenderCard();
    }

    /** `renderCard()`: the current card is shown front up. */
    method RenderCard()
      modifies this
      ensures !isFlipped
      ensures cards == old(cards) && currentIndex == old(currentIndex) && cardCount == old(cardCount)
      ensures deckShown == old(deckShown)
    {
      isFlipped := false;
    }

    /** `flip()`: the card turns over. */
    method Flip()
      modifies this
      ensures isFlipped == !old(isFlipped)
      ensures cards == old(cards) && currentIndex == old(currentIndex) && cardCount == old(cardCount)
      ensures deckShown == old(deckShown)
    {
      isFlipped := !isFlipped;
    }

    /** `prev()`: one card back, front up, unless at the first card, where
        nothing changes. */
    method Prev()
      requires Valid()
      modifies this
      ensures Valid()
      ensures old(currentIndex) > 0 ==> currentIndex == old(currentIndex) - 1 && !isFlipped
      ensures old(currentIndex) == 0 ==> currentIndex == 0 && isFlipped == old(isFlipped)
      ensures cards == old(cards) && cardCount == old(cardCount)
      ensures deckShown == old(deckShown)
    {
      if currentIndex > 0 {
        currentIndex := currentIndex - 1;
        RenderCard();
      }
    }

    /** `next()`: one card on, front up, unless at the last card, where
        nothing changes. */
    method Next()
      requires Valid()
      modifies this
      ensures Valid()
      ensures old(currentIndex) < cards.Length - 1 ==> currentIndex == old(currentIndex) + 1 && !isFlipped
      ensures old(currentIndex) >= cards.Length - 1 ==> currentIndex == old(currentIndex) && isFlipped == old(isFlipped)
      ensures cards == old(cards) && cardCount == old(cardCount)
      ensures deckShown == old(deckShown)
    {
      if currentIndex < cards.Length - 1 {
        currentIndex := currentIndex + 1;
        RenderCard();
      }
    }

    /** `markCard(status)`: the current card takes the status and no other
        card changes. Before the last card the deck moves on to the next card,
        front up (the source waits 400 ms first); at the last card the deck
        is finished: its end message is returned and the app's streak goes
        up. On an empty deck there is no card to mark and nothing changes. */
    method MarkCard(status: Status, app: App) returns (finished: Option<DeckEnd>)
      requires Valid() && app.Valid() && status != Unseen
      modifies this, cards, app
      ensures Valid() && app.Valid()
      ensures app.SameButStreak()
      ensures cards == old(cards) && cardCount == old(cardCount) && deckShown == old(deckShown)
      ensures old(cards.Length) == 0 ==>
                cards[..] == old(cards[..]) && currentIndex == old(currentIndex) && isFlipped == old(isFlipped)
                && finished == None && app.streak == old(app.streak) && app.storedStreak == old(app.storedStreak)
      ensures old(cards.Length) > 0 ==>
                cards[..] == old(cards[..])[old(currentIndex) := old(cards[currentIndex]).(status := status)]
      ensures old(cards.Length) > 0 && old(currentIndex) < cards.Length - 1 ==>
                currentIndex == old(currentIndex) + 1 && !isFlipped
                && finished == None && app.streak == old(app.streak) && app.storedStreak == old(app.storedStreak)
      ensures old(cards.Length) > 0 && old(currentIndex) == cards.Length - 1 ==>
                currentIndex == old(currentIndex) && isFlipped == old(isFlipped)
                && finished == Some(DeckEndOf(cards[..]))
                && app.streak == old(app.streak) + 1 && app.storedStreak == Some(app.streak)
    {
      if cards.Length == 0 {
        return None;
      }
      cards[currentIndex] := cards[currentIndex].(status := status);
      if currentIndex < cards.Length - 1 {
        currentIndex := currentIndex + 1;
        RenderCard();
        finished := None;
      } else {
        finished := Some(DeckEndOf(cards[..]));
        var _ := app.IncrementStreak();
      }
    }

    /** `backToSetup()`: the setup form shows again; the deck is kept. */
    method BackToSetup()
      modifies this
      ensures !deckShown
      ensures cards == old(cards) && currentIndex == old(currentIndex)
      ensures isFlipped == old(isFlipped) && cardCount == old(cardCount)
    {
      deckShown := false;
    }

    /** `renderProgress()`: the class of each card's dot. */
    function Progress(): (r: seq<string>)
      reads this, cards
      ensures |r| == cards.Length
      ensures forall i :: 0 <= i < cards.Length ==> r[i] == DotClass(i == currentIndex, cards[i].status)
      ensures CurrentDots(cards[..], currentIndex, 0) == (if 0 <= currentIndex < cards.Length then 1 else 0)
    {
      OneCurrentDot(cards[..], currentIndex, 0);
      Dots(cards[..], currentIndex)
    }
  }
}
