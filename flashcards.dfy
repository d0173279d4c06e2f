/**
 * The flashcards page: stepping through the deck as a carousel, adding a card
 * from the form and deleting the card on show.
 *
 * The index on show is a natural number: the page only ever sets it to 0, to
 * a list position or to a remainder of a non-negative number, so JavaScript's
 * `%` and Dafny's agree on every value it takes.
 */
module Flashcards {
  import opened PicoTypes
  import opened Text
  import opened PicoLabStore
  import opened Lists

  /** `(i + 1) % n`: the next card, wrapping after the last. */
  function Next(i: nat, n: nat): (r: nat)
    requires n > 0
    ensures r < n
  {
    (i + 1) % n
  }

  /** `(i - 1 + n) % n`: the previous card, wrapping before the first. */
  function Prev(i: nat, n: nat): (r: nat)
    requires n > 0
    ensures r < n
  {
    (i + n - 1) % n
  }

  lemma {:induction false} MulAtLeast(d: nat, n: int)
    requires d >= 1 && n > 0
    ensures d * n >= n
  {
    if d > 1 {
      MulAtLeast(d - 1, n);
      assert d * n == (d - 1) * n + n;
    }
  }

  /** A remainder is determined by any quotient-remainder split of the number. */
  lemma ModOf(a: int, n: int, q: int, r: int)
    requires n > 0 && a == q * n + r && 0 <= r < n
    ensures a % n == r
  {
    var qa, ra := a / n, a % n;
    assert a == qa * n + ra;
    var d := q - qa;
    assert d * n == q * n - qa * n;
    assert d * n == ra - r;
    if d > 0 {
      MulAtLeast(d, n);
    }
  }

  /** Stepping forward then back, or back then forward, returns to the card on show. */
  lemma PrevUndoesNext(i: nat, n: nat)
    requires i < n
    ensures Prev(Next(i, n), n) == i
    ensures Next(Prev(i, n), n) == i
  {
    if i + 1 < n {
      ModOf(i + 1, n, 0, i + 1);
      ModOf(i + 1 + n - 1, n, 1, i);
    } else {
      ModOf(i + 1, n, 1, 0);
      ModOf(n - 1, n, 0, n - 1);
    }
    if i > 0 {
      ModOf(i + n - 1, n, 1, i - 1);
      ModOf(i, n, 0, i);
    } else {
      ModOf(n - 1, n, 0, n - 1);
      ModOf(n, n, 1, 0);
    }
  }

  /** Stepping forward `k` times from the first card shows card `k mod n`. */
  function Steps(n: nat, k: nat): (r: nat)
    requires n > 0
    ensures r < n
  {
    if k == 0 then 0 else Next(Steps(n, k - 1), n)
  }

  lemma {:induction false} StepsWrap(n: nat, k: nat)
    requires n > 0
    ensures Steps(n, k) == k % n
  {
    if k == 0 {
      ModOf(0, n, 0, 0);
    } else {
      StepsWrap(n, k - 1);
      var q, r := (k - 1) / n, (k - 1) % n;
      assert k == q * n + r + 1;
      if r + 1 < n {
        ModOf(r + 1, n, 0, r + 1);
        ModOf(k, n, q, r + 1);
      } else {
        ModOf(r + 1, n, 1, 0);
        assert k == (q + 1) * n;
        ModOf(k, n, q + 1, 0);
      }
    }
  }

  /** The index after deleting the card at `i` from a deck of `n`: the last card's delete steps back. */
  function IndexAfterDelete(i: nat, n: nat): nat {
    if i >= n - 1 then Max(0, n - 2) else i
  }

  /** Removing the id of one card of a deck with distinct ids removes exactly that card. */
  lemma RemoveOne(cards: seq<Flashcard>, k: nat)
    requires k < |cards|
    requires forall a, b :: 0 <= a < b < |cards| ==> cards[a].id != cards[b].id
    ensures |RemoveCard(cards, cards[k].id)| == |cards| - 1
  {
    OnlyOneDropped(cards, cards[k].id, k);
  }

  /** Filtering out an id that exactly one card has, at `k`, drops one card. */
  lemma {:induction false} OnlyOneDropped(cards: seq<Flashcard>, id: string, k: nat)
    requires k < |cards| && cards[k].id == id
    requires forall j :: 0 <= j < |cards| && j != k ==> cards[j].id != id
    ensures |Filter(cards, OtherCard(id))| == |cards| - 1
    decreases |cards|
  {
    var n := |cards| - 1;
    var init := cards[..n];
    assert init + [cards[n]] == cards;
    FilterSnoc(init, cards[n], OtherCard(id));
    if k == n {
      FilterAll(init, OtherCard(id));
    } else {
      OnlyOneDropped(init, id, k);
    }
  }

  /**
   * With at least two cards with distinct ids, the index after a delete is a
   * card of the shortened deck.
   */
  lemma DeleteKeepsIndexValid(cards: seq<Flashcard>, i: nat)
    requires 2 <= |cards| && i < |cards|
    requires forall a, b :: 0 <= a < b < |cards| ==> cards[a].id != cards[b].id
    ensures IndexAfterDelete(i, |cards|) < |RemoveCard(cards, cards[i].id)|
  {
    RemoveOne(cards, i);
  }

  /** The page's own state; the deck lives in the store. */
  class FlashcardsView {
    var showAddForm: bool
    var front: string
    var back: string
    var currentIndex: nat
    var isFlipped: bool

    constructor()
      ensures !showAddForm && front == "" && back == "" && currentIndex == 0 && !isFlipped
    {
      showAddForm, front, back, currentIndex, isFlipped := false, "", "", 0, false;
    }

    /** `nextCard()`: the next card, face up. */
    method NextCard(ws: Workspace)
      requires |ws.flashcards| > 0
      modifies this
      ensures currentIndex == Next(old(currentIndex), |ws.flashcards|) && currentIndex < |ws.flashcards|
      ensures !isFlipped && showAddForm == old(showAddForm) && front == old(front) && back == old(back)
    {
      isFlipped := false;
      currentIndex := Next(currentIndex, |ws.flashcards|);
    }

    /** `prevCard()`: the previous card, face up. */
    method PrevCard(ws: Workspace)
      requires |ws.flashcards| > 0
      modifies this
      ensures currentIndex == Prev(old(currentIndex), |ws.flashcards|) && currentIndex < |ws.flashcards|
      ensures !isFlipped && showAddForm == old(showAddForm) && front == old(front) && back == old(back)
    {
      isFlipped := false;
      currentIndex := Prev(currentIndex, |ws.flashcards|);
    }

    /** A click on the card on show turns it over. */
    method Flip()
      modifies this
      ensures isFlipped == !old(isFlipped)
      ensures currentIndex == old(currentIndex) && showAddForm == old(showAddForm) && front == old(front) && back == old(back)
    {
      isFlipped := !isFlipped;
    }

    /** The Reset button: the card on show goes back face up. */
    method ResetFlip()
      modifies this
      ensures !isFlipped
      ensures currentIndex == old(currentIndex) && showAddForm == old(showAddForm) && front == old(front) && back == old(back)
    {
      isFlipped := false;
    }

    /** A click on a card in the list shows that card, face up. */
    method ShowCard(index: nat)
      modifies this
      ensures currentIndex == index && !isFlipped
      ensures showAddForm == old(showAddForm) && front == old(front) && back == old(back)
    {
      currentIndex, isFlipped := index, false;
    }

    /**
     * `handleAdd`: when neither side is blank, adds a card holding the trimmed
     * sides and clears and closes the form; otherwise nothing happens.
     */
    method Add(ws: Workspace, now: nat)
      requires ws.Valid()
      modifies this, ws
      ensures ws.Valid()
      ensures Trim(old(front)) == [] || Trim(old(back)) == [] ==> unchanged(this) && unchanged(ws)
      ensures Trim(old(front)) != [] && Trim(old(back)) != [] ==>
        ws.flashcards == AddCard(old(ws.flashcards), Trim(old(front)), Trim(old(back)), now)
        && ws.KeepsModeState() && ws.KeepsCanvas() && ws.feedbackMessages == old(ws.feedbackMessages)
        && ws.KeepsSession() && ws.exams == old(ws.exams) && ws.submissions == old(ws.submissions)
        && ws.scoreboard == old(ws.scoreboard)
        && front == "" && back == "" && !showAddForm
        && currentIndex == old(currentIndex) && isFlipped == old(isFlipped)
    {
      if Trim(front) != [] && Trim(back) != [] {
        ws.AddFlashcard(Trim(front), Trim(back), now);
        front, back, showAddForm := "", "", false;
      }
    }

    /**
     * The delete button: removes the card on show (if the index names one) and,
     * when that was the last card, steps back to the new last card.
     */
    method DeleteCurrent(ws: Workspace)
      requires ws.Valid()
      modifies this, ws
      ensures ws.Valid()
      ensures old(currentIndex) >= |old(ws.flashcards)| ==> unchanged(this) && unchanged(ws)
      ensures old(currentIndex) < |old(ws.flashcards)| ==>
        ws.flashcards == RemoveCard(old(ws.flashcards), old(ws.flashcards)[old(currentIndex)].id)
        && currentIndex == IndexAfterDelete(old(currentIndex), |old(ws.flashcards)|)
        && ws.KeepsModeState() && ws.KeepsCanvas() && ws.feedbackMessages == old(ws.feedbackMessages)
        && ws.KeepsSession() && ws.exams == old(ws.exams) && ws.submissions == old(ws.submissions)
        && ws.scoreboard == old(ws.scoreboard)
        && isFlipped == old(isFlipped) && front == old(front) && back == old(back)
    {
      var n := |ws.flashcards|;
      if currentIndex < n {
        ws.RemoveFlashcard(ws.flashcards[currentIndex].id);
        if currentIndex >= n - 1 {
          currentIndex := Max(0, n - 2);
        }
      }
    }
  }
}
