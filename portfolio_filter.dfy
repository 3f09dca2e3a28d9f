/**
 * The portfolio filter (script.js lines 145-173): a click on a filter button
 * makes that button the only active one, then shows the cards whose category
 * the button's filter selects and hides the others.
 *
 * The buttons and the cards are arrays that the click handler updates in place.
 * `Activated` and `Filtered` say what the two loops leave behind; the lemmas
 * say what that means for the page.
 */
module PortfolioFilter {
  import opened Wrappers

  /** The inline `style.display` of a card: never set yet, `'block'` or `'none'`. */
  datatype Display = Unstyled | Block | NoDisplay

  /** A `.filter-btn`: its `data-filter` attribute (`None` when absent) and whether it has the `active` class. */
  datatype Button = Button(filter: Option<string>, active: bool)

  /** A `.portfolio-card`: its `data-category` attribute, its display and whether it has the `visible` class. */
  datatype Card = Card(category: Option<string>, display: Display, visible: bool)

  const All: Option<string> := Some("all")

  /** The handler's test: the `"all"` filter selects every card, any other selects the cards whose category is identical to it. */
  predicate Selects(filter: Option<string>, category: Option<string>)
    ensures category == filter ==> Selects(filter, category)
    ensures category == All ==> (Selects(filter, category) <==> filter == All)
  {
    filter == All || category == filter
  }

  /** One card after the handler has visited it. */
  function Apply(card: Card, filter: Option<string>): (r: Card)
    ensures r.category == card.category
    ensures r.visible <==> r.display == Block
    ensures r.visible <==> Selects(filter, card.category)
  {
    if Selects(filter, card.category) then card.(display := Block, visible := true)
    else card.(display := NoDisplay, visible := false)
  }

  /** The cards after a click with `filter`, visited in document order. */
  function Filtered(cards: seq<Card>, filter: Option<string>): (r: seq<Card>)
    ensures |r| == |cards|
  {
    if cards == [] then [] else [Apply(cards[0], filter)] + Filtered(cards[1..], filter)
  }

  /** The buttons after a click on button `k`: every `active` class removed, then the clicked one's added. */
  function Activated(buttons: seq<Button>, k: nat): (r: seq<Button>)
    requires k < |buttons|
    ensures |r| == |buttons|
    ensures forall i | 0 <= i < |r| :: r[i].filter == buttons[i].filter && (r[i].active <==> i == k)
  {
    seq(|buttons|, i requires 0 <= i < |buttons| => buttons[i].(active := i == k))
  }

  /** How many buttons carry the `active` class. */
  function ActiveCount(buttons: seq<Button>): nat {
    if buttons == [] then 0 else (if buttons[0].active then 1 else 0) + ActiveCount(buttons[1..])
  }

  /** `Filtered` visits every card once, in place: card `i` of the result is card `i` of the input, filtered. */
  lemma {:induction false} FilteredAt(cards: seq<Card>, filter: Option<string>, i: int)
    requires 0 <= i < |cards|
    ensures |Filtered(cards, filter)| == |cards|
    ensures Filtered(cards, filter)[i] == Apply(cards[i], filter)
    decreases |cards|
  {
    if i > 0 {
      FilteredAt(cards[1..], filter, i - 1);
    } else if |cards| > 1 {
      FilteredAt(cards[1..], filter, 0);
    }
  }

  /**
   * After a click, a card is shown exactly when the filter selects its category,
   * every card keeps its category, and a hidden card never keeps the `visible` class.
   */
  lemma FilterShowsExactlySelected(cards: seq<Card>, filter: Option<string>)
    ensures |Filtered(cards, filter)| == |cards|
    ensures forall i | 0 <= i < |cards| ::
      && Filtered(cards, filter)[i].category == cards[i].category
      && (Filtered(cards, filter)[i].display == Block <==> Selects(filter, cards[i].category))
      && (Filtered(cards, filter)[i].display != Block ==> Filtered(cards, filter)[i].display == NoDisplay && !Filtered(cards, filter)[i].visible)
      && (Filtered(cards, filter)[i].visible <==> Filtered(cards, filter)[i].display == Block)
  {
    if cards == [] {
    } else {
      forall i | 0 <= i < |cards| ensures Filtered(cards, filter)[i] == Apply(cards[i], filter) {
        FilteredAt(cards, filter, i);
      }
    }
  }

  /** The `"all"` filter shows every card. */
  lemma AllShowsEverything(cards: seq<Card>)
    ensures forall i | 0 <= i < |cards| :: Filtered(cards, All)[i].display == Block && Filtered(cards, All)[i].visible
  {
    FilterShowsExactlySelected(cards, All);
  }

  /**
   * What a click shows does not depend on the earlier clicks: filtering already
   * filtered cards with `filter` gives what filtering the original cards gives.
   * Clicking the same button twice is in particular the same as clicking it once.
   */
  lemma {:induction false} FilterForgetsHistory(cards: seq<Card>, earlier: Option<string>, filter: Option<string>)
    ensures Filtered(Filtered(cards, earlier), filter) == Filtered(cards, filter)
    decreases |cards|
  {
    if cards != [] {
      assert Filtered(cards, earlier)[1..] == Filtered(cards[1..], earlier);
      FilterForgetsHistory(cards[1..], earlier, filter);
    }
  }

  lemma FilterIdempotent(cards: seq<Card>, filter: Option<string>)
    ensures Filtered(Filtered(cards, filter), filter) == Filtered(cards, filter)
  {
    FilterForgetsHistory(cards, filter, filter);
  }

  /** No button other than number `k` is active: then the count of active buttons is one exactly when `k` is. */
  lemma {:induction false} ActiveCountOnly(buttons: seq<Button>, k: int)
    requires forall i | 0 <= i < |buttons| && i != k :: !buttons[i].active
    ensures ActiveCount(buttons) == if 0 <= k < |buttons| && buttons[k].active then 1 else 0
    decreases |buttons|
  {
    if buttons != [] {
      ActiveCountOnly(buttons[1..], k - 1);
    }
  }

  /** After a click exactly one button is active, and it is the clicked one; the filters are unchanged. */
  lemma ClickedButtonIsTheOnlyActive(buttons: seq<Button>, k: nat)
    requires k < |buttons|
    ensures |Activated(buttons, k)| == |buttons|
    ensures ActiveCount(Activated(buttons, k)) == 1
    ensures forall i | 0 <= i < |buttons| :: Activated(buttons, k)[i].filter == buttons[i].filter && (Activated(buttons, k)[i].active <==> i == k)
  {
    ActiveCountOnly(Activated(buttons, k), k);
  }

  /** Clicking a button twice leaves the buttons as one click does. */
  lemma ActivatedIdempotent(buttons: seq<Button>, k: nat)
    requires k < |buttons|
    ensures Activated(Activated(buttons, k), k) == Activated(buttons, k)
  {
  }

  /**
   * The click handler of button `k`: read its filter, clear `active` on every
   * button and set it on the clicked one, then show or hide every card. The
   * 10 ms timer that adds `visible` to a shown card is taken as fired at once.
   */
  method Click(buttons: array<Button>, cards: array<Card>, k: nat)
    requires k < buttons.Length
    modifies buttons, cards
    ensures buttons[..] == Activated(old(buttons[..]), k)
    ensures cards[..] == Filtered(old(cards[..]), old(buttons[k].filter))
  {
    var filterValue := buttons[k].filter;
    var i := 0;
    while i < buttons.Length
      invariant 0 <= i <= buttons.Length
      invariant forall j | 0 <= j < i :: buttons[j] == old(buttons[j]).(active := false)
      invariant forall j | i <= j < buttons.Length :: buttons[j] == old(buttons[j])
      invariant cards[..] == old(cards[..])
    {
      buttons[i] := buttons[i].(active := false);
      i := i + 1;
    }
    buttons[k] := buttons[k].(active := true);
    assert buttons[..] == Activated(old(buttons[..]), k);

    var n := 0;
    while n < cards.Length
      invariant 0 <= n <= cards.Length
      invariant forall j | 0 <= j < n :: cards[j] == Apply(old(cards[j]), filterValue)
      invariant forall j | n <= j < cards.Length :: cards[j] == old(cards[j])
      invariant buttons[..] == Activated(old(buttons[..]), k)
    {
      if Selects(filterValue, cards[n].category) {
        cards[n] := cards[n].(display := Block, visible := true);
      } else {
        cards[n] := cards[n].(display := NoDisplay, visible := false);
      }
      n := n + 1;
    }

    ghost var was := old(cards[..]);
    if cards.Length > 0 {
      forall j | 0 <= j < cards.Length ensures |Filtered(was, filterValue)| == cards.Length && cards[..][j] == Filtered(was, filterValue)[j] {
        FilteredAt(was, filterValue, j);
      }
    }
  }
}
