/**
 * Odds ladders as `CricketOddsScraper.extract_cricket_odds` builds them from a
 * row of back or lay buttons. The DOM queries are not modelled: each button
 * arrives as the text of its price element and of its volume element, either
 * of which may be missing.
 */
module OddsLadder {

  import opened Wrappers

  /** One `.odd-button`: its price text and volume text, `None` when the element is missing. */
  datatype Button = Button(price: Option<string>, volume: Option<string>)

  /** One ladder entry `{'position', 'price', 'volume'}`. */
  datatype OddEntry = OddEntry(position: nat, price: string, volume: Option<string>)

  /** The `odds` dict `{'back': [...], 'lay': [...]}`. */
  datatype OddsData = OddsData(back: seq<OddEntry>, lay: seq<OddEntry>)

  const NoOdds: OddsData := OddsData([], [])

  /** A button carries a real price: the price element exists, its text is neither empty nor `-`. */
  predicate HasPrice(b: Button) {
    b.price.Some? && b.price.value != "" && b.price.value != "-"
  }

  /** The ladder built from a row of buttons: one entry per priced button, in button order. */
  function Ladder(buttons: seq<Button>): (r: seq<OddEntry>)
    ensures |r| <= |buttons|
  {
    if buttons == [] then []
    else
      var n := |buttons| - 1;
      Ladder(buttons[..n]) + (if HasPrice(buttons[n]) then [OddEntry(n, buttons[n].price.value, buttons[n].volume)] else [])
  }

  /** Every entry is a priced button's index, price and volume. */
  ghost predicate EntriesPriced(buttons: seq<Button>, r: seq<OddEntry>) {
    forall k :: 0 <= k < |r| ==>
      && r[k].position < |buttons|
      && HasPrice(buttons[r[k].position])
      && r[k].price == buttons[r[k].position].price.value
      && r[k].volume == buttons[r[k].position].volume
  }

  /** The entries follow the buttons' order, each button at most once. */
  ghost predicate InButtonOrder(r: seq<OddEntry>) {
    forall k, l :: 0 <= k < l < |r| ==> r[k].position < r[l].position
  }

  /** No priced button is dropped. */
  ghost predicate CoversPriced(buttons: seq<Button>, r: seq<OddEntry>) {
    forall i :: 0 <= i < |buttons| && HasPrice(buttons[i]) ==> exists k :: 0 <= k < |r| && r[k].position == i
  }

  lemma {:induction false} LadderEntriesPriced(buttons: seq<Button>)
    ensures EntriesPriced(buttons, Ladder(buttons))
  {
    if buttons != [] {
      var n := |buttons| - 1;
      var prefix := Ladder(buttons[..n]);
      LadderEntriesPriced(buttons[..n]);
      var r := Ladder(buttons);
      forall k | 0 <= k < |r|
        ensures r[k].position < |buttons| && HasPrice(buttons[r[k].position])
        ensures r[k].price == buttons[r[k].position].price.value && r[k].volume == buttons[r[k].position].volume
      {
        if k < |prefix| {
          assert r[k] == prefix[k];
          assert buttons[..n][prefix[k].position] == buttons[prefix[k].position];
        }
      }
    }
  }

  lemma {:induction false} LadderOrdered(buttons: seq<Button>)
    ensures InButtonOrder(Ladder(buttons))
  {
    if buttons != [] {
      var n := |buttons| - 1;
      var prefix := Ladder(buttons[..n]);
      LadderOrdered(buttons[..n]);
      LadderEntriesPriced(buttons[..n]);
      var r := Ladder(buttons);
      forall k, l | 0 <= k < l < |r| ensures r[k].position < r[l].position {
        assert r[k] == prefix[k];
        if l < |prefix| {
          assert r[l] == prefix[l];
        }
      }
    }
  }

  lemma {:induction false} LadderComplete(buttons: seq<Button>)
    ensures CoversPriced(buttons, Ladder(buttons))
  {
    if buttons != [] {
      var n := |buttons| - 1;
      var prefix := Ladder(buttons[..n]);
      LadderComplete(buttons[..n]);
      var r := Ladder(buttons);
      forall i | 0 <= i < |buttons| && HasPrice(buttons[i]) ensures exists k :: 0 <= k < |r| && r[k].position == i {
        if i < n {
          assert buttons[..n][i] == buttons[i];
          var k :| 0 <= k < |prefix| && prefix[k].position == i;
          assert r[k] == prefix[k];
        } else {
          assert r[|prefix|].position == n;
        }
      }
    }
  }

  /** The `for i, button in enumerate(buttons)` loop that appends priced buttons. */
  method BuildLadder(buttons: seq<Button>) returns (ladder: seq<OddEntry>)
    ensures ladder == Ladder(buttons)
  {
    ladder := [];
    var i := 0;
    while i < |buttons|
      invariant 0 <= i <= |buttons|
      invariant ladder == Ladder(buttons[..i])
    {
      assert buttons[..i + 1][..i] == buttons[..i];
      var button := buttons[i];
      if button.price.Some? && button.price.value != "" && button.price.value != "-" {
        ladder := ladder + [OddEntry(i, button.price.value, button.volume)];
      }
      i := i + 1;
    }
    assert buttons[..i] == buttons;
  }

  /** The `odds` dict of one match: the back row and the lay row. */
  method BuildOdds(backButtons: seq<Button>, layButtons: seq<Button>) returns (odds: OddsData)
    ensures odds.back == Ladder(backButtons) && odds.lay == Ladder(layButtons)
  {
    var back := BuildLadder(backButtons);
    var lay := BuildLadder(layButtons);
    odds := OddsData(back, lay);
  }
}
