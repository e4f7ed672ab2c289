/** The in-page card loop both scrapers run inside `page.evaluate`:
    `productCards.forEach(card => { try { ...; if (gate) scrapedItems.push(record) } catch { warn } })`.
    A site's field rules are passed in as `rule`, the outcome of one iteration's `try`. */
module Extraction {
  import opened Records

  /** The records the loop pushes, in card order. */
  function Collect(cards: seq<Card>, rule: Card -> CardOutcome): (r: seq<ScrapedProduct>)
    ensures |r| <= |cards|
  {
    if cards == [] then []
    else
      var init := cards[..|cards| - 1];
      var last := cards[|cards| - 1];
      match rule(last)
      case Emit(p) => Collect(init, rule) + [p]
      case _ => Collect(init, rule)
  }

  /** `productCards.forEach(...)` pushing into `scrapedItems`. */
  method CollectCards(cards: seq<Card>, rule: Card -> CardOutcome) returns (scrapedItems: seq<ScrapedProduct>)
    ensures scrapedItems == Collect(cards, rule)
  {
    scrapedItems := [];
    var i := 0;
    while i < |cards|
      invariant 0 <= i <= |cards|
      invariant scrapedItems == Collect(cards[..i], rule)
    {
      assert cards[..i + 1][..i] == cards[..i];
      match rule(cards[i]) {
        case Emit(p) => scrapedItems := scrapedItems + [p];
        case Drop =>
        case Threw =>
      }
      i := i + 1;
    }
    assert cards[..|cards|] == cards;
  }

  /** The loop is a left-to-right fold: the cards of a page split anywhere contribute
      their records independently and in order. */
  lemma {:induction false} CollectAppend(a: seq<Card>, b: seq<Card>, rule: Card -> CardOutcome)
    ensures Collect(a + b, rule) == Collect(a, rule) + Collect(b, rule)
  {
    if b == [] {
      assert a + b == a;
    } else {
      var init := b[..|b| - 1];
      assert (a + b)[..|a + b| - 1] == a + init;
      assert (a + b)[|a + b| - 1] == b[|b| - 1];
      CollectAppend(a, init, rule);
    }
  }

  /** A card whose `try` block throws contributes nothing, and the cards on both sides of
      it are still processed. */
  lemma ThrowingCardIsolated(cards: seq<Card>, k: nat, rule: Card -> CardOutcome)
    requires k < |cards| && rule(cards[k]) == Threw
    ensures Collect(cards, rule) == Collect(cards[..k], rule) + Collect(cards[k + 1..], rule)
  {
    var left, mid, right := cards[..k], [cards[k]], cards[k + 1..];
    SplitAround(cards, k);
    ThrowingCardAlone(cards[k], rule);
    CollectAppend(mid, right, rule);
    CollectAppend(left, mid + right, rule);
  }

  /** A sequence is what lies before position `k`, the element at `k`, and what follows. */
  lemma SplitAround<T>(s: seq<T>, k: nat)
    requires k < |s|
    ensures s == s[..k] + ([s[k]] + s[k + 1..])
  {
  }

  /** A page holding a single throwing card yields no record. */
  lemma ThrowingCardAlone(c: Card, rule: Card -> CardOutcome)
    requires rule(c) == Threw
    ensures Collect([c], rule) == []
  {
    assert [c][..0] == [];
  }

  /** Two rules that agree on every card of a page collect the same records from it. */
  lemma {:induction false} CollectCongruent(cards: seq<Card>, rule1: Card -> CardOutcome, rule2: Card -> CardOutcome)
    requires forall c :: c in cards ==> rule1(c) == rule2(c)
    ensures Collect(cards, rule1) == Collect(cards, rule2)
  {
    if cards != [] {
      var init := cards[..|cards| - 1];
      assert cards[|cards| - 1] in cards;
      assert forall c :: c in init ==> c in cards;
      CollectCongruent(init, rule1, rule2);
    }
  }

  /** The positions of the cards that produce a record, in increasing order. */
  function EmittingIndices(cards: seq<Card>, rule: Card -> CardOutcome): (ix: seq<nat>)
    ensures |ix| == |Collect(cards, rule)|
    ensures forall k :: 0 <= k < |ix| ==> ix[k] < |cards| && rule(cards[ix[k]]) == Emit(Collect(cards, rule)[k])
    ensures forall k, l :: 0 <= k < l < |ix| ==> ix[k] < ix[l]
    ensures forall i :: 0 <= i < |cards| && rule(cards[i]).Emit? ==> i in ix
  {
    if cards == [] then []
    else
      var init := cards[..|cards| - 1];
      var n := |cards| - 1;
      var ix0 := EmittingIndices(init, rule);
      assert forall i :: 0 <= i < n ==> cards[i] == init[i];
      if rule(cards[n]).Emit? then
        assert Collect(cards, rule) == Collect(init, rule) + [rule(cards[n]).product];
        ix0 + [n]
      else
        assert Collect(cards, rule) == Collect(init, rule);
        ix0
  }

  /** The output is an order-preserving subsequence of the cards: it is exactly the records
      of the emitting cards, taken in card order, so it is no longer than the card list. */
  lemma CollectIsEmittingSubsequence(cards: seq<Card>, rule: Card -> CardOutcome)
    ensures var out, ix := Collect(cards, rule), EmittingIndices(cards, rule);
      && |out| == |ix| <= |cards|
      && (forall k :: 0 <= k < |ix| ==> rule(cards[ix[k]]) == Emit(out[k]))
      && (forall k, l :: 0 <= k < l < |ix| ==> ix[k] < ix[l])
      && (forall i :: 0 <= i < |cards| ==> (i in ix <==> rule(cards[i]).Emit?))
  {
    var ix := EmittingIndices(cards, rule);
    forall i | 0 <= i < |cards| && i in ix ensures rule(cards[i]).Emit? {
      var k :| 0 <= k < |ix| && ix[k] == i;
    }
  }

  /** Every record in the batch is what the rule emitted for some card of the page. */
  lemma {:induction false} CollectFrom(cards: seq<Card>, rule: Card -> CardOutcome, p: ScrapedProduct)
    requires p in Collect(cards, rule)
    ensures exists c :: c in cards && rule(c) == Emit(p)
  {
    var init := cards[..|cards| - 1];
    var last := cards[|cards| - 1];
    if rule(last) == Emit(p) {
      assert last in cards;
    } else {
      CollectFrom(init, rule, p);
      var c :| c in init && rule(c) == Emit(p);
      assert c in cards;
    }
  }

  /** Whatever holds of every record the rule can emit holds of the whole batch. */
  lemma CollectKeeps(cards: seq<Card>, rule: Card -> CardOutcome, valid: ScrapedProduct -> bool)
    requires forall c :: rule(c).Emit? ==> valid(rule(c).product)
    ensures forall p :: p in Collect(cards, rule) ==> valid(p)
  {
    forall p | p in Collect(cards, rule) ensures valid(p) {
      CollectFrom(cards, rule, p);
      var c :| c in cards && rule(c) == Emit(p);
    }
  }
}
