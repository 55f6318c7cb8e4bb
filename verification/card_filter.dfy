/** The loop both filter pages run over their cards,
    `qsa('.<kind>-card').forEach(card => { ...; matches ? remove 'hidden' : add 'hidden' })`,
    for any per-card decision. A decision is `None` when reading the card throws; the
    exception ends the loop there, so that card and every later one keep their state. */
module CardFilter {
  import opened Optional
  import opened Dom

  /** The number of leading cards that satisfy `ok`: the cards a loop reaches when it throws
      at the first card that does not. */
  function Prefix(cards: seq<Card>, ok: Card -> bool): (k: nat)
    ensures k <= |cards|
    ensures forall i :: 0 <= i < k ==> ok(cards[i])
    ensures k < |cards| ==> !ok(cards[k])
  {
    if |cards| == 0 || !ok(cards[0]) then 0
    else
      var k := Prefix(cards[1..], ok);
      assert forall i :: 1 <= i <= k ==> cards[i] == cards[1..][i - 1];
      1 + k
  }

  /** The prefix is determined by its two defining properties. */
  lemma {:induction false} PrefixUnique(cards: seq<Card>, ok: Card -> bool, k: nat)
    requires k <= |cards|
    requires forall i :: 0 <= i < k ==> ok(cards[i])
    requires k < |cards| ==> !ok(cards[k])
    ensures Prefix(cards, ok) == k
  {
    if k > 0 {
      assert forall i :: 0 <= i < k - 1 ==> cards[1..][i] == cards[i + 1];
      PrefixUnique(cards[1..], ok, k - 1);
    }
  }

  /** The number of leading cards the decision can be made for. */
  function Decided(cards: seq<Card>, decide: Card -> Option<bool>): (k: nat)
    ensures k <= |cards|
    ensures forall i :: 0 <= i < k ==> decide(cards[i]).Some?
    ensures k < |cards| ==> decide(cards[k]).None?
  {
    Prefix(cards, (c: Card) => decide(c).Some?)
  }

  /** The filter loop: every decided card is shown exactly when its decision says so, and
      nothing but the `hidden` class of a card changes. */
  function FilterPass(cards: seq<Card>, decide: Card -> Option<bool>): (r: seq<Card>)
    ensures |r| == |cards|
    ensures forall i :: 0 <= i < |cards| ==> SameButHidden(r[i], cards[i])
    ensures forall i :: 0 <= i < Decided(cards, decide) ==>
      (Hidden(r[i]) <==> !decide(cards[i]).value)
    ensures forall i :: Decided(cards, decide) <= i < |cards| ==> r[i] == cards[i]
  {
    if |cards| == 0 || decide(cards[0]).None? then cards
    else
      var first := SetHidden(cards[0], !decide(cards[0]).value);
      var rest := FilterPass(cards[1..], decide);
      var k := Decided(cards[1..], decide);
      StepShape(cards, first, rest);
      StepDecided(cards, first, rest, k, decide);
      StepUntouched(cards, first, rest, k);
      [first] + rest
  }

  /** The inductive steps of `FilterPass`, one conclusion each. */
  lemma StepShape(cards: seq<Card>, first: Card, rest: seq<Card>)
    requires |cards| > 0 && SameButHidden(first, cards[0])
    requires |rest| == |cards| - 1
    requires forall i :: 0 <= i < |rest| ==> SameButHidden(rest[i], cards[1..][i])
    ensures forall i :: 0 <= i < |cards| ==> SameButHidden(([first] + rest)[i], cards[i])
  {
    var r := [first] + rest;
    forall i | 1 <= i < |cards| ensures SameButHidden(r[i], cards[i]) {
      assert r[i] == rest[i - 1] && cards[i] == cards[1..][i - 1];
    }
  }

  lemma StepDecided(cards: seq<Card>, first: Card, rest: seq<Card>, k: nat,
                    decide: Card -> Option<bool>)
    requires |cards| > 0 && |rest| == |cards| - 1 && k <= |rest|
    requires decide(cards[0]).Some? && (Hidden(first) <==> !decide(cards[0]).value)
    requires forall i :: 0 <= i < k ==>
      decide(cards[1..][i]).Some? && (Hidden(rest[i]) <==> !decide(cards[1..][i]).value)
    ensures forall i :: 0 <= i < k + 1 ==>
      decide(cards[i]).Some? && (Hidden(([first] + rest)[i]) <==> !decide(cards[i]).value)
  {
    var r := [first] + rest;
    var tail := cards[1..];
    forall i | 1 <= i < k + 1
      ensures decide(cards[i]).Some? && (Hidden(r[i]) <==> !decide(cards[i]).value)
    {
      var j := i - 1;
      assert r[i] == rest[j];
      assert cards[i] == tail[j];
    }
  }

  lemma StepUntouched(cards: seq<Card>, first: Card, rest: seq<Card>, k: nat)
    requires |cards| > 0 && |rest| == |cards| - 1 && k <= |rest|
    requires forall i :: k <= i < |rest| ==> rest[i] == cards[1..][i]
    ensures forall i :: k + 1 <= i < |cards| ==> ([first] + rest)[i] == cards[i]
  {
    var r := [first] + rest;
    var tail := cards[1..];
    forall i | k + 1 <= i < |cards| ensures r[i] == cards[i] {
      var j := i - 1;
      assert r[i] == rest[j];
      assert cards[i] == tail[j];
    }
  }

  /** The decision does not look at the `hidden` class. */
  ghost predicate IgnoresHidden(decide: Card -> Option<bool>) {
    forall c: Card, b: bool :: decide(SetHidden(c, b)) == decide(c)
  }

  /** A second pass with a decision that ignores the `hidden` class changes nothing. */
  lemma {:induction false} FilterPassIdempotent(cards: seq<Card>, decide: Card -> Option<bool>)
    requires IgnoresHidden(decide)
    ensures FilterPass(FilterPass(cards, decide), decide) == FilterPass(cards, decide)
    decreases |cards|
  {
    if |cards| > 0 && decide(cards[0]).Some? {
      var once := FilterPass(cards, decide);
      var first := SetHidden(cards[0], !decide(cards[0]).value);
      var rest := FilterPass(cards[1..], decide);
      assert once == [first] + rest;
      assert once[0] == first && once[1..] == rest;
      assert decide(first) == decide(cards[0]);
      FilterPassIdempotent(cards[1..], decide);
    }
  }

  /** Decisions that agree on every card give the same pass. */
  lemma {:induction false} FilterPassAgrees(cards: seq<Card>, d1: Card -> Option<bool>,
                                            d2: Card -> Option<bool>)
    requires forall c :: d1(c) == d2(c)
    ensures FilterPass(cards, d1) == FilterPass(cards, d2)
    decreases |cards|
  {
    if |cards| > 0 {
      FilterPassAgrees(cards[1..], d1, d2);
    }
  }

  /** A decision that can be made exactly for the cards `ok` accepts reaches the same prefix. */
  lemma DecidedIsPrefix(cards: seq<Card>, decide: Card -> Option<bool>, ok: Card -> bool)
    requires forall c :: decide(c).Some? <==> ok(c)
    ensures Decided(cards, decide) == Prefix(cards, ok)
  {
    PrefixUnique(cards, ok, Decided(cards, decide));
  }
}
