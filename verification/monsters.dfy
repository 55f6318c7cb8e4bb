/** The monster lookup of the DM Dashboard: how a monster record becomes a card (its class
    list and its stat line), how the challenge rating is read back out of the card text, and
    the filter pass `applyMonFilters` with the Select/Deselect-All buttons of the size and
    type groups. */
module Monsters {
  import opened Optional
  import opened Text
  import opened Dom
  import opened Intersection
  import opened CardFilter

  // ---------------------------------------------------------------------------------------
  // Monster records and their cards
  // ---------------------------------------------------------------------------------------

  /** A challenge rating as the API reports it: the whole part and, for the fractional
      ratings, the digits JavaScript prints after the point (`0.125` is `Rating(0, "125")`). */
  datatype Rating = Rating(whole: nat, fraction: string)

  /** `${data.challenge_rating}`. */
  function RatingText(c: Rating): string {
    Decimal(c.whole) + (if |c.fraction| == 0 then "" else "." + c.fraction)
  }

  /** The fields of a monster record that `addMonCard` and `makeMonInfo` render. The second
      and third paragraphs of the info block (speeds, ability scores) are kept as their
      rendered text. */
  datatype MonsterData = MonsterData(
    index: string,
    name: string,
    size: string,
    creatureType: string,
    alignment: string,
    hitPoints: nat,
    armorClass: nat,
    rating: Rating,
    xp: nat,
    combatLine: string,
    abilityLine: string)

  /** The first paragraph of the info block: `HP: ..   AC: ..   CR: ..   XP: ..`. */
  function StatLine(d: MonsterData): string {
    "HP: " + Decimal(d.hitPoints) + "   AC: " + Decimal(d.armorClass) +
    "   CR: " + RatingText(d.rating) + "   XP: " + Decimal(d.xp)
  }

  /** `data.type.split(' ')`. */
  function TypeWords(creatureType: string): (w: seq<string>)
    ensures |w| > 0
  {
    Split(creatureType, " ")
  }

  /** `w.substring(0, w.length - 1)`: the word without its last character (a negative end is
      clamped to 0, so the empty word stays empty). */
  function DropLastChar(w: string): string {
    if |w| == 0 then "" else w[..|w| - 1]
  }

  /** The tokens `addMonCard` passes to `classList.add`: `mon-card`, `hidden`, the first type
      word and the lower-cased size, then, for a multi-word type such as "swarm of tiny
      beasts", the lower-cased third word and the fourth word minus its last character. */
  function CardTokens(size: string, creatureType: string): seq<string> {
    var w := TypeWords(creatureType);
    ["mon-card", HIDDEN, w[0], Lower(size)] +
    (if |w| >= 4 then [Lower(w[2]), DropLastChar(w[3])] else [])
  }

  /** The class list of a new monster card, or `None` when `addMonCard` throws before the
      card is appended: a two- or three-word type has no fourth word (`monType[3]` is
      undefined), and `classList.add` refuses an empty token or one holding whitespace. */
  function ClassesFor(size: string, creatureType: string): (r: Option<seq<string>>)
    ensures var w := TypeWords(creatureType);
      r.Some? <==> (|w| == 1 || |w| >= 4) && forall t :: t in CardTokens(size, creatureType) ==> ValidToken(t)
    ensures r.Some? ==>
      var w := TypeWords(creatureType);
      && "mon-card" in r.value && HIDDEN in r.value && w[0] in r.value && Lower(size) in r.value
      && (|w| > 1 ==> Lower(w[2]) in r.value && DropLastChar(w[3]) in r.value)
      && (forall u :: u in r.value ==> u in CardTokens(size, creatureType) && ValidToken(u))
      && NoDuplicates(r.value)
  {
    var w := TypeWords(creatureType);
    if 1 < |w| < 4 then None
    else
      var tokens := CardTokens(size, creatureType);
      if forall t :: t in tokens ==> ValidToken(t) then Some(AddTokens([], tokens)) else None
  }

  /** A one-word type: the card is created exactly when its tokens are valid, and then its
      classes are `mon-card`, `hidden`, the type and the lower-cased size. */
  lemma SingleWordClasses(size: string, kind: string)
    requires ' ' !in kind
    ensures var tokens := ["mon-card", HIDDEN, kind, Lower(size)];
      var r := ClassesFor(size, kind);
      && (r.Some? <==> forall t :: t in tokens ==> ValidToken(t))
      && (r.Some? ==> forall u :: u in r.value <==> u in tokens)
  {
    SplitJoin([kind], " ");
    assert CardTokens(size, kind) == ["mon-card", HIDDEN, kind, Lower(size)];
  }

  /** A type of four or more words, such as "swarm of Tiny beasts": the card also carries the
      lower-cased third word and the fourth word without its last letter (`tiny`, `beast`), so
      the type checkbox `beast` selects swarms of beasts too. */
  lemma MultiWordClasses(size: string, words: seq<string>)
    requires |words| >= 4
    requires forall k :: 0 <= k < |words| ==> ' ' !in words[k]
    ensures var tokens := ["mon-card", HIDDEN, words[0], Lower(size), Lower(words[2]), DropLastChar(words[3])];
      var r := ClassesFor(size, Join(words, " "));
      && (r.Some? <==> forall t :: t in tokens ==> ValidToken(t))
      && (r.Some? ==> forall u :: u in r.value <==> u in tokens)
  {
    SplitJoin(words, " ");
    assert CardTokens(size, Join(words, " ")) ==
      ["mon-card", HIDDEN, words[0], Lower(size), Lower(words[2]), DropLastChar(words[3])];
  }

  /** Two- and three-word types make `addMonCard` throw: there is no fourth word. */
  lemma ShortTypeRejected(size: string, words: seq<string>)
    requires 2 <= |words| <= 3
    requires forall k :: 0 <= k < |words| ==> ' ' !in words[k]
    ensures ClassesFor(size, Join(words, " ")).None?
  {
    SplitJoin(words, " ");
  }

  /** The name paragraph above the info block: the name on one line, then the lower-cased
      size and type and the alignment. */
  function Heading(d: MonsterData): string {
    d.name + "\r\n" + Lower(d.size) + " " + Lower(d.creatureType) + ", " + d.alignment
  }

  // ---------------------------------------------------------------------------------------
  // Reading the challenge rating back: CR_REGEX = /CR: (\d+)/
  // ---------------------------------------------------------------------------------------

  /** `CR: ` followed by a digit starts at index `i` of `s`. */
  predicate CrMatchAt(s: string, i: nat) {
    i + 5 <= |s| && s[i] == 'C' && s[i + 1] == 'R' && s[i + 2] == ':' && s[i + 3] == ' ' &&
    IsDigit(s[i + 4])
  }

  /** A match in `s` is a match at its first index or a match in `s[1..]`. */
  lemma CrMatchShift(s: string)
    requires |s| > 0
    ensures (exists i: nat :: CrMatchAt(s, i)) <==> CrMatchAt(s, 0) || exists j: nat :: CrMatchAt(s[1..], j)
  {
    if exists i: nat :: CrMatchAt(s, i) {
      var i: nat :| CrMatchAt(s, i);
      if i > 0 {
        assert CrMatchAt(s[1..], i - 1);
      }
    }
    if exists j: nat :: CrMatchAt(s[1..], j) {
      var j: nat :| CrMatchAt(s[1..], j);
      assert CrMatchAt(s, j + 1);
    }
  }

  /** `s.match(CR_REGEX)[1]`: the digit run after the leftmost `CR: ` that is followed by a
      digit; `None` when the expression does not match (and the index `[1]` throws). */
  function FindCR(s: string): (r: Option<string>)
    ensures r.Some? <==> exists i: nat :: CrMatchAt(s, i)
    ensures r.Some? ==> exists i: nat :: FirstMatch(s, i) && r.value == DigitRun(s[i + 4..])
    ensures r.Some? ==> |r.value| > 0 && AllDigits(r.value)
    decreases |s|
  {
    if |s| < 5 then None
    else if CrMatchAt(s, 0) then
      assert FirstMatch(s, 0);
      Some(DigitRun(s[4..]))
    else
      CrMatchShift(s);
      var r := FindCR(s[1..]);
      if r.Some? then
        FirstMatchShift(s, r.value);
        r
      else r
  }

  /** The match at `i` is the leftmost one. */
  predicate FirstMatch(s: string, i: nat) {
    CrMatchAt(s, i) && forall j: nat :: j < i ==> !CrMatchAt(s, j)
  }

  /** A leftmost match in `s[1..]` is one index further right in `s`, when `s` has no match at
      its first index. */
  lemma FirstMatchShift(s: string, w: string)
    requires |s| > 0 && !CrMatchAt(s, 0)
    requires exists i: nat :: FirstMatch(s[1..], i) && w == DigitRun(s[1..][i + 4..])
    ensures exists i: nat :: FirstMatch(s, i) && w == DigitRun(s[i + 4..])
  {
    var i: nat :| FirstMatch(s[1..], i) && w == DigitRun(s[1..][i + 4..]);
    assert s[1..][i + 4..] == s[i + 5..];
    assert CrMatchAt(s, i + 1);
    forall j: nat | j < i + 1 ensures !CrMatchAt(s, j) {
      if j > 0 {
        assert !CrMatchAt(s[1..], j - 1);
      }
    }
    assert FirstMatch(s, i + 1);
  }

  /** A prefix without the letter `C` cannot hold a match. */
  lemma {:induction false} FindCRSkip(p: string, q: string)
    requires 'C' !in p
    ensures FindCR(p + q) == FindCR(q)
  {
    if |p| > 0 {
      var s := p + q;
      if |s| >= 5 {
        assert !CrMatchAt(s, 0) by { assert s[0] == p[0]; }
        assert s[1..] == p[1..] + q;
        FindCRSkip(p[1..], q);
      }
    } else {
      assert p + q == q;
    }
  }

  /** A match at the first index captures the digit run after `CR: `. */
  lemma MatchAtStart(s: string)
    requires CrMatchAt(s, 0)
    ensures FindCR(s) == Some(DigitRun(s[4..]))
  {
  }

  /** `CR: ` followed by a digit string and a non-digit captures exactly that digit string. */
  lemma CaptureAtStart(w: string, tail: string)
    requires |w| > 0 && AllDigits(w)
    requires |tail| == 0 || !IsDigit(tail[0])
    ensures FindCR("CR: " + w + tail) == Some(w)
  {
    var q := "CR: " + w + tail;
    var rest := w + tail;
    assert q == "CR: " + rest;
    assert q[4..] == rest;
    assert CrMatchAt(q, 0) by { assert q[4] == rest[0] == w[0]; }
    MatchAtStart(q);
    DigitRunOfDigits(w, tail);
  }

  /** A `C` that is not followed by `R` starts no match. */
  lemma SkipLoneC(b: string, q: string)
    requires |b| > 0 && b[0] == ':' && 'C' !in b
    ensures FindCR("C" + b + q) == FindCR(q)
  {
    var x := "C" + b + q;
    if |x| >= 5 {
      assert !CrMatchAt(x, 0) by { assert x[1] == ':'; }
    }
    assert x[1..] == b + q;
    FindCRSkip(b, q);
  }

  lemma NoCInDecimal(n: nat)
    ensures 'C' !in Decimal(n)
  {
    var s := Decimal(n);
    forall i | 0 <= i < |s| ensures s[i] != 'C' {
      assert IsDigit(s[i]);
    }
  }

  /** The stat line read as: up to the `A` of `AC`, a lone `C`, up to `CR: `, the rest. */
  lemma StatLineRegroup(h: string, ac: string, rest: string)
    ensures h + "   AC: " + ac + "   CR: " + rest ==
            (h + "   A") + ("C" + (": " + ac + "   ") + ("CR: " + rest))
  {
    assert "   AC: " == "   A" + "C" + ": ";
    assert "   CR: " == "   " + "CR: ";
  }

  /** The rating's whole part is what the regular expression captures from the stat line:
      a fractional rating such as `0.25` is read as `0`. */
  lemma StatLineCR(d: MonsterData)
    ensures FindCR(StatLine(d)) == Some(Decimal(d.rating.whole))
  {
    var hp, ac, xp := Decimal(d.hitPoints), Decimal(d.armorClass), Decimal(d.xp);
    var w := Decimal(d.rating.whole);
    var tail := (if |d.rating.fraction| == 0 then "" else "." + d.rating.fraction) + "   XP: " + xp;
    var q := "CR: " + w + tail;
    var a := "HP: " + hp + "   A";
    var b := ": " + ac + "   ";
    assert StatLine(d) == "HP: " + hp + "   AC: " + ac + "   CR: " + (w + tail);
    StatLineRegroup("HP: " + hp, ac, w + tail);
    assert "CR: " + (w + tail) == q;
    NoCInDecimal(d.hitPoints);
    NoCInDecimal(d.armorClass);
    FindCRSkip(a, "C" + b + q);
    SkipLoneC(b, q);
    CaptureAtStart(w, tail);
  }

  /** The numeric CR of a card: `Number` of the captured digits, or `None` when the card has
      no info paragraph or the expression does not match (both throw in the page). */
  function CardCR(c: Card): Option<nat> {
    if |c.info| == 0 then None
    else
      match FindCR(c.info[0])
      case None => None
      case Some(run) => Some(ValueOf(run))
  }

  /** The CR depends only on the first info paragraph. */
  lemma SameFirstParagraph(a: Card, b: Card)
    requires |a.info| > 0 && |b.info| > 0 && a.info[0] == b.info[0]
    ensures CardCR(a) == CardCR(b)
  {
  }

  /** `addMonCard`: the card for a monster record, or `None` when the page throws before
      appending it. A new card is hidden, carries the record's index as its id, and reads
      back the whole part of the record's challenge rating. */
  function MonCard(d: MonsterData): (r: Option<Card>)
    ensures r.Some? <==> ClassesFor(d.size, d.creatureType).Some?
    ensures r.Some? ==> Hidden(r.value) && r.value.id == d.index
    ensures r.Some? ==> CardCR(r.value) == Some(d.rating.whole)
    ensures r.Some? ==>
      && r.value.classes == ClassesFor(d.size, d.creatureType).value
      && r.value.heading == Heading(d)
      && r.value.info == [StatLine(d), d.combatLine, d.abilityLine]
  {
    match ClassesFor(d.size, d.creatureType)
    case None => None
    case Some(classes) =>
      StatLineCR(d);
      DecimalRoundTrip(d.rating.whole);
      Some(Card(d.index, Heading(d), classes, [StatLine(d), d.combatLine, d.abilityLine]))
  }

  // ---------------------------------------------------------------------------------------
  // The filter pass
  // ---------------------------------------------------------------------------------------

  /** `cardCR >= minCR && cardCR <= maxCR`: inclusive on both ends; a bound that `parseInt`
      turned into `NaN` (`None`) makes both comparisons false. */
  predicate InRange(cr: nat, minCR: Option<int>, maxCR: Option<int>) {
    minCR.Some? && maxCR.Some? && minCR.value <= cr <= maxCR.value
  }

  /** A card whose CR can be read. */
  predicate HasCR(c: Card) {
    CardCR(c).Some?
  }

  /** The number of leading cards whose CR can be read: the filter pass throws at the first
      card where it cannot, leaving that card and the ones after it untouched. */
  function Readable(cards: seq<Card>): (k: nat)
    ensures k <= |cards|
    ensures forall i :: 0 <= i < k ==> CardCR(cards[i]).Some?
    ensures k < |cards| ==> CardCR(cards[k]).None?
  {
    Prefix(cards, HasCR)
  }

  /** The reference rule for a readable monster card: it is shown iff some checked size box
      and some checked type box name one of its classes (OR within a dimension) and its CR is
      within the range (AND across dimensions). */
  predicate MonShown(c: Card, sizes: seq<CheckBox>, types: seq<CheckBox>,
                     minCR: Option<int>, maxCR: Option<int>)
    requires CardCR(c).Some?
  {
    AnyChecked(sizes, c.classes) && AnyChecked(types, c.classes) &&
    InRange(CardCR(c).value, minCR, maxCR)
  }

  /** Some name of `names` is one of `classes`. */
  predicate Meets(names: seq<string>, classes: seq<string>) {
    exists n :: n in names && n in classes
  }

  /** The match test of the filter loop, stated over the checked names. */
  predicate NamesWanted(c: Card, sizes: seq<string>, types: seq<string>,
                        minCR: Option<int>, maxCR: Option<int>)
    requires CardCR(c).Some?
  {
    Meets(sizes, c.classes) && Meets(types, c.classes) && InRange(CardCR(c).value, minCR, maxCR)
  }

  /** The test the loop body computes for one card: `intersection(card.classList, sizes)`
      and `intersection(card.classList, types)` are non-empty and the CR is in range. */
  predicate PageTest(c: Card, sizes: seq<string>, types: seq<string>,
                     minCR: Option<int>, maxCR: Option<int>)
    requires CardCR(c).Some?
  {
    |Intersect(c.classes, sizes)| > 0 && |Intersect(c.classes, types)| > 0 &&
    InRange(CardCR(c).value, minCR, maxCR)
  }

  /** The decision the loop body makes for one card: `None` when reading the CR throws,
      otherwise whether the card is shown. */
  function MonDecision(sizes: seq<string>, types: seq<string>,
                       minCR: Option<int>, maxCR: Option<int>): Card -> Option<bool>
  {
    (c: Card) => if CardCR(c).None? then None else Some(PageTest(c, sizes, types, minCR, maxCR))
  }

  /** The `qsa('.mon-card').forEach(...)` loop of `applyMonFilters`, given the checked size and
      type names: each readable card is un-hidden when its classes meet both name lists and
      its CR is in range, hidden otherwise; the first unreadable card ends the loop. */
  function FilterMonCards(cards: seq<Card>, sizes: seq<string>, types: seq<string>,
                          minCR: Option<int>, maxCR: Option<int>): (r: seq<Card>)
    ensures |r| == |cards|
    ensures forall i :: 0 <= i < |cards| ==> SameButHidden(r[i], cards[i])
    ensures forall i :: 0 <= i < Readable(cards) ==>
      (Hidden(r[i]) <==> !NamesWanted(cards[i], sizes, types, minCR, maxCR))
    ensures forall i :: Readable(cards) <= i < |cards| ==> r[i] == cards[i]
  {
    var decide := MonDecision(sizes, types, minCR, maxCR);
    DecidedIsPrefix(cards, decide, HasCR);
    forall c | CardCR(c).Some?
      ensures decide(c) == Some(PageTest(c, sizes, types, minCR, maxCR))
      ensures PageTest(c, sizes, types, minCR, maxCR) <==> NamesWanted(c, sizes, types, minCR, maxCR)
    {
      IntersectTest(c, sizes, types, minCR, maxCR);
    }
    FilterPass(cards, decide)
  }

  /** For the card built from a monster record, the loop's decision is made on the record:
      some selected size and some selected type are among the classes `addMonCard` gave it,
      and the whole part of its challenge rating is within the bounds. */
  lemma RecordDecision(d: MonsterData, sizes: seq<string>, types: seq<string>,
                       minCR: Option<int>, maxCR: Option<int>)
    requires MonCard(d).Some?
    ensures var classes := ClassesFor(d.size, d.creatureType).value;
      MonDecision(sizes, types, minCR, maxCR)(MonCard(d).value) ==
      Some(Meets(sizes, classes) && Meets(types, classes) && InRange(d.rating.whole, minCR, maxCR))
  {
    IntersectTest(MonCard(d).value, sizes, types, minCR, maxCR);
  }

  /** Selecting a monster's lower-cased size and the first word of its type, with its
      challenge rating in range, shows its card. */
  lemma SelectedRecordShown(d: MonsterData, sizes: seq<string>, types: seq<string>,
                            minCR: Option<int>, maxCR: Option<int>)
    requires MonCard(d).Some?
    requires Lower(d.size) in sizes && TypeWords(d.creatureType)[0] in types
    requires InRange(d.rating.whole, minCR, maxCR)
    ensures MonDecision(sizes, types, minCR, maxCR)(MonCard(d).value) == Some(true)
  {
    RecordDecision(d, sizes, types, minCR, maxCR);
    var classes := ClassesFor(d.size, d.creatureType).value;
    assert Lower(d.size) in classes && TypeWords(d.creatureType)[0] in classes;
  }

  /** The page's test (non-empty intersections, CR in range) is the name-level rule. */
  lemma IntersectTest(c: Card, sizes: seq<string>, types: seq<string>,
                      minCR: Option<int>, maxCR: Option<int>)
    requires CardCR(c).Some?
    ensures PageTest(c, sizes, types, minCR, maxCR) <==> NamesWanted(c, sizes, types, minCR, maxCR)
  {
    NonEmptyIff(c.classes, sizes);
    NonEmptyIff(c.classes, types);
  }

  /** The state of the monster lookup: the size and type checkbox groups, the two CR inputs
      after `parseInt` (`None` for `NaN`), the labels of the two Select/Deselect-All buttons,
      and the cards in document order. */
  datatype MonLookup = MonLookup(
    sizes: seq<CheckBox>,
    types: seq<CheckBox>,
    minCR: Option<int>,
    maxCR: Option<int>,
    sizeLabel: string,
    typeLabel: string,
    cards: seq<Card>)

  /** `applyMonFilters`: relabel both buttons, then show exactly the readable cards that match
      every dimension; nothing but the `hidden` class of a card changes. */
  function ApplyMonFilters(p: MonLookup): (r: MonLookup)
    ensures r.sizes == p.sizes && r.types == p.types
    ensures r.minCR == p.minCR && r.maxCR == p.maxCR
    ensures r.sizeLabel == NextLabel(p.sizeLabel, p.sizes)
    ensures r.typeLabel == NextLabel(p.typeLabel, p.types)
    ensures |r.cards| == |p.cards|
    ensures forall i :: 0 <= i < |p.cards| ==> SameButHidden(r.cards[i], p.cards[i])
    ensures forall i :: 0 <= i < Readable(p.cards) ==>
      (Hidden(r.cards[i]) <==> !MonShown(p.cards[i], p.sizes, p.types, p.minCR, p.maxCR))
    ensures forall i :: Readable(p.cards) <= i < |p.cards| ==> r.cards[i] == p.cards[i]
  {
    var sizes := CheckedNames(p.sizes);
    var types := CheckedNames(p.types);
    var cards := FilterMonCards(p.cards, sizes, types, p.minCR, p.maxCR);
    forall i | 0 <= i < Readable(p.cards)
      ensures Hidden(cards[i]) <==> !MonShown(p.cards[i], p.sizes, p.types, p.minCR, p.maxCR)
    {
      WantedIsShown(p.cards[i], p.sizes, p.types, p.minCR, p.maxCR);
    }
    p.(sizeLabel := NextLabel(p.sizeLabel, p.sizes),
       typeLabel := NextLabel(p.typeLabel, p.types),
       cards := cards)
  }

  /** The test on the checked names is the reference rule on the checkbox groups. */
  lemma WantedIsShown(c: Card, sizes: seq<CheckBox>, types: seq<CheckBox>,
                      minCR: Option<int>, maxCR: Option<int>)
    requires CardCR(c).Some?
    ensures NamesWanted(c, CheckedNames(sizes), CheckedNames(types), minCR, maxCR) <==>
            MonShown(c, sizes, types, minCR, maxCR)
  {
    CheckedNamesMeet(sizes, c.classes);
    CheckedNamesMeet(types, c.classes);
  }

  /** With no size box (or no type box) checked, or a CR bound that is not a number, every
      readable card is hidden. */
  lemma EmptySelectionHidesAll(p: MonLookup)
    requires (forall i :: 0 <= i < |p.sizes| ==> !p.sizes[i].checked) ||
             (forall i :: 0 <= i < |p.types| ==> !p.types[i].checked) ||
             p.minCR.None? || p.maxCR.None?
    ensures forall i :: 0 <= i < Readable(p.cards) ==> Hidden(ApplyMonFilters(p).cards[i])
  {
  }

  /** Hiding or showing a card does not change the decision for it, provided no name tested
      is the `hidden` class itself. */
  lemma DecisionIgnoresHidden(sizes: seq<string>, types: seq<string>,
                              minCR: Option<int>, maxCR: Option<int>)
    requires HIDDEN !in sizes && HIDDEN !in types
    ensures IgnoresHidden(MonDecision(sizes, types, minCR, maxCR))
  {
    forall c: Card, b: bool
      ensures MonDecision(sizes, types, minCR, maxCR)(SetHidden(c, b)) ==
              MonDecision(sizes, types, minCR, maxCR)(c)
    {
      var f := SetHidden(c, b);
      assert f.info == c.info;
      if CardCR(c).Some? {
        IntersectTest(c, sizes, types, minCR, maxCR);
        IntersectTest(f, sizes, types, minCR, maxCR);
        assert Meets(sizes, c.classes) <==> Meets(sizes, f.classes);
        assert Meets(types, c.classes) <==> Meets(types, f.classes);
      }
    }
  }

  /** A second pass over the same selection changes nothing, provided no checkbox is named
      after the `hidden` class itself (a card's own `hidden` class is among the classes the
      pass tests). */
  lemma FilterMonCardsIdempotent(cards: seq<Card>, sizes: seq<string>, types: seq<string>,
                                 minCR: Option<int>, maxCR: Option<int>)
    requires HIDDEN !in sizes && HIDDEN !in types
    ensures var once := FilterMonCards(cards, sizes, types, minCR, maxCR);
            FilterMonCards(once, sizes, types, minCR, maxCR) == once
  {
    DecisionIgnoresHidden(sizes, types, minCR, maxCR);
    FilterPassIdempotent(cards, MonDecision(sizes, types, minCR, maxCR));
  }

  lemma ApplyMonFiltersIdempotent(p: MonLookup)
    requires !NameChecked(p.sizes, HIDDEN) && !NameChecked(p.types, HIDDEN)
    ensures ApplyMonFilters(ApplyMonFilters(p)) == ApplyMonFilters(p)
  {
    FilterMonCardsIdempotent(p.cards, CheckedNames(p.sizes), CheckedNames(p.types), p.minCR, p.maxCR);
  }

  // ---------------------------------------------------------------------------------------
  // Select/Deselect-All buttons
  // ---------------------------------------------------------------------------------------

  /** The two monster checkbox groups a button can switch. */
  datatype MonGroup = SizeGroup | TypeGroup

  /** `switchMonCheckBoxes(evt, setChecked)`: set every box of the button's group to
      `setChecked` and re-run the filter pass. */
  function SwitchMonCheckBoxes(p: MonLookup, group: MonGroup, setChecked: bool): (r: MonLookup)
    ensures group.SizeGroup? ==>
      && |r.sizes| == |p.sizes| && r.types == p.types
      && (forall i :: 0 <= i < |p.sizes| ==> r.sizes[i].name == p.sizes[i].name && r.sizes[i].checked == setChecked)
      && (setChecked ==> r.sizeLabel == DESELECT_ALL)
      && (!setChecked && |p.sizes| > 0 ==> r.sizeLabel == SELECT_ALL)
    ensures group.TypeGroup? ==>
      && |r.types| == |p.types| && r.sizes == p.sizes
      && (forall i :: 0 <= i < |p.types| ==> r.types[i].name == p.types[i].name && r.types[i].checked == setChecked)
      && (setChecked ==> r.typeLabel == DESELECT_ALL)
      && (!setChecked && |p.types| > 0 ==> r.typeLabel == SELECT_ALL)
    ensures group.SizeGroup? ==> r.typeLabel == NextLabel(p.typeLabel, p.types)
    ensures group.TypeGroup? ==> r.sizeLabel == NextLabel(p.sizeLabel, p.sizes)
    ensures r.minCR == p.minCR && r.maxCR == p.maxCR
    ensures |r.cards| == |p.cards|
    ensures forall i :: 0 <= i < |p.cards| ==> SameButHidden(r.cards[i], p.cards[i])
    ensures forall i :: 0 <= i < Readable(p.cards) ==>
      (Hidden(r.cards[i]) <==> !MonShown(p.cards[i], r.sizes, r.types, p.minCR, p.maxCR))
    ensures forall i :: Readable(p.cards) <= i < |p.cards| ==> r.cards[i] == p.cards[i]
    ensures !setChecked ==> forall i :: 0 <= i < Readable(p.cards) ==> Hidden(r.cards[i])
  {
    SetAllLabel(p.sizeLabel, p.sizes, setChecked);
    SetAllLabel(p.typeLabel, p.types, setChecked);
    ApplyMonFilters(SetGroup(p, group, setChecked))
  }

  /** The lookup once every box of `group` is set to `v`, before the filter pass runs. */
  function SetGroup(p: MonLookup, group: MonGroup, v: bool): (q: MonLookup)
    ensures q.cards == p.cards && q.minCR == p.minCR && q.maxCR == p.maxCR
    ensures q.sizeLabel == p.sizeLabel && q.typeLabel == p.typeLabel
    ensures q.sizes == if group.SizeGroup? then SetAll(p.sizes, v) else p.sizes
    ensures q.types == if group.TypeGroup? then SetAll(p.types, v) else p.types
  {
    match group
    case SizeGroup => p.(sizes := SetAll(p.sizes, v))
    case TypeGroup => p.(types := SetAll(p.types, v))
  }

  /** Pressing the same button twice with the same state is the same as pressing it once,
      provided no box is named after the `hidden` class. */
  lemma SwitchMonCheckBoxesIdempotent(p: MonLookup, group: MonGroup, setChecked: bool)
    requires forall i :: 0 <= i < |p.sizes| ==> p.sizes[i].name != HIDDEN
    requires forall i :: 0 <= i < |p.types| ==> p.types[i].name != HIDDEN
    ensures var once := SwitchMonCheckBoxes(p, group, setChecked);
            SwitchMonCheckBoxes(once, group, setChecked) == once
  {
    var q0 := SetGroup(p, group, setChecked);
    var once := ApplyMonFilters(q0);
    var q1 := SetGroup(once, group, setChecked);
    assert q1.sizes == once.sizes && q1.types == once.types;
    assert q1 == once;
    assert !NameChecked(q0.sizes, HIDDEN) && !NameChecked(q0.types, HIDDEN);
    ApplyMonFiltersIdempotent(q0);
  }
}
