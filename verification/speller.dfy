/** The stand-alone spell page: the same three checkbox groups and spell cards as the
    dashboard's spell lookup, but its buttons only fill a group and carry no label, and its
    level list keeps every `0` and appends a `C`. */
module Speller {
  import opened Optional
  import opened Dom
  import opened CardFilter
  import opened Spells
  import DashboardSpells

  datatype SpellerPage = SpellerPage(
    levels: seq<CheckBox>,
    schools: seq<CheckBox>,
    classes: seq<CheckBox>,
    cards: seq<Card>)

  /** The level list `applyFilters` builds from the checked level boxes. */
  function PageLevels(levels: seq<CheckBox>): seq<string> {
    SpellerLevels(BoxLevels(CheckedNames(levels)))
  }

  /** `applyFilters`: show exactly the readable cards that satisfy the reference rule; the
      checkboxes stay as they are and nothing but the `hidden` class of a card changes. */
  function ApplyFilters(p: SpellerPage): (r: SpellerPage)
    ensures r.levels == p.levels && r.schools == p.schools && r.classes == p.classes
    ensures |r.cards| == |p.cards|
    ensures forall i :: 0 <= i < |p.cards| ==> SameButHidden(r.cards[i], p.cards[i])
    ensures forall i :: 0 <= i < ReadableSpells(p.cards) ==>
      (Hidden(r.cards[i]) <==>
       !SpellShown(ReadSpellCard(p.cards[i]).value, p.levels, p.schools, p.classes))
    ensures forall i :: ReadableSpells(p.cards) <= i < |p.cards| ==> r.cards[i] == p.cards[i]
  {
    var levels := PageLevels(p.levels);
    var cards := FilterSpellCards(p.cards, levels, CheckedNames(p.schools), CheckedNames(p.classes));
    forall i | 0 <= i < ReadableSpells(p.cards)
      ensures Hidden(cards[i]) <==>
              !SpellShown(ReadSpellCard(p.cards[i]).value, p.levels, p.schools, p.classes)
    {
      var f := ReadSpellCard(p.cards[i]).value;
      LevelListsAgree(BoxLevels(CheckedNames(p.levels)), f.level);
      MatchIsShown(f, levels, p.levels, p.schools, p.classes);
    }
    p.(cards := cards)
  }

  /** With no box checked in some group, every readable card is hidden. */
  lemma EmptySelectionHidesAll(p: SpellerPage)
    requires (forall i :: 0 <= i < |p.levels| ==> !p.levels[i].checked) ||
             (forall i :: 0 <= i < |p.schools| ==> !p.schools[i].checked) ||
             (forall i :: 0 <= i < |p.classes| ==> !p.classes[i].checked)
    ensures forall i :: 0 <= i < ReadableSpells(p.cards) ==> Hidden(ApplyFilters(p).cards[i])
  {
  }

  /** `fillCheckBoxes`: check every box of the button's group and re-run the filter pass. */
  function FillCheckBoxes(p: SpellerPage, group: SpellGroup): (r: SpellerPage)
    ensures group.LevelGroup? ==>
      && |r.levels| == |p.levels| && r.schools == p.schools && r.classes == p.classes
      && forall i :: 0 <= i < |p.levels| ==> r.levels[i].name == p.levels[i].name && r.levels[i].checked
    ensures group.SchoolGroup? ==>
      && |r.schools| == |p.schools| && r.levels == p.levels && r.classes == p.classes
      && forall i :: 0 <= i < |p.schools| ==> r.schools[i].name == p.schools[i].name && r.schools[i].checked
    ensures group.ClassGroup? ==>
      && |r.classes| == |p.classes| && r.levels == p.levels && r.schools == p.schools
      && forall i :: 0 <= i < |p.classes| ==> r.classes[i].name == p.classes[i].name && r.classes[i].checked
    ensures |r.cards| == |p.cards|
    ensures forall i :: 0 <= i < |p.cards| ==> SameButHidden(r.cards[i], p.cards[i])
    ensures forall i :: 0 <= i < ReadableSpells(p.cards) ==>
      (Hidden(r.cards[i]) <==>
       !SpellShown(ReadSpellCard(p.cards[i]).value, r.levels, r.schools, r.classes))
    ensures forall i :: ReadableSpells(p.cards) <= i < |p.cards| ==> r.cards[i] == p.cards[i]
  {
    ApplyFilters(Fill(p, group))
  }

  /** The page once every box of `group` is checked, before the filter pass runs. */
  function Fill(p: SpellerPage, group: SpellGroup): (q: SpellerPage)
    ensures q.cards == p.cards
    ensures q.levels == if group.LevelGroup? then SetAll(p.levels, true) else p.levels
    ensures q.schools == if group.SchoolGroup? then SetAll(p.schools, true) else p.schools
    ensures q.classes == if group.ClassGroup? then SetAll(p.classes, true) else p.classes
  {
    match group
    case LevelGroup => p.(levels := SetAll(p.levels, true))
    case SchoolGroup => p.(schools := SetAll(p.schools, true))
    case ClassGroup => p.(classes := SetAll(p.classes, true))
  }

  /** A second filter pass changes nothing. */
  lemma ApplyFiltersIdempotent(p: SpellerPage)
    ensures ApplyFilters(ApplyFilters(p)) == ApplyFilters(p)
  {
    FilterSpellCardsIdempotent(p.cards, PageLevels(p.levels), CheckedNames(p.schools),
                               CheckedNames(p.classes));
  }

  /** Pressing a fill button a second time changes nothing. */
  lemma FillCheckBoxesIdempotent(p: SpellerPage, group: SpellGroup)
    ensures var once := FillCheckBoxes(p, group);
            FillCheckBoxes(once, group) == once
  {
    var q0 := Fill(p, group);
    var once := ApplyFilters(q0);
    var q1 := Fill(once, group);
    assert q1.levels == once.levels && q1.schools == once.schools && q1.classes == once.classes;
    assert q1 == once;
    ApplyFiltersIdempotent(q0);
  }

  /** The two pages build different level lists (the dashboard replaces the first `0` with
      `C`, this page keeps it and appends `C`), yet for the same checkboxes and cards their
      filter passes leave the cards in the same state: a card never shows level `0`. */
  lemma SameAsDashboard(p: SpellerPage, levelLabel: string, schoolLabel: string,
                        classLabel: string)
    ensures var d := DashboardSpells.SpellLookup(p.levels, p.schools, p.classes,
                                                 levelLabel, schoolLabel, classLabel, p.cards);
            ApplyFilters(p).cards == DashboardSpells.ApplySpellFilters(d).cards
  {
    var ls := BoxLevels(CheckedNames(p.levels));
    var schools := CheckedNames(p.schools);
    var classes := CheckedNames(p.classes);
    var mine := SpellDecision(SpellerLevels(ls), schools, classes);
    var theirs := SpellDecision(DashboardLevels(ls), schools, classes);
    forall c ensures mine(c) == theirs(c) {
      if ReadSpellCard(c).Some? {
        LevelListsAgree(ls, ReadSpellCard(c).value.level);
      }
    }
    FilterPassAgrees(p.cards, mine, theirs);
  }
}
