/** The DM Dashboard's spell lookup: three checkbox groups (level, school, class), the label
    of each group's Select/Deselect-All button, and the spell cards. */
module DashboardSpells {
  import opened Dom
  import opened Spells

  datatype SpellLookup = SpellLookup(
    levels: seq<CheckBox>,
    schools: seq<CheckBox>,
    classes: seq<CheckBox>,
    levelLabel: string,
    schoolLabel: string,
    classLabel: string,
    cards: seq<Card>)

  /** The level list `applySpellFilters` builds from the checked level boxes. */
  function PageLevels(levels: seq<CheckBox>): seq<string> {
    DashboardLevels(BoxLevels(CheckedNames(levels)))
  }

  /** `applySpellFilters`: relabel the three buttons, then show exactly the readable cards that
      satisfy the reference rule; nothing but the `hidden` class of a card changes, and the
      loop stops at the first card without three info paragraphs. */
  function ApplySpellFilters(p: SpellLookup): (r: SpellLookup)
    ensures r.levels == p.levels && r.schools == p.schools && r.classes == p.classes
    ensures r.levelLabel == NextLabel(p.levelLabel, p.levels)
    ensures r.schoolLabel == NextLabel(p.schoolLabel, p.schools)
    ensures r.classLabel == NextLabel(p.classLabel, p.classes)
    ensures |r.cards| == |p.cards|
    ensures forall i :: 0 <= i < |p.cards| ==> SameButHidden(r.cards[i], p.cards[i])
    ensures forall i :: 0 <= i < ReadableSpells(p.cards) ==>
      (Hidden(r.cards[i]) <==>
       !SpellShown(ReadSpellCard(p.cards[i]).value, p.levels, p.schools, p.classes))
    ensures forall i :: ReadableSpells(p.cards) <= i < |p.cards| ==> r.cards[i] == p.cards[i]
  {
    var levels := PageLevels(p.levels);
    var cards := FilterSpellCards(p.cards, levels, CheckedNames(p.schools), CheckedNames(p.classes));
    forall i | 0 <= i < ReadableSpells(p.cards)
      ensures Hidden(cards[i]) <==>
              !SpellShown(ReadSpellCard(p.cards[i]).value, p.levels, p.schools, p.classes)
    {
      var f := ReadSpellCard(p.cards[i]).value;
      LevelListsAgree(BoxLevels(CheckedNames(p.levels)), f.level);
      MatchIsShown(f, levels, p.levels, p.schools, p.classes);
    }
    p.(levelLabel := NextLabel(p.levelLabel, p.levels),
       schoolLabel := NextLabel(p.schoolLabel, p.schools),
       classLabel := NextLabel(p.classLabel, p.classes),
       cards := cards)
  }

  /** A second filter pass changes nothing. */
  lemma ApplySpellFiltersIdempotent(p: SpellLookup)
    ensures ApplySpellFilters(ApplySpellFilters(p)) == ApplySpellFilters(p)
  {
    FilterSpellCardsIdempotent(p.cards, PageLevels(p.levels), CheckedNames(p.schools),
                               CheckedNames(p.classes));
  }

  /** `switchSpellCheckBoxes(evt, setChecked)`: set every box of the button's group to
      `setChecked` and re-run the filter pass. */
  function SwitchSpellCheckBoxes(p: SpellLookup, group: SpellGroup, setChecked: bool): (r: SpellLookup)
    ensures group.LevelGroup? ==>
      && |r.levels| == |p.levels| && r.schools == p.schools && r.classes == p.classes
      && (forall i :: 0 <= i < |p.levels| ==> r.levels[i].name == p.levels[i].name && r.levels[i].checked == setChecked)
      && (setChecked ==> r.levelLabel == DESELECT_ALL)
      && (!setChecked && |p.levels| > 0 ==> r.levelLabel == SELECT_ALL)
    ensures group.SchoolGroup? ==>
      && |r.schools| == |p.schools| && r.levels == p.levels && r.classes == p.classes
      && (forall i :: 0 <= i < |p.schools| ==> r.schools[i].name == p.schools[i].name && r.schools[i].checked == setChecked)
      && (setChecked ==> r.schoolLabel == DESELECT_ALL)
      && (!setChecked && |p.schools| > 0 ==> r.schoolLabel == SELECT_ALL)
    ensures group.ClassGroup? ==>
      && |r.classes| == |p.classes| && r.levels == p.levels && r.schools == p.schools
      && (forall i :: 0 <= i < |p.classes| ==> r.classes[i].name == p.classes[i].name && r.classes[i].checked == setChecked)
      && (setChecked ==> r.classLabel == DESELECT_ALL)
      && (!setChecked && |p.classes| > 0 ==> r.classLabel == SELECT_ALL)
    ensures !group.LevelGroup? ==> r.levelLabel == NextLabel(p.levelLabel, p.levels)
    ensures !group.SchoolGroup? ==> r.schoolLabel == NextLabel(p.schoolLabel, p.schools)
    ensures !group.ClassGroup? ==> r.classLabel == NextLabel(p.classLabel, p.classes)
    ensures |r.cards| == |p.cards|
    ensures forall i :: 0 <= i < |p.cards| ==> SameButHidden(r.cards[i], p.cards[i])
    ensures forall i :: 0 <= i < ReadableSpells(p.cards) ==>
      (Hidden(r.cards[i]) <==>
       !SpellShown(ReadSpellCard(p.cards[i]).value, r.levels, r.schools, r.classes))
    ensures forall i :: ReadableSpells(p.cards) <= i < |p.cards| ==> r.cards[i] == p.cards[i]
  {
    SetAllLabel(p.levelLabel, p.levels, setChecked);
    SetAllLabel(p.schoolLabel, p.schools, setChecked);
    SetAllLabel(p.classLabel, p.classes, setChecked);
    ApplySpellFilters(SetGroup(p, group, setChecked))
  }

  /** The lookup once every box of `group` is set to `v`, before the filter pass runs. */
  function SetGroup(p: SpellLookup, group: SpellGroup, v: bool): (q: SpellLookup)
    ensures q.cards == p.cards
    ensures q.levelLabel == p.levelLabel && q.schoolLabel == p.schoolLabel &&
            q.classLabel == p.classLabel
    ensures q.levels == if group.LevelGroup? then SetAll(p.levels, v) else p.levels
    ensures q.schools == if group.SchoolGroup? then SetAll(p.schools, v) else p.schools
    ensures q.classes == if group.ClassGroup? then SetAll(p.classes, v) else p.classes
  {
    match group
    case LevelGroup => p.(levels := SetAll(p.levels, v))
    case SchoolGroup => p.(schools := SetAll(p.schools, v))
    case ClassGroup => p.(classes := SetAll(p.classes, v))
  }

  /** With no box checked in some group, every readable card is hidden. */
  lemma EmptySelectionHidesAll(p: SpellLookup)
    requires (forall i :: 0 <= i < |p.levels| ==> !p.levels[i].checked) ||
             (forall i :: 0 <= i < |p.schools| ==> !p.schools[i].checked) ||
             (forall i :: 0 <= i < |p.classes| ==> !p.classes[i].checked)
    ensures forall i :: 0 <= i < ReadableSpells(p.cards) ==> Hidden(ApplySpellFilters(p).cards[i])
  {
  }

  /** Deselecting any one group hides every readable card. */
  lemma DeselectHidesAll(p: SpellLookup, group: SpellGroup)
    ensures forall i :: 0 <= i < ReadableSpells(p.cards) ==>
      Hidden(SwitchSpellCheckBoxes(p, group, false).cards[i])
  {
    var r := SwitchSpellCheckBoxes(p, group, false);
    forall i | 0 <= i < ReadableSpells(p.cards) ensures Hidden(r.cards[i]) {
      var f := ReadSpellCard(p.cards[i]).value;
      assert !SpellShown(f, r.levels, r.schools, r.classes);
    }
  }

  /** Pressing the same button twice with the same state is the same as pressing it once. */
  lemma SwitchSpellCheckBoxesIdempotent(p: SpellLookup, group: SpellGroup, setChecked: bool)
    ensures var once := SwitchSpellCheckBoxes(p, group, setChecked);
            SwitchSpellCheckBoxes(once, group, setChecked) == once
  {
    var q0 := SetGroup(p, group, setChecked);
    var once := ApplySpellFilters(q0);
    var q1 := SetGroup(once, group, setChecked);
    assert q1.levels == once.levels && q1.schools == once.schools && q1.classes == once.classes;
    assert q1 == once;
    ApplySpellFiltersIdempotent(q0);
  }
}
