/** Spell cards, shared by the DM Dashboard's spell lookup and the stand-alone spell page:
    how a spell record is rendered into the paragraphs of a card's info block, how the filter
    loop reads level, school and classes back out of those paragraphs, and the per-card
    decision of the filter loop. */
module Spells {
  import opened Optional
  import opened Text
  import opened Dom
  import opened Intersection
  import opened CardFilter

  // ---------------------------------------------------------------------------------------
  // Rendering
  // ---------------------------------------------------------------------------------------

  /** The fields of a spell record that `makeSpellInfo` renders; schools, classes and
      subclasses are given by their `name`. */
  datatype SpellData = SpellData(
    index: string,
    name: string,
    level: nat,
    school: string,
    classes: seq<string>,
    subclasses: seq<string>,
    desc: string)

  /** `spellData.level === 0 ? 'C' : spellData.level`: cantrips are shown as `C`. */
  function LevelText(level: nat): (r: string)
    ensures r != "0"
    ensures level == 0 <==> r == "C"
    ensures level > 0 ==> r == Decimal(level)
  {
    if level == 0 then "C" else Decimal(level)
  }

  /** `String(names).replaceAll(',', ', ')`: the array's default string form joins with a
      comma, and every comma, including one inside a name, becomes `, `. */
  function ListText(names: seq<string>): string {
    ReplaceAllChar(Join(names, ","), ',', ", ")
  }

  /** The five paragraphs of a spell card's info block, in document order. */
  function SpellInfo(d: SpellData): (r: seq<string>)
    ensures |r| == 5
  {
    ["Level: " + LevelText(d.level),
     "School: " + d.school,
     "Classes: " + ListText(d.classes),
     "Subclasses: " + ListText(d.subclasses),
     "Description: " + d.desc]
  }

  /** `addSpellCard`: a hidden card with the classes `spell-card` and `hidden`, the name
      paragraph and the info block. The dashboard sets the card's id to the record's index;
      the spell page leaves it empty. */
  function SpellCard(d: SpellData, withId: bool): (c: Card)
    ensures Hidden(c) && c.classes == ["spell-card", HIDDEN]
    ensures c.info == SpellInfo(d)
    ensures c.id == (if withId then d.index else "")
  {
    Card(if withId then d.index else "", "Name: " + d.name, ["spell-card", HIDDEN], SpellInfo(d))
  }

  // ---------------------------------------------------------------------------------------
  // Reading a card back
  // ---------------------------------------------------------------------------------------

  /** What the filter loop reads from a card: the level text (`0` read as `C`), the
      lower-cased school, and the lower-cased class names. */
  datatype SpellFields = SpellFields(level: string, school: string, classes: seq<string>)

  /** The loop body's reads of the first three info paragraphs: each with its label's first
      occurrence removed, the class paragraph split at `, `. `None` when the card has fewer
      than three paragraphs (`null.innerText` throws). */
  function ReadSpellCard(c: Card): (r: Option<SpellFields>)
    ensures r.Some? <==> |c.info| >= 3
    ensures r.Some? ==> r.value.level != "0" && |r.value.classes| > 0
  {
    if |c.info| < 3 then None
    else Some(SpellFields(ReadLevel(c.info[0]), ReadSchool(c.info[1]), ReadClasses(c.info[2])))
  }

  /** `p.replace('Level: ', '')`, with `0` read as `C`. */
  function ReadLevel(p: string): (r: string)
    ensures r != "0"
  {
    var level := Replace(p, "Level: ", "");
    if level == "0" then "C" else level
  }

  /** `p.replace('School: ', '').toLowerCase()`. */
  function ReadSchool(p: string): string {
    Lower(Replace(p, "School: ", ""))
  }

  /** `p.replace('Classes: ', '').split(', ').map(cl => cl.toLowerCase())`. */
  function ReadClasses(p: string): (r: seq<string>)
    ensures |r| > 0
  {
    LowerAll(Split(Replace(p, "Classes: ", ""), ", "))
  }

  /** Removing a label from the paragraph it starts. */
  lemma DropLabel(tag: string, x: string)
    ensures Replace(tag + x, tag, "") == x
  {
    assert StartsWith(tag + x, tag);
    assert (tag + x)[|tag|..] == x;
  }

  lemma ReadRenderedLevel(level: nat)
    ensures ReadLevel("Level: " + LevelText(level)) == LevelText(level)
  {
    DropLabel("Level: ", LevelText(level));
  }

  lemma ReadRenderedSchool(school: string)
    ensures ReadSchool("School: " + school) == Lower(school)
  {
    DropLabel("School: ", school);
  }

  lemma ReadRenderedClasses(classes: seq<string>)
    requires forall k :: 0 <= k < |classes| ==> ',' !in classes[k]
    ensures ReadClasses("Classes: " + ListText(classes)) ==
      if |classes| == 0 then [""] else LowerAll(classes)
  {
    DropLabel("Classes: ", ListText(classes));
    CommaListText(classes);
    if |classes| == 0 {
      assert Split("", ", ") == [""];
    } else {
      SplitJoin(classes, ", ");
    }
  }

  /** Reading a rendered card gives back the level text, the lower-cased school and the
      lower-cased class names, provided no class name holds a comma; a spell with no class
      reads as the single empty name. */
  lemma ReadRendered(d: SpellData, withId: bool)
    requires forall k :: 0 <= k < |d.classes| ==> ',' !in d.classes[k]
    ensures ReadSpellCard(SpellCard(d, withId)) ==
      Some(SpellFields(LevelText(d.level), Lower(d.school),
                       if |d.classes| == 0 then [""] else LowerAll(d.classes)))
  {
    var info := SpellCard(d, withId).info;
    assert info[0] == "Level: " + LevelText(d.level) && info[1] == "School: " + d.school &&
           info[2] == "Classes: " + ListText(d.classes);
    ReadRenderedLevel(d.level);
    ReadRenderedSchool(d.school);
    ReadRenderedClasses(d.classes);
  }

  // ---------------------------------------------------------------------------------------
  // The per-card decision
  // ---------------------------------------------------------------------------------------

  /** `levels.includes(spellLvl) && schools.includes(spellSch.toLowerCase()) &&
      intersection(spellCls, classes).length > 0`. */
  predicate FieldsMatch(f: SpellFields, levels: seq<string>, schools: seq<string>,
                        classes: seq<string>)
  {
    f.level in levels && f.school in schools && |Intersect(f.classes, classes)| > 0
  }

  /** The decision the loop body makes for one card: `None` when reading it throws. */
  function SpellDecision(levels: seq<string>, schools: seq<string>, classes: seq<string>):
    Card -> Option<bool>
  {
    (c: Card) => match ReadSpellCard(c)
      case None => None
      case Some(f) => Some(FieldsMatch(f, levels, schools, classes))
  }

  /** The number of leading cards that have the three paragraphs the loop reads: the loop
      throws at the first card that does not. */
  function ReadableSpells(cards: seq<Card>): (k: nat)
    ensures k <= |cards|
    ensures forall i :: 0 <= i < k ==> |cards[i].info| >= 3
    ensures k < |cards| ==> |cards[k].info| < 3
  {
    Prefix(cards, HasSpellFields)
  }

  /** A card with the three paragraphs the filter loop reads. */
  predicate HasSpellFields(c: Card) {
    |c.info| >= 3
  }

  /** Both pages' filter loop over the spell cards, given the selected levels, schools and
      classes. */
  function FilterSpellCards(cards: seq<Card>, levels: seq<string>, schools: seq<string>,
                            classes: seq<string>): (r: seq<Card>)
    ensures |r| == |cards|
    ensures forall i :: 0 <= i < |cards| ==> SameButHidden(r[i], cards[i])
    ensures forall i :: 0 <= i < ReadableSpells(cards) ==>
      (Hidden(r[i]) <==> !FieldsMatch(ReadSpellCard(cards[i]).value, levels, schools, classes))
    ensures forall i :: ReadableSpells(cards) <= i < |cards| ==> r[i] == cards[i]
  {
    var decide := SpellDecision(levels, schools, classes);
    DecidedIsPrefix(cards, decide, HasSpellFields);
    FilterPass(cards, decide)
  }

  /** The decision reads only the info block, so the filter loop is idempotent. */
  lemma FilterSpellCardsIdempotent(cards: seq<Card>, levels: seq<string>, schools: seq<string>,
                                   classes: seq<string>)
    ensures var once := FilterSpellCards(cards, levels, schools, classes);
      FilterSpellCards(once, levels, schools, classes) == once
  {
    var decide := SpellDecision(levels, schools, classes);
    forall c: Card, b: bool ensures decide(SetHidden(c, b)) == decide(c) {
      assert SetHidden(c, b).info == c.info;
    }
    FilterPassIdempotent(cards, decide);
  }

  /** For a rendered card with at least one class and no comma in a class name, the loop's
      decision is the record-level rule: its level text is selected, its lower-cased school
      is selected, and some selected class is one of its lower-cased classes. */
  lemma RenderedDecision(d: SpellData, withId: bool, levels: seq<string>, schools: seq<string>,
                         classes: seq<string>)
    requires |d.classes| > 0
    requires forall k :: 0 <= k < |d.classes| ==> ',' !in d.classes[k]
    ensures SpellDecision(levels, schools, classes)(SpellCard(d, withId)) ==
      Some(LevelText(d.level) in levels && Lower(d.school) in schools &&
           exists n :: n in classes && n in LowerAll(d.classes))
  {
    ReadRendered(d, withId);
    NonEmptyIff(LowerAll(d.classes), classes);
  }

  // ---------------------------------------------------------------------------------------
  // Level checkbox names
  // ---------------------------------------------------------------------------------------

  /** `option.name.replace('level', '')` for each checked level box. */
  function BoxLevels(names: seq<string>): (r: seq<string>)
    ensures |r| == |names|
    ensures forall i :: 0 <= i < |names| ==> r[i] == Replace(names[i], "level", "")
    ensures forall i :: 0 <= i < |names| && StartsWith(names[i], "level") ==> r[i] == names[i][5..]
  {
    seq(|names|, i requires 0 <= i < |names| => Replace(names[i], "level", ""))
  }

  /** The level boxes are named `level0` to `level9`: the name minus `level` is the digit. */
  lemma BoxLevelOfName(digit: string)
    ensures BoxLevels(["level" + digit]) == [digit]
  {
    DropLabel("level", digit);
  }

  /** The position of the first `0` in a level list (`levels.indexOf('0')`). */
  function FirstZero(ls: seq<string>): (r: Option<nat>)
    ensures r.Some? <==> "0" in ls
    ensures r.Some? ==> r.value < |ls| && ls[r.value] == "0"
    ensures r.Some? ==> forall k :: 0 <= k < r.value ==> ls[k] != "0"
  {
    if |ls| == 0 then None
    else if ls[0] == "0" then Some(0)
    else match FirstZero(ls[1..])
      case None => None
      case Some(k) => Some(k + 1)
  }

  /** The dashboard's level list: the first `0` becomes `C`; any later `0` stays. */
  function DashboardLevels(ls: seq<string>): (r: seq<string>)
    ensures |r| == |ls|
    ensures "0" in ls ==> "C" in r
    ensures forall x :: x != "0" && x != "C" ==> (x in r <==> x in ls)
    ensures "C" in r <==> "C" in ls || "0" in ls
  {
    match FirstZero(ls)
    case None => ls
    case Some(j) =>
      var r := ls[j := "C"];
      assert r[j] == "C";
      assert forall k :: 0 <= k < |ls| && k != j ==> r[k] == ls[k];
      assert forall x :: x in ls && x != "0" ==> x in r;
      forall x | x in r && x != "C" ensures x in ls {
        var k :| 0 <= k < |r| && r[k] == x;
        assert k != j && ls[k] == x;
      }
      r
  }

  /** The spell page's level list: `C` is appended when some `0` is selected. */
  function SpellerLevels(ls: seq<string>): (r: seq<string>)
    ensures forall x :: x in r <==> x in ls || (x == "C" && "0" in ls)
  {
    ls + (if "0" in ls then ["C"] else [])
  }

  /** The level a selection stands for once `0` is read as a cantrip. */
  function Normalised(v: string): string {
    if v == "0" then "C" else v
  }

  /** The reference rule for the level dimension: some selected level, read with `0` as a
      cantrip, is the card's level. */
  predicate LevelSelected(ls: seq<string>, level: string) {
    exists v :: v in ls && Normalised(v) == level
  }

  /** The two pages build their level lists differently, but for every level a card can
      show (never `0`) both lists select it exactly when the reference rule does. */
  lemma LevelListsAgree(ls: seq<string>, level: string)
    requires level != "0"
    ensures level in DashboardLevels(ls) <==> LevelSelected(ls, level)
    ensures level in SpellerLevels(ls) <==> LevelSelected(ls, level)
  {
    if level == "C" && "0" in ls {
      assert Normalised("0") == level;
    }
    if level in ls {
      assert Normalised(level) == level;
    }
  }

  // ---------------------------------------------------------------------------------------
  // The reference rule over the checkbox groups
  // ---------------------------------------------------------------------------------------

  /** The three spell checkbox groups, each with its own Select-All button. */
  datatype SpellGroup = LevelGroup | SchoolGroup | ClassGroup

  /** Some checked level box stands for `level`: its name without `level`, with `0` read as a
      cantrip. */
  predicate LevelChecked(g: seq<CheckBox>, level: string) {
    exists i :: 0 <= i < |g| && g[i].checked && Normalised(Replace(g[i].name, "level", "")) == level
  }

  /** The level list built from the checked boxes selects exactly the levels some checked box
      stands for. */
  lemma LevelSelectedChecked(g: seq<CheckBox>, level: string)
    ensures LevelSelected(BoxLevels(CheckedNames(g)), level) <==> LevelChecked(g, level)
  {
    var names := CheckedNames(g);
    var ls := BoxLevels(names);
    if LevelSelected(ls, level) {
      var v :| v in ls && Normalised(v) == level;
      var k :| 0 <= k < |ls| && ls[k] == v;
      assert names[k] in names;
      var i :| 0 <= i < |g| && g[i].checked && g[i].name == names[k];
      assert Normalised(Replace(g[i].name, "level", "")) == level;
    }
    if LevelChecked(g, level) {
      var i :| 0 <= i < |g| && g[i].checked && Normalised(Replace(g[i].name, "level", "")) == level;
      assert NameChecked(g, g[i].name);
      var k :| 0 <= k < |names| && names[k] == g[i].name;
      assert ls[k] in ls;
    }
  }

  /** For level boxes named `level<m>`, a spell of level `n` is selected exactly when the box
      for `n` is checked; for `n == 0` this is the cantrip rule, the box `level0` standing for
      the level text `C`. */
  lemma LevelBoxSelects(g: seq<CheckBox>, ms: seq<nat>, n: nat)
    requires |ms| == |g|
    requires forall i :: 0 <= i < |g| ==> g[i].name == "level" + Decimal(ms[i])
    ensures LevelChecked(g, LevelText(n)) <==> exists i :: 0 <= i < |g| && g[i].checked && ms[i] == n
  {
    forall i | 0 <= i < |g|
      ensures Normalised(Replace(g[i].name, "level", "")) == LevelText(n) <==> ms[i] == n
    {
      DropLabel("level", Decimal(ms[i]));
      SameLevelText(ms[i], n);
    }
  }

  /** Two levels are shown alike only when they are the same level. */
  lemma SameLevelText(m: nat, n: nat)
    ensures Normalised(Decimal(m)) == LevelText(n) <==> m == n
  {
    if m > 0 && n > 0 && Decimal(m) == Decimal(n) {
      DecimalRoundTrip(m);
      DecimalRoundTrip(n);
    }
    if m > 0 && n == 0 {
      assert IsDigit(Decimal(m)[0]);
    }
  }

  /** The reference rule for a spell card: a checked level box stands for its level, a checked
      school box names its lower-cased school, and a checked class box names one of its
      lower-cased classes (OR within a group, AND across groups). */
  predicate SpellShown(f: SpellFields, levels: seq<CheckBox>, schools: seq<CheckBox>,
                       classes: seq<CheckBox>)
  {
    LevelChecked(levels, f.level) && NameChecked(schools, f.school) && AnyChecked(classes, f.classes)
  }

  /** Whatever level list a page builds, if it selects exactly the levels the checked boxes
      stand for, the loop's test on the checked names is the reference rule. */
  lemma MatchIsShown(f: SpellFields, levelList: seq<string>, levels: seq<CheckBox>,
                     schools: seq<CheckBox>, classes: seq<CheckBox>)
    requires f.level in levelList <==> LevelSelected(BoxLevels(CheckedNames(levels)), f.level)
    ensures FieldsMatch(f, levelList, CheckedNames(schools), CheckedNames(classes)) <==>
            SpellShown(f, levels, schools, classes)
  {
    LevelSelectedChecked(levels, f.level);
    NonEmptyIff(f.classes, CheckedNames(classes));
    CheckedNamesMeet(classes, f.classes);
  }
}
