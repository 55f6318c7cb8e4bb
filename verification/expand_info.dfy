/** Expanding and shrinking a monster card: the first click on a card fetches the full record
    and appends one paragraph with seven titled sections to the card's info block; the next
    click removes the last paragraph of the info block again. */
module ExpandInfo {
  import opened Optional
  import opened Text
  import opened Dom
  import opened Monsters

  // ---------------------------------------------------------------------------------------
  // The fetched record
  // ---------------------------------------------------------------------------------------

  /** `{ proficiency: { name }, value }`. */
  datatype Proficiency = Proficiency(name: string, value: string)

  /** One `key: value` entry of the `senses` object, in key order. */
  datatype Sense = Sense(key: string, value: string)

  /** `{ name, desc }`: a special ability, an action or a legendary action. */
  datatype Feature = Feature(name: string, desc: string)

  /** The parts of the full monster record that the expansion reads. Condition immunities are
      given by their `index`. */
  datatype MonsterDetail = MonsterDetail(
    index: string,
    vulnerabilities: seq<string>,
    resistances: seq<string>,
    conditionImmunities: seq<string>,
    proficiencies: seq<Proficiency>,
    senses: seq<Sense>,
    specialAbilities: seq<Feature>,
    actions: seq<Feature>,
    legendaryActions: seq<Feature>)

  // ---------------------------------------------------------------------------------------
  // Section bodies
  // ---------------------------------------------------------------------------------------

  const CRLF := "\r\n"

  /** `xs.forEach(entry => acc += '\t' + entry + '\r\n')`. */
  function Accumulate(acc: string, xs: seq<string>): string
    decreases |xs|
  {
    if |xs| == 0 then acc else Accumulate(acc + "\t" + xs[0] + CRLF, xs[1..])
  }

  /** `s.substring(0, s.length - 2)`: a negative end is clamped to 0. */
  function DropLast2(s: string): (r: string)
    ensures |s| >= 2 ==> s == r + s[|s| - 2..]
    ensures |s| < 2 ==> r == ""
  {
    if |s| < 2 then "" else s[..|s| - 2]
  }

  /** A list section body as the page builds it: start from `\r\n`, add a tab-indented line
      per entry, then cut the last two characters. */
  function FormatList(xs: seq<string>): string {
    DropLast2(Accumulate(CRLF, xs))
  }

  /** The reference layout of a list section: every entry on a new line, indented by a tab;
      an empty list gives the empty body. */
  function Listing(xs: seq<string>): (r: string)
    ensures |xs| == 0 <==> r == ""
  {
    if |xs| == 0 then "" else CRLF + "\t" + xs[0] + Listing(xs[1..])
  }

  lemma {:induction false} AccumulateListing(acc: string, xs: seq<string>)
    ensures Accumulate(acc + CRLF, xs) == acc + Listing(xs) + CRLF
    decreases |xs|
  {
    if |xs| > 0 {
      var acc' := acc + CRLF + "\t" + xs[0];
      assert acc + CRLF + "\t" + xs[0] + CRLF == acc' + CRLF;
      AccumulateListing(acc', xs[1..]);
      assert acc' + Listing(xs[1..]) == acc + Listing(xs);
    }
  }

  /** Cutting the last two characters removes exactly the final `\r\n` the loop leaves, so the
      built body is the reference layout. */
  lemma FormatListIsListing(xs: seq<string>)
    ensures FormatList(xs) == Listing(xs)
  {
    var l := Listing(xs);
    AccumulateListing("", xs);
    assert "" + CRLF == CRLF && "" + l == l;
    var a := l + CRLF;
    assert Accumulate(CRLF, xs) == a;
    assert |a| == |l| + 2 && a[..|l|] == l;
  }

  /** The senses body is built without the final cut, so it keeps a trailing `\r\n`. */
  function SensesBody(senses: seq<Sense>): (r: string)
    ensures r == Listing(SenseLines(senses)) + CRLF
  {
    AccumulateListing("", SenseLines(senses));
    assert "" + CRLF == CRLF;
    Accumulate(CRLF, SenseLines(senses))
  }

  function SenseLines(senses: seq<Sense>): (r: seq<string>)
    ensures |r| == |senses|
  {
    seq(|senses|, i requires 0 <= i < |senses| => senses[i].key + ": " + senses[i].value)
  }

  function ProficiencyLines(ps: seq<Proficiency>): (r: seq<string>)
    ensures |r| == |ps|
  {
    seq(|ps|, i requires 0 <= i < |ps| => ps[i].name + " (" + ps[i].value + ")")
  }

  function FeatureLines(fs: seq<Feature>): (r: seq<string>)
    ensures |r| == |fs|
  {
    seq(|fs|, i requires 0 <= i < |fs| => fs[i].name + ": " + fs[i].desc)
  }

  /** Two list layouts are equal only for equal entry lists, provided no entry holds a
      carriage return: the entries can be read back one per line. */
  lemma ListingSplits(xs: seq<string>)
    requires |xs| > 0
    requires forall k :: 0 <= k < |xs| ==> '\r' !in xs[k]
    ensures Split(Listing(xs), CRLF + "\t") == [""] + xs
  {
    ListingIsJoin(xs);
    var ys := [""] + xs;
    forall k | 0 <= k < |ys| ensures (CRLF + "\t")[0] !in ys[k] {
      if k > 0 {
        assert ys[k] == xs[k - 1];
      }
    }
    SplitJoin(ys, CRLF + "\t");
  }

  /** Each entry of a listing is preceded by the separator. */
  lemma {:induction false} ListingIsSepJoin(xs: seq<string>)
    requires |xs| > 0
    ensures Listing(xs) == CRLF + "\t" + Join(xs, CRLF + "\t")
    decreases |xs|
  {
    var sep := CRLF + "\t";
    var rest := Listing(xs[1..]);
    assert Listing(xs) == sep + xs[0] + rest;
    if |xs| == 1 {
      assert rest == "";
    } else {
      ListingIsSepJoin(xs[1..]);
      var j := Join(xs[1..], sep);
      assert rest == sep + j;
      assert Join(xs, sep) == xs[0] + sep + j;
      assert sep + xs[0] + (sep + j) == sep + (xs[0] + sep + j);
    }
  }

  lemma ListingIsJoin(xs: seq<string>)
    requires |xs| > 0
    ensures Listing(xs) == Join([""] + xs, CRLF + "\t")
  {
    var sep := CRLF + "\t";
    ListingIsSepJoin(xs);
    var ys := [""] + xs;
    assert ys[1..] == xs;
    assert Join(ys, sep) == "" + sep + Join(xs, sep);
  }

  // ---------------------------------------------------------------------------------------
  // The expansion paragraph
  // ---------------------------------------------------------------------------------------

  /** The section titles in the order the paragraph lists them. */
  const HEADINGS: seq<string> := ["Vulnerabilities", "Damage Resistances", "Condition Immunities",
                                  "Proficiencies", "Senses", "Special Abilities",
                                  "Legendary Actions"]

  /** The opening of the first section: its title and a colon. */
  function Lead(title: string): string {
    title + ": "
  }

  /** The opening of every later section: a blank line, its title and a colon. */
  function Intro(title: string): string {
    "\r\n\r\n" + title + ": "
  }

  /** The text of the appended paragraph, built piece by piece as `processExpandMonInfo`
      does. The actions list is built by the page but never added to the paragraph. */
  function ExpandText(d: MonsterDetail): string {
    Lead("Vulnerabilities") + FormatList(d.vulnerabilities) +
    Intro("Damage Resistances") + FormatList(d.resistances) +
    Intro("Condition Immunities") + FormatList(d.conditionImmunities) +
    Intro("Proficiencies") + FormatList(ProficiencyLines(d.proficiencies)) +
    Intro("Senses") + SensesBody(d.senses) +
    Intro("Special Abilities") + FormatList(FeatureLines(d.specialAbilities)) +
    Intro("Legendary Actions") + FormatList(FeatureLines(d.legendaryActions))
  }

  /** The reference bodies of the seven sections, in `HEADINGS` order. */
  function Bodies(d: MonsterDetail): (r: seq<string>)
    ensures |r| == |HEADINGS|
  {
    [Listing(d.vulnerabilities), Listing(d.resistances), Listing(d.conditionImmunities),
     Listing(ProficiencyLines(d.proficiencies)), Listing(SenseLines(d.senses)) + CRLF,
     Listing(FeatureLines(d.specialAbilities)), Listing(FeatureLines(d.legendaryActions))]
  }

  /** `title: body` for each section. */
  function Titled(titles: seq<string>, bodies: seq<string>): (r: seq<string>)
    requires |titles| == |bodies|
    ensures |r| == |titles|
    ensures forall i :: 0 <= i < |r| ==> r[i] == titles[i] + ": " + bodies[i]
  {
    seq(|titles|, i requires 0 <= i < |titles| => titles[i] + ": " + bodies[i])
  }

  /** The page's concatenation of seven section bodies, one `+=` per section; the
      intermediate texts after two, four and six sections are named. */
  function Concatenated(b: seq<string>): string
    requires |b| == 7
  {
    FirstSix(b) + Intro("Legendary Actions") + b[6]
  }

  function FirstSix(b: seq<string>): string
    requires |b| == 7
  {
    FirstFour(b) + Intro("Senses") + b[4] + Intro("Special Abilities") + b[5]
  }

  function FirstFour(b: seq<string>): string
    requires |b| == 7
  {
    FirstTwo(b) + Intro("Condition Immunities") + b[2] + Intro("Proficiencies") + b[3]
  }

  function FirstTwo(b: seq<string>): string
    requires |b| == 7
  {
    Lead("Vulnerabilities") + b[0] + Intro("Damage Resistances") + b[1]
  }

  /** Joining peels off the last element as well as the first. */
  lemma {:induction false} JoinSnoc(t: seq<string>, sep: string)
    requires |t| >= 2
    ensures Join(t, sep) == Join(t[..|t| - 1], sep) + sep + t[|t| - 1]
    decreases |t|
  {
    var n := |t|;
    if n > 2 {
      JoinSnoc(t[1..], sep);
      assert t[1..][..n - 2] == t[..n - 1][1..];
      var mid := Join(t[1..][..n - 2], sep);
      assert Join(t[..n - 1], sep) == t[0] + sep + mid;
      assert Join(t, sep) == t[0] + sep + (mid + sep + t[n - 1]);
    } else {
      assert t[1..] == [t[1]];
    }
  }

  /** One `+= '\r\n\r\n<title>: ' + body` step extends the join of the sections so far. */
  lemma ConcatStep(t: seq<string>, k: nat, p: string, title: string, body: string)
    requires 1 <= k < |t|
    requires p == Join(t[..k], "\r\n\r\n") && t[k] == title + ": " + body
    ensures p + Intro(title) + body == Join(t[..k + 1], "\r\n\r\n")
  {
    JoinSnoc(t[..k + 1], "\r\n\r\n");
    assert t[..k + 1][..k] == t[..k];
  }

  lemma FirstTwoIsJoin(b: seq<string>)
    requires |b| == 7
    ensures FirstTwo(b) == Join(Titled(HEADINGS, b)[..2], "\r\n\r\n")
  {
    var t := Titled(HEADINGS, b);
    var p0 := Lead("Vulnerabilities") + b[0];
    assert p0 == Join(t[..1], "\r\n\r\n");
    var p1 := p0 + Intro("Damage Resistances") + b[1];
    assert p1 == Join(t[..2], "\r\n\r\n") by {
      assert Intro(HEADINGS[1]) == Intro("Damage Resistances");
      ConcatStep(t, 1, p0, HEADINGS[1], b[1]);
    }
  }

  lemma FirstFourIsJoin(b: seq<string>)
    requires |b| == 7
    ensures FirstFour(b) == Join(Titled(HEADINGS, b)[..4], "\r\n\r\n")
  {
    var t := Titled(HEADINGS, b);
    var p1 := FirstTwo(b);
    FirstTwoIsJoin(b);
    var p2 := p1 + Intro("Condition Immunities") + b[2];
    assert p2 == Join(t[..3], "\r\n\r\n") by {
      assert Intro(HEADINGS[2]) == Intro("Condition Immunities");
      ConcatStep(t, 2, p1, HEADINGS[2], b[2]);
    }
    var p3 := p2 + Intro("Proficiencies") + b[3];
    assert p3 == Join(t[..4], "\r\n\r\n") by {
      assert Intro(HEADINGS[3]) == Intro("Proficiencies");
      ConcatStep(t, 3, p2, HEADINGS[3], b[3]);
    }
    assert FirstFour(b) == p3;
  }

  lemma FirstSixIsJoin(b: seq<string>)
    requires |b| == 7
    ensures FirstSix(b) == Join(Titled(HEADINGS, b)[..6], "\r\n\r\n")
  {
    var t := Titled(HEADINGS, b);
    var p3 := FirstFour(b);
    FirstFourIsJoin(b);
    var p4 := p3 + Intro("Senses") + b[4];
    assert p4 == Join(t[..5], "\r\n\r\n") by {
      assert Intro(HEADINGS[4]) == Intro("Senses");
      ConcatStep(t, 4, p3, HEADINGS[4], b[4]);
    }
    var p5 := p4 + Intro("Special Abilities") + b[5];
    assert p5 == Join(t[..6], "\r\n\r\n") by {
      assert Intro(HEADINGS[5]) == Intro("Special Abilities");
      ConcatStep(t, 5, p4, HEADINGS[5], b[5]);
    }
  }

  lemma ConcatenatedIsJoin(b: seq<string>)
    requires |b| == 7
    ensures Concatenated(b) == Join(Titled(HEADINGS, b), "\r\n\r\n")
  {
    var t := Titled(HEADINGS, b);
    var p5 := FirstSix(b);
    FirstSixIsJoin(b);
    var p6 := p5 + Intro("Legendary Actions") + b[6];
    assert p6 == Join(t[..7], "\r\n\r\n") by {
      assert Intro(HEADINGS[6]) == Intro("Legendary Actions");
      ConcatStep(t, 6, p5, HEADINGS[6], b[6]);
    }
    assert t[..7] == t;
  }

  /** The paragraph is the seven titled sections in order, separated by blank lines; each list
      section holds its entries one per tab-indented line, and the senses section alone ends
      with a line break. */
  lemma ExpandTextLayout(d: MonsterDetail)
    ensures ExpandText(d) == Join(Titled(HEADINGS, Bodies(d)), "\r\n\r\n")
  {
    FormatListIsListing(d.vulnerabilities);
    FormatListIsListing(d.resistances);
    FormatListIsListing(d.conditionImmunities);
    FormatListIsListing(ProficiencyLines(d.proficiencies));
    FormatListIsListing(FeatureLines(d.specialAbilities));
    FormatListIsListing(FeatureLines(d.legendaryActions));
    assert ExpandText(d) == Concatenated(Bodies(d));
    ConcatenatedIsJoin(Bodies(d));
  }

  /** The actions list does not reach the page: records that differ only in their actions
      expand to the same text. */
  lemma ExpandIgnoresActions(d: MonsterDetail, actions: seq<Feature>)
    ensures ExpandText(d.(actions := actions)) == ExpandText(d)
  {
  }

  // ---------------------------------------------------------------------------------------
  // Clicking a card
  // ---------------------------------------------------------------------------------------

  /** Which handler a card's click listener runs. */
  datatype Listener = ExpandOnClick | ShrinkOnClick

  /** A monster card on the page with its current click listener. */
  datatype CardState = CardState(card: Card, listener: Listener)

  /** `id(x)`: the first card in document order whose id is `x`. */
  function FindById(page: seq<CardState>, x: string): (r: Option<nat>)
    ensures r.Some? ==> r.value < |page| && page[r.value].card.id == x
    ensures r.Some? ==> forall j :: 0 <= j < r.value ==> page[j].card.id != x
    ensures r.None? ==> forall j :: 0 <= j < |page| ==> page[j].card.id != x
  {
    if |page| == 0 then None
    else if page[0].card.id == x then Some(0)
    else match FindById(page[1..], x)
      case None => None
      case Some(k) => Some(k + 1)
  }

  /** Appending a paragraph to the end of a card's info block. */
  function AppendInfo(c: Card, text: string): (r: Card)
    ensures r.info == c.info + [text]
    ensures r.id == c.id && r.heading == c.heading && r.classes == c.classes
  {
    c.(info := c.info + [text])
  }

  /** `processExpandMonInfo(data)`: the card whose id is the record's index gets the
      expansion paragraph and switches its listener to shrinking; `None` when no card has
      that id (`qs` on `null` throws). Every other card is unchanged. */
  function ProcessExpand(page: seq<CardState>, d: MonsterDetail): (r: Option<seq<CardState>>)
    ensures r.Some? <==> FindById(page, d.index).Some?
    ensures r.Some? ==> |r.value| == |page|
    ensures r.Some? ==>
      var j := FindById(page, d.index).value;
      && r.value[j].card == page[j].card.(info := page[j].card.info + [ExpandText(d)])
      && r.value[j].card.id == d.index
      && r.value[j].listener == ShrinkOnClick
      && forall i :: 0 <= i < |page| && i != j ==> r.value[i] == page[i]
  {
    match FindById(page, d.index)
    case None => None
    case Some(j) => Some(page[j := CardState(AppendInfo(page[j].card, ExpandText(d)), ShrinkOnClick)])
  }

  /** `shrinkMonInfo` on card `i`: remove the last paragraph of the info block and switch the
      listener back to expanding; `None` when the info block has no paragraph left (`null`
      has no `remove`). */
  function Shrink(page: seq<CardState>, i: nat): (r: Option<seq<CardState>>)
    requires i < |page|
    ensures r.Some? <==> |page[i].card.info| > 0
    ensures r.Some? ==>
      && |r.value| == |page|
      && r.value[i].card == page[i].card.(info := page[i].card.info[..|page[i].card.info| - 1])
      && r.value[i].listener == ExpandOnClick
      && forall j :: 0 <= j < |page| && j != i ==> r.value[j] == page[j]
  {
    var c := page[i].card;
    if |c.info| == 0 then None
    else Some(page[i := CardState(c.(info := c.info[..|c.info| - 1]), ExpandOnClick)])
  }

  /** Expanding a compact card and then shrinking it gives the page back. */
  lemma ExpandThenShrink(page: seq<CardState>, d: MonsterDetail)
    requires FindById(page, d.index).Some?
    requires page[FindById(page, d.index).value].listener == ExpandOnClick
    ensures var j := FindById(page, d.index).value;
      Shrink(ProcessExpand(page, d).value, j) == Some(page)
  {
    var j := FindById(page, d.index).value;
    var c := page[j].card;
    var expanded := ProcessExpand(page, d).value;
    assert (c.info + [ExpandText(d)])[..|c.info|] == c.info;
    assert expanded[j].card.(info := c.info) == c;
    var back := Shrink(expanded, j).value;
    assert back[j] == page[j];
    forall i | 0 <= i < |page| ensures back[i] == page[i] {
      if i != j {
        assert back[i] == expanded[i];
      }
    }
    assert back == page;
  }

  /** The expansion never changes what the filter pass sees: the class list and the first
      info paragraph, hence the card's CR, stay as they were. */
  lemma ExpandKeepsFilterInput(page: seq<CardState>, d: MonsterDetail)
    requires FindById(page, d.index).Some?
    requires |page[FindById(page, d.index).value].card.info| > 0
    ensures var j := FindById(page, d.index).value;
      var c, c' := page[j].card, ProcessExpand(page, d).value[j].card;
      c'.classes == c.classes && CardCR(c') == CardCR(c) && Hidden(c') == Hidden(c)
  {
    var j := FindById(page, d.index).value;
    var c := page[j].card;
    var c' := ProcessExpand(page, d).value[j].card;
    assert c'.info[0] == c.info[0];
    SameFirstParagraph(c, c');
  }
}
