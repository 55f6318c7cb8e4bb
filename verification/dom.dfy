/** The parts of the page's DOM that the filter logic reads and writes, as plain values:
    a card's class list (a `DOMTokenList`), the paragraphs of its info block, the checkbox
    groups of the filter panel, and the label of a group's Select/Deselect-All button. */
module Dom {

  // ---------------------------------------------------------------------------------------
  // Class lists
  // ---------------------------------------------------------------------------------------

  /** The class `applyMonFilters`/`applySpellFilters` toggle to hide a card. */
  const HIDDEN := "hidden"

  /** The ASCII whitespace characters a `DOMTokenList` refuses inside a token. */
  predicate IsAsciiWhitespace(c: char) {
    c == ' ' || c == '\t' || c == '\n' || c == '\r' || c == 12 as char
  }

  /** A token `classList.add` accepts: it throws for the empty string and for a token that
      holds ASCII whitespace. */
  predicate ValidToken(t: string) {
    |t| > 0 && forall i :: 0 <= i < |t| ==> !IsAsciiWhitespace(t[i])
  }

  predicate NoDuplicates(ts: seq<string>) {
    forall i, j :: 0 <= i < j < |ts| ==> ts[i] != ts[j]
  }

  /** `classList.add(t)`: appends `t` unless it is already present. */
  function AddToken(ts: seq<string>, t: string): (r: seq<string>)
    ensures forall u :: u in r <==> u in ts || u == t
    ensures NoDuplicates(ts) ==> NoDuplicates(r)
    ensures t in ts ==> r == ts
  {
    if t in ts then ts else ts + [t]
  }

  /** `classList.add(t1, t2, ...)` once every token has been accepted. */
  function AddTokens(ts: seq<string>, added: seq<string>): (r: seq<string>)
    ensures forall u :: u in r <==> u in ts || u in added
    ensures NoDuplicates(ts) ==> NoDuplicates(r)
    decreases |added|
  {
    if |added| == 0 then ts else AddTokens(AddToken(ts, added[0]), added[1..])
  }

  /** Adding distinct tokens that are not yet present appends them in order. */
  lemma {:induction false} AddTokensFresh(ts: seq<string>, added: seq<string>)
    requires NoDuplicates(ts + added)
    ensures AddTokens(ts, added) == ts + added
    decreases |added|
  {
    if |added| > 0 {
      var ts' := ts + [added[0]];
      forall i | 0 <= i < |ts| ensures ts[i] != added[0] {
        assert (ts + added)[i] == ts[i] && (ts + added)[|ts|] == added[0];
      }
      assert ts' + added[1..] == ts + added;
      AddTokensFresh(ts', added[1..]);
    }
  }

  /** `classList.remove(t)`. */
  function RemoveToken(ts: seq<string>, t: string): (r: seq<string>)
    ensures forall u :: u in r <==> u in ts && u != t
    ensures t !in ts ==> r == ts
  {
    if |ts| == 0 then []
    else if ts[0] == t then RemoveToken(ts[1..], t)
    else [ts[0]] + RemoveToken(ts[1..], t)
  }

  // ---------------------------------------------------------------------------------------
  // Cards
  // ---------------------------------------------------------------------------------------

  /** A rendered card: its element id, the heading paragraph above its info block, its class
      list, and the text of each paragraph of its info block (`.card-info` or `.spell-info`),
      in document order. */
  datatype Card = Card(id: string, heading: string, classes: seq<string>, info: seq<string>)

  predicate Hidden(c: Card) {
    HIDDEN in c.classes
  }

  /** Two cards differ at most in the `hidden` class. */
  predicate SameButHidden(a: Card, b: Card) {
    && a.id == b.id && a.heading == b.heading && a.info == b.info
    && (forall u :: u in a.classes && u != HIDDEN ==> u in b.classes)
    && (forall u :: u in b.classes && u != HIDDEN ==> u in a.classes)
  }

  /** `card.classList.add('hidden')` or `card.classList.remove('hidden')`. */
  function SetHidden(c: Card, toHide: bool): (r: Card)
    ensures Hidden(r) == toHide
    ensures SameButHidden(r, c)
    ensures Hidden(c) == toHide ==> r == c
  {
    if toHide then c.(classes := AddToken(c.classes, HIDDEN))
    else c.(classes := RemoveToken(c.classes, HIDDEN))
  }

  // ---------------------------------------------------------------------------------------
  // Checkbox groups
  // ---------------------------------------------------------------------------------------

  /** One filter checkbox: its `name` attribute (the filter vocabulary) and its state. */
  datatype CheckBox = CheckBox(name: string, checked: bool)

  /** Some checked box of `g` has the name `n`. */
  predicate NameChecked(g: seq<CheckBox>, n: string) {
    exists i :: 0 <= i < |g| && g[i].checked && g[i].name == n
  }

  /** How a group's properties split between its first box and the rest. */
  lemma GroupStep(g: seq<CheckBox>)
    requires |g| > 0
    ensures forall n :: NameChecked(g, n) <==> (g[0].checked && g[0].name == n) || NameChecked(g[1..], n)
    ensures (forall i :: 0 <= i < |g| ==> g[i].checked) <==> g[0].checked && (forall i :: 0 <= i < |g| - 1 ==> g[1..][i].checked)
    ensures (forall i :: 0 <= i < |g| ==> !g[i].checked) <==> !g[0].checked && (forall i :: 0 <= i < |g| - 1 ==> !g[1..][i].checked)
  {
    assert forall i :: 1 <= i < |g| ==> g[i] == g[1..][i - 1];
    forall n ensures NameChecked(g, n) <==> (g[0].checked && g[0].name == n) || NameChecked(g[1..], n) {
      if NameChecked(g[1..], n) {
        var i :| 0 <= i < |g| - 1 && g[1..][i].checked && g[1..][i].name == n;
        assert g[i + 1] == g[1..][i];
      }
    }
  }

  /** `qsa('#... input:checked').forEach(option => names.push(option.name))`: the names of the
      checked boxes, in document order. */
  function CheckedNames(g: seq<CheckBox>): (r: seq<string>)
    ensures forall n :: n in r <==> NameChecked(g, n)
    ensures |r| == 0 <==> forall i :: 0 <= i < |g| ==> !g[i].checked
    ensures |r| == |g| <==> forall i :: 0 <= i < |g| ==> g[i].checked
    ensures |r| <= |g|
  {
    if |g| == 0 then []
    else
      var rest := CheckedNames(g[1..]);
      GroupStep(g);
      if g[0].checked then [g[0].name] + rest else rest
  }

  /** Some checked box of `g` names one of `xs`: the reference reading of "the card matches
      this filter dimension" (OR within the dimension). */
  predicate AnyChecked(g: seq<CheckBox>, xs: seq<string>) {
    exists i :: 0 <= i < |g| && g[i].checked && g[i].name in xs
  }

  /** The checked names meet `xs` exactly when some checked box names an element of `xs`. */
  lemma CheckedNamesMeet(g: seq<CheckBox>, xs: seq<string>)
    ensures (exists n :: n in CheckedNames(g) && n in xs) <==> AnyChecked(g, xs)
  {
    if AnyChecked(g, xs) {
      var i :| 0 <= i < |g| && g[i].checked && g[i].name in xs;
      assert NameChecked(g, g[i].name);
    }
  }

  /** `qsa(selector).forEach(box => box.checked = v)`: every box of the group gets state `v`,
      and the group keeps its boxes and their order. */
  function SetAll(g: seq<CheckBox>, v: bool): (r: seq<CheckBox>)
    ensures |r| == |g|
    ensures forall i :: 0 <= i < |g| ==> r[i].name == g[i].name && r[i].checked == v
  {
    seq(|g|, i requires 0 <= i < |g| => g[i].(checked := v))
  }

  // ---------------------------------------------------------------------------------------
  // Select/Deselect-All label
  // ---------------------------------------------------------------------------------------

  const SELECT_ALL := "Select All"
  const DESELECT_ALL := "Deselect All"

  /** The label of a group's button after a filter pass: the checked count is compared with
      the group size first (so an empty group reads "Deselect All"), then with zero; a partial
      selection leaves the label as it was. */
  function NextLabel(current: string, g: seq<CheckBox>): (r: string)
    ensures (forall i :: 0 <= i < |g| ==> g[i].checked) ==> r == DESELECT_ALL
    ensures |g| > 0 && (forall i :: 0 <= i < |g| ==> !g[i].checked) ==> r == SELECT_ALL
    ensures ((exists i :: 0 <= i < |g| && g[i].checked) &&
             (exists j :: 0 <= j < |g| && !g[j].checked)) ==> r == current
  {
    var checked := |CheckedNames(g)|;
    if checked == |g| then DESELECT_ALL
    else if checked == 0 then SELECT_ALL
    else current
  }

  /** After a Select-All every box is checked and the label reads "Deselect All"; after a
      Deselect-All of a non-empty group it reads "Select All". */
  lemma SetAllLabel(current: string, g: seq<CheckBox>, v: bool)
    ensures v ==> NextLabel(current, SetAll(g, v)) == DESELECT_ALL
    ensures !v && |g| > 0 ==> NextLabel(current, SetAll(g, v)) == SELECT_ALL
  {
    var r := SetAll(g, v);
    assert forall i :: 0 <= i < |r| ==> r[i].checked == v;
  }
}
