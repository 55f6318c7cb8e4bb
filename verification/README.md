# Page logic of the D&D helper pages, in Dafny

This project models the decision logic of three browser scripts of a personal web site:

- the DM Dashboard (`dmdashboard.js`):
  - the monster and spell lookups;
  - the expanding monster cards;
  - the two view switchers;
- the stand-alone spell page (`dndspeller.js`);
- the landing page's view switcher (`index.js`).

The DOM is replaced by plain values:

- A card is a record of its id, heading, class list and info paragraphs.
- A checkbox group is a sequence of `(name, checked)` boxes.
- A view switcher is a map from element id to its `hidden` flag.

The JavaScript string operations the pages rely on are written out in `Text`:

- `replace` replaces only the first occurrence.
- `split` on `""` gives `[""]`.
- `String(array)` joins with a comma.
- `/CR: (\d+)/` takes the leftmost match and its greedy digit run.
- `toLowerCase` works on ASCII letters.

`classList.add` and `classList.remove` are modelled in `Dom`. `add` does not duplicate a token, and the monster cards' `add` refuses empty tokens and tokens with whitespace. `remove` drops every copy of its token.

A filter pass in the pages is a `forEach` over the cards whose body throws when a card cannot be read. Two reads can fail:

- the monster CR expression does not match;
- a spell card has fewer than three info paragraphs.

The exception ends the loop, so every card before the first unreadable one is updated and that card and the rest keep their state. `CardFilter.FilterPass` models this once for any per-card decision. Both lookups and the spell page are instances of it.

Modules, one per concern:

- `Optional`: the option type.
- `Text`: decimal text, lower case, index, replace, split and join.
- `Dom`: class lists, cards, checkbox groups, the Select/Deselect-All label.
- `Intersection`: the `intersection` helper.
- `Views`, `Landing`, `DashboardViews`: view switching.
- `CardFilter`: the filter loop.
- `Monsters`: monster cards, CR reading, `applyMonFilters`, `switchMonCheckBoxes`.
- `ExpandInfo`: `processExpandMonInfo`'s text and the expand/shrink pair.
- `Spells`: spell card text, reading it back, the per-card decision, the level lists.
- `DashboardSpells`: `applySpellFilters`, `switchSpellCheckBoxes`.
- `Speller`: the spell page's `applyFilters` and `fillCheckBoxes`.

Behaviours of the code worth knowing:

- A monster type of two or three words makes `addMonCard` throw, so the card is never appended. The guard is `monType.length > 1`, but words 3 and 4 (`monType[2]`, `monType[3]`) are then read. For two words, `monType[2].toLowerCase()` throws; for three words, `monType[3]` is undefined.
- Switching to a name that is not in the view list hides every view, so none is visible.
- The actions list of a monster is built but never added to the expansion paragraph.
- The level and school dimensions of the spell filter use `includes`; only the class dimension uses `intersection`.
- The two spell pages build different level lists:
  - the dashboard replaces the first `0` with `C`;
  - the spell page keeps it and appends `C`.

  `Speller.SameAsDashboard` proves that the two pages still hide and show the same cards.

## Model

| member | source | states |
|---|---|---|
| Text.Decimal | public_html/nc_assets/scripts/dmdashboard.js:243 | a number's text is a non-empty digit string with no leading zero, and it is `0` exactly for zero |
| Text.DecimalRoundTrip | public_html/nc_assets/scripts/dmdashboard.js:509 | reading a number's text back as a number (the numeric comparison of the captured CR) gives the number |
| Text.DigitRunOfDigits | public_html/nc_assets/scripts/dmdashboard.js:38 | the greedy `\d+` run over a digit string followed by a non-digit is exactly that digit string |
| Text.Lower | public_html/nc_assets/scripts/dmdashboard.js:205 | `toLowerCase` keeps the length and maps every character through the ASCII lower-case map |
| Text.IndexOf | public_html/nc_assets/scripts/dmdashboard.js:631-637 | the string search behind `replace` and `split` finds an occurrence with no earlier one, and reports none only when the pattern does not occur |
| Text.IndexOfAfterPrefix | public_html/nc_assets/scripts/dmdashboard.js:637 | the first separator in `x + sep + y` is right after `x` when `x` lacks the separator's first character |
| Text.Replace | public_html/nc_assets/scripts/dmdashboard.js:631 | `replace` with a string pattern replaces the first occurrence only, wherever it is, and leaves a string without the pattern unchanged |
| Text.Split | public_html/nc_assets/scripts/dmdashboard.js:637 | `split` always yields at least one piece, no piece contains the separator, and joining the pieces with the separator gives the input back |
| Text.SplitJoin | public_html/nc_assets/scripts/dmdashboard.js:637 | splitting the join of pieces that lack the separator's first character gives the pieces back |
| Text.CommaListText | public_html/nc_assets/scripts/dmdashboard.js:335 | `String(names).replaceAll(',', ', ')` is the names joined with `, ` when no name holds a comma |
| Dom.AddToken | public_html/nc_assets/scripts/dmdashboard.js:514 | `classList.add` adds the token once: membership grows by exactly the token and no duplicate appears |
| Dom.AddTokens | public_html/nc_assets/scripts/dmdashboard.js:205 | adding several tokens yields exactly the old and the added tokens, without duplicates |
| Dom.AddTokensFresh | public_html/nc_assets/scripts/dmdashboard.js:205 | distinct tokens not yet present are appended in the order given |
| Dom.RemoveToken | public_html/nc_assets/scripts/dmdashboard.js:512 | `classList.remove` drops exactly that token and keeps every other one |
| Dom.SetHidden | public_html/nc_assets/scripts/dmdashboard.js:511-515 | after the toggle the card is hidden exactly as asked, nothing else about it changes, and a card already in that state is left as it is |
| Dom.CheckedNames | public_html/nc_assets/scripts/dmdashboard.js:464-466 | the collected names are exactly the names of checked boxes; none are collected iff no box is checked, all iff every box is |
| Dom.CheckedNamesMeet | public_html/nc_assets/scripts/dmdashboard.js:507-508 | the collected names meet a list iff some checked box names an element of it (OR within a dimension) |
| Dom.SetAll | public_html/nc_assets/scripts/dmdashboard.js:537 | every box of the group gets the given state and keeps its name and position |
| Dom.NextLabel | public_html/nc_assets/scripts/dmdashboard.js:468-479 | the label reads "Deselect All" when every box is checked, "Select All" when none of a non-empty group is, and is unchanged for a partial selection |
| Dom.SetAllLabel | public_html/nc_assets/scripts/dmdashboard.js:537-538 | after checking a whole group the label reads "Deselect All"; after clearing a non-empty group it reads "Select All" |
| Intersection.Intersect | public_html/nc_assets/scripts/dmdashboard.js:670-678 | the result is a subsequence of `snd` holding each element of `snd` found in `fst`, with `snd`'s multiplicities |
| Intersection.NonEmptyIff | public_html/nc_assets/scripts/dmdashboard.js:670-678 | the intersection is non-empty iff some element of `snd` occurs in `fst` |
| Intersection.NonEmptySymmetric | public_html/nc_assets/scripts/dndspeller.js:148-156 | whether the intersection is empty does not depend on the order of the arguments |
| Intersection.AllKept | public_html/nc_assets/scripts/dmdashboard.js:670-678 | when every element of `snd` is in `fst`, the intersection is `snd` itself |
| Views.ShowOnly | public_html/nc_assets/scripts/dmdashboard.js:124-131 | walking the view list shows the target, hides every other listed view and leaves all other elements alone |
| Views.ExactlyTarget | public_html/nc_assets/scripts/dmdashboard.js:123-132 | after a switch exactly the target is visible among the listed views, or none when the target is not listed |
| Views.ShowOnlyIdempotent | public_html/nc_assets/scripts/dmdashboard.js:123-132 | switching to the same view twice is the same as switching once |
| Views.ShowOnlyForgetsHistory | public_html/nc_assets/scripts/dmdashboard.js:123-132 | the result of a switch does not depend on which listed view was visible before |
| Landing.ViewIdInjective | public_html/nc_assets/scripts/index.js:27-30 | two view names give the same `-view` id only when they are the same name |
| Landing.ShowView | public_html/nc_assets/scripts/index.js:25-33 | `showView` un-hides the named view's section, hides every other known view, and leaves all other elements alone |
| Landing.GoToHome | public_html/nc_assets/scripts/index.js:15-17 | the home link leaves only the home section visible, and every other element keeps its state |
| Landing.GoToAbout | public_html/nc_assets/scripts/index.js:18-20 | the about link leaves only the about section visible, and every other element keeps its state |
| Landing.GoToResume | public_html/nc_assets/scripts/index.js:21-23 | the resume link leaves only the resume section visible, and every other element keeps its state |
| Landing.ShowViewExactlyOne | public_html/nc_assets/scripts/index.js:25-33 | after `showView` with a known view exactly one section is visible, that view's; with an unknown name none is |
| Landing.ShowViewIdempotent | public_html/nc_assets/scripts/index.js:25-33 | `showView` applied twice equals `showView` applied once |
| DashboardViews.SpanTarget | public_html/nc_assets/scripts/dmdashboard.js:124 | a span id `go-to-<name>` stands for the view `<name>-view` |
| DashboardViews.GoToView | public_html/nc_assets/scripts/dmdashboard.js:123-132 | the named page view becomes the only visible page view (none if it names none); the lookup views and everything else keep their state |
| DashboardViews.GoToNamedView | public_html/nc_assets/scripts/dmdashboard.js:123-132 | the span `go-to-<name>` shows exactly `<name>-view` when that is a page view |
| DashboardViews.ChangeLookupView | public_html/nc_assets/scripts/dmdashboard.js:357-366 | the selected lookup view becomes the only visible lookup view (none for an unknown value); page views keep their state |
| DashboardViews.ViewListsDisjoint | public_html/nc_assets/scripts/dmdashboard.js:36-37 | no id is both a page view and a lookup view |
| DashboardViews.GoToViewKeepsLookup | public_html/nc_assets/scripts/dmdashboard.js:123-132 | switching the page view leaves the visible lookup view unchanged |
| DashboardViews.ChangeLookupViewKeepsPage | public_html/nc_assets/scripts/dmdashboard.js:357-366 | switching the lookup view leaves the visible page view unchanged |
| CardFilter.Prefix | public_html/nc_assets/scripts/dmdashboard.js:503-505 | a `forEach` that throws at the first card failing a read reaches exactly the leading cards that pass it |
| CardFilter.PrefixUnique | public_html/nc_assets/scripts/dmdashboard.js:503-505 | that reach is the only count with those two properties |
| CardFilter.Decided | public_html/nc_assets/scripts/dmdashboard.js:503-505 | the loop gets through exactly the leading cards it can read and stops at the first one it cannot |
| CardFilter.FilterPass | public_html/nc_assets/scripts/dmdashboard.js:503-516 | every card the loop reaches is hidden iff its decision is false; cards from the first unreadable one on are untouched; only `hidden` changes |
| CardFilter.FilterPassIdempotent | public_html/nc_assets/scripts/dmdashboard.js:503-516 | a second pass with a decision that does not read the `hidden` class changes nothing |
| CardFilter.FilterPassAgrees | public_html/nc_assets/scripts/dndspeller.js:120-138 | two per-card decisions that agree on every card give the same pass |
| Monsters.ClassesFor | public_html/nc_assets/scripts/dmdashboard.js:204-213 | a card is created iff the type has one or at least four words and every token is valid; it then carries `mon-card`, `hidden`, the first type word, the lower-cased size and, for long types, the lower-cased third word and the fourth word minus its last letter, nothing else and no duplicate |
| Monsters.SingleWordClasses | public_html/nc_assets/scripts/dmdashboard.js:204-205 | a one-word type gives exactly the classes `mon-card`, `hidden`, the type and the lower-cased size, when they are valid tokens |
| Monsters.MultiWordClasses | public_html/nc_assets/scripts/dmdashboard.js:207-213 | a type such as "swarm of Tiny beasts" also gives `tiny` and `beast`, so the `beast` box selects swarms of beasts |
| Monsters.ShortTypeRejected | public_html/nc_assets/scripts/dmdashboard.js:208-212 | a two- or three-word type makes the page throw before the card is appended |
| Monsters.FindCR | public_html/nc_assets/scripts/dmdashboard.js:38 | the expression matches iff some `CR: ` is followed by a digit; the capture is then the greedy digit run after the leftmost such `CR: `, a non-empty digit string |
| Monsters.FindCRSkip | public_html/nc_assets/scripts/dmdashboard.js:38 | a prefix without the letter `C` holds no match, so the search result is that of the text after it |
| Monsters.CaptureAtStart | public_html/nc_assets/scripts/dmdashboard.js:38 | `CR: ` followed by digits and a non-digit captures exactly those digits |
| Monsters.StatLineCR | public_html/nc_assets/scripts/dmdashboard.js:242-244 | the CR read back from a rendered stat line is the whole part of the rating, so `0.25` is read as `0` |
| Monsters.MonCard | public_html/nc_assets/scripts/dmdashboard.js:202-230 | a card is created iff its class tokens are accepted; it is hidden, has the record's index as id, the classes `addMonCard` computes, the heading of name, lower-cased size and type and alignment, and the stat, speed and ability paragraphs, and its CR reads back as the whole part of the record's rating |
| Monsters.RecordDecision | public_html/nc_assets/scripts/dmdashboard.js:503-509 | for the card built from a record, the loop decides on the record: a selected size and a selected type among its classes, and the whole part of its rating within the bounds |
| Monsters.SelectedRecordShown | public_html/nc_assets/scripts/dmdashboard.js:503-515 | selecting a monster's lower-cased size and the first word of its type, with its rating in range, shows its card |
| Monsters.Readable | public_html/nc_assets/scripts/dmdashboard.js:503-505 | the monster loop reaches exactly the leading cards whose first info paragraph holds a CR |
| Monsters.FilterMonCards | public_html/nc_assets/scripts/dmdashboard.js:503-516 | a reached card is shown iff its classes meet the sizes and the types and its CR is within both bounds; unreached cards are untouched |
| Monsters.IntersectTest | public_html/nc_assets/scripts/dmdashboard.js:507-509 | the page's non-empty-intersection test is "some checked name is one of the card's classes" |
| Monsters.ApplyMonFilters | public_html/nc_assets/scripts/dmdashboard.js:462-517 | both labels follow the label rule, and each reached card is shown iff a checked size box and a checked type box name its classes and its CR is in range (inclusive) |
| Monsters.WantedIsShown | public_html/nc_assets/scripts/dmdashboard.js:464-509 | the test over the collected names is the rule over the checkbox groups |
| Monsters.EmptySelectionHidesAll | public_html/nc_assets/scripts/dmdashboard.js:507-511 | with no size box or no type box checked, or a bound that is not a number, every reached card is hidden |
| Monsters.DecisionIgnoresHidden | public_html/nc_assets/scripts/dmdashboard.js:504-509 | hiding or showing a card does not change the decision for it, when no box is named `hidden` |
| Monsters.FilterMonCardsIdempotent | public_html/nc_assets/scripts/dmdashboard.js:503-516 | a second pass over the same selection changes nothing |
| Monsters.ApplyMonFiltersIdempotent | public_html/nc_assets/scripts/dmdashboard.js:462-517 | re-running `applyMonFilters` without a change of the controls changes nothing |
| Monsters.SwitchMonCheckBoxes | public_html/nc_assets/scripts/dmdashboard.js:524-539 | the button's group gets the given state in every box and its label follows; the other group is untouched and its label is recomputed; the re-run filter shows a reached card iff the new boxes select it, Deselect All hides every reached card, and cards past the first unreadable one are untouched |
| Monsters.SwitchMonCheckBoxesIdempotent | public_html/nc_assets/scripts/dmdashboard.js:524-539 | pressing the same button twice with the same state is the same as pressing it once |
| ExpandInfo.DropLast2 | public_html/nc_assets/scripts/dmdashboard.js:394 | `substring(0, length - 2)` drops exactly the last two characters, and gives `''` for a shorter string |
| ExpandInfo.FormatListIsListing | public_html/nc_assets/scripts/dmdashboard.js:390-394 | a list body is each entry on its own tab-indented line, with no trailing line break, and is empty for an empty list |
| ExpandInfo.SensesBody | public_html/nc_assets/scripts/dmdashboard.js:413-416 | the senses body is laid out like a list body but keeps its trailing line break |
| ExpandInfo.ListingSplits | public_html/nc_assets/scripts/dmdashboard.js:390-394 | the entries of a list body can be read back one per line when no entry holds a carriage return |
| ExpandInfo.ListingIsJoin | public_html/nc_assets/scripts/dmdashboard.js:390-394 | a list body is the entries joined with a line break and a tab, after an initial one |
| ExpandInfo.ExpandTextLayout | public_html/nc_assets/scripts/dmdashboard.js:437-443 | the paragraph is the seven titled sections in the fixed order Vulnerabilities … Legendary Actions, separated by blank lines |
| ExpandInfo.ExpandIgnoresActions | public_html/nc_assets/scripts/dmdashboard.js:424-443 | the actions list never reaches the paragraph |
| ExpandInfo.FindById | public_html/nc_assets/scripts/dmdashboard.js:386 | `id(x)` is the first card with id `x`, or none |
| ExpandInfo.ProcessExpand | public_html/nc_assets/scripts/dmdashboard.js:385-448 | the card with the record's id gets the paragraph appended and its listener switched to shrink, and nothing else about it changes; the page throws when no card has that id; other cards are unchanged |
| ExpandInfo.Shrink | public_html/nc_assets/scripts/dmdashboard.js:453-457 | the last info paragraph is removed and the listener switched back, and nothing else about the card changes; the page throws when none is left; other cards are unchanged |
| ExpandInfo.ExpandThenShrink | public_html/nc_assets/scripts/dmdashboard.js:445-457 | expanding a compact card and shrinking it restores the page |
| ExpandInfo.ExpandKeepsFilterInput | public_html/nc_assets/scripts/dmdashboard.js:445 | expanding keeps the classes, the CR and the `hidden` state the filter reads |
| Spells.LevelText | public_html/nc_assets/scripts/dmdashboard.js:325 | a cantrip's level shows as `C`, any other level as its decimal number, and no level shows as `0` |
| Spells.SpellCard | public_html/nc_assets/scripts/dmdashboard.js:300-313 | a new spell card is hidden with classes `spell-card` and `hidden`, carries the five info paragraphs, and has the index as id on the dashboard |
| Spells.ReadSpellCard | public_html/nc_assets/scripts/dmdashboard.js:631-637 | a card is read iff it has three info paragraphs; the level read is never `0` and the class list is never empty |
| Spells.ReadLevel | public_html/nc_assets/scripts/dmdashboard.js:631-634 | the level read from a card is never `0` |
| Spells.DropLabel | public_html/nc_assets/scripts/dmdashboard.js:631 | removing a paragraph's label gives the rest of the paragraph |
| Spells.ReadRenderedLevel | public_html/nc_assets/scripts/dmdashboard.js:631-634 | the level read back is the level text rendered |
| Spells.ReadRenderedSchool | public_html/nc_assets/scripts/dmdashboard.js:635 | the school read back is the rendered school in lower case |
| Spells.ReadRenderedClasses | public_html/nc_assets/scripts/dmdashboard.js:636-637 | the classes read back are the rendered names in lower case (one empty name for none), when no name holds a comma |
| Spells.ReadRendered | public_html/nc_assets/scripts/dndspeller.js:72-127 | reading a rendered spell card gives its level text, lower-cased school and lower-cased classes |
| Spells.ReadableSpells | public_html/nc_assets/scripts/dmdashboard.js:630-636 | the spell loop reaches exactly the leading cards with three info paragraphs |
| Spells.FilterSpellCards | public_html/nc_assets/scripts/dmdashboard.js:630-648 | a reached card is shown iff its level and school are selected and some selected class is one of its classes; unreached cards are untouched |
| Spells.FilterSpellCardsIdempotent | public_html/nc_assets/scripts/dmdashboard.js:630-648 | a second pass over the same selection changes nothing |
| Spells.RenderedDecision | public_html/nc_assets/scripts/dndspeller.js:120-137 | for a rendered card the decision is the record-level rule on level text, lower-cased school and lower-cased classes |
| Spells.BoxLevels | public_html/nc_assets/scripts/dmdashboard.js:575 | one level per checked name, and a name starting with `level` stands for the rest of the name |
| Spells.BoxLevelOfName | public_html/nc_assets/scripts/dmdashboard.js:575 | the box `level<d>` stands for the level `<d>` |
| Spells.FirstZero | public_html/nc_assets/scripts/dmdashboard.js:576-577 | finds a `0` iff the list holds one, and the returned position holds the first `0` |
| Spells.DashboardLevels | public_html/nc_assets/scripts/dmdashboard.js:576-578 | a `0` in the list brings in `C`; every other level is selected exactly as before |
| Spells.SpellerLevels | public_html/nc_assets/scripts/dndspeller.js:108-110 | the list selects what it held, plus `C` when it held a `0` |
| Spells.LevelListsAgree | public_html/nc_assets/scripts/dndspeller.js:105-110 | for every level a card can show, both pages' lists select it iff some selected level, with `0` read as `C`, is that level |
| Spells.LevelSelectedChecked | public_html/nc_assets/scripts/dmdashboard.js:573-578 | the level list built from the checked boxes selects exactly the levels some checked box stands for |
| Spells.LevelBoxSelects | public_html/nc_assets/scripts/dndspeller.js:105-110 | with boxes named `level<m>`, a spell of level `n` is selected iff the box for `n` is checked; `level0` selects the cantrips shown as `C` |
| Spells.SameLevelText | public_html/nc_assets/scripts/dmdashboard.js:325 | a box level, with `0` read as `C`, matches the shown level text of exactly one level |
| Spells.MatchIsShown | public_html/nc_assets/scripts/dmdashboard.js:639-641 | the page's test is the rule: AND across level, school and class, OR within each |
| DashboardSpells.ApplySpellFilters | public_html/nc_assets/scripts/dmdashboard.js:571-649 | the three labels follow the label rule, and each reached card is shown iff a checked box of every group selects it |
| DashboardSpells.ApplySpellFiltersIdempotent | public_html/nc_assets/scripts/dmdashboard.js:571-649 | re-running `applySpellFilters` without a change of the controls changes nothing |
| DashboardSpells.EmptySelectionHidesAll | public_html/nc_assets/scripts/dmdashboard.js:639-647 | with no box checked in some group, every reached card is hidden |
| DashboardSpells.SwitchSpellCheckBoxes | public_html/nc_assets/scripts/dmdashboard.js:548-566 | the button's group gets the given state in every box and its label follows; the other groups are untouched and their labels are recomputed; the re-run filter shows a reached card iff the new boxes select it, and cards past the first unreadable one are untouched |
| DashboardSpells.DeselectHidesAll | public_html/nc_assets/scripts/dmdashboard.js:548-566 | a Deselect-All of any group hides every reached card |
| DashboardSpells.SwitchSpellCheckBoxesIdempotent | public_html/nc_assets/scripts/dmdashboard.js:548-566 | pressing the same button twice with the same state is the same as pressing it once |
| Speller.ApplyFilters | public_html/nc_assets/scripts/dndspeller.js:103-139 | each reached card is shown iff a checked box of every group selects it; the boxes are unchanged |
| Speller.EmptySelectionHidesAll | public_html/nc_assets/scripts/dndspeller.js:129-137 | with no box checked in some group, every reached card is hidden |
| Speller.FillCheckBoxes | public_html/nc_assets/scripts/dndspeller.js:18-36 | the button's group becomes fully checked, keeping its names, and the other groups are untouched; the re-run filter shows a reached card iff the new boxes select it, and cards past the first unreadable one are untouched |
| Speller.ApplyFiltersIdempotent | public_html/nc_assets/scripts/dndspeller.js:103-139 | re-running `applyFilters` without a change of the controls changes nothing |
| Speller.FillCheckBoxesIdempotent | public_html/nc_assets/scripts/dndspeller.js:18-36 | pressing a fill button twice is the same as pressing it once |
| Speller.SameAsDashboard | public_html/nc_assets/scripts/dndspeller.js:105-110 | despite their different level lists, the spell page and the dashboard leave the same cards hidden for the same boxes |

## Left out

- Fetching: the fetch pipelines, `statusCheck` and `handleError` are network I/O and console output. A record arrives as a parameter, and a failed fetch simply never produces a card.
- DOM helpers: `qs`, `qsa`, `id` and `gen` are replaced by the values they return. Card construction is modelled only for the text and classes the filters read.
- Card order: cards are taken in container order. The order in which fetches complete is not modelled.
- Button counts: `setBtnCounts` is not modelled. Each `NUM_*` count is taken to be the size of its checkbox group, which is what it is after page load.
- Listener swapping: the `removeEventListener` calls pass fresh arrow functions and remove nothing, so only the button label is modelled.
- The double click on a card while its fetch is in flight is not modelled. Expand and shrink are a sequential append/remove pair.
- `rollDice` depends on `Math.random`, floating point and the clock.
- The second and third paragraphs of a monster card (speeds and ability scores) are kept as opaque text. The filters never read them.
- `parseInt` of the CR inputs is a parameter: a number, or `None` for `NaN`.
- The `qsa('')` default branch of the switch functions is not modelled. Only the page's own buttons call them, and the three `SpellGroup` (two `MonGroup`) cases are those buttons.
- `innerText` is read as the paragraph's text content.
- `toLowerCase` is modelled on ASCII letters only.
- Text.Decimal: models `String(n)` as plain digits for every natural number. JavaScript numbers are doubles: from 1e21 on `String(n)` prints exponent form such as `1e+21`, and above 2^53 the value is not exact. The model assumes the page's numbers stay below that, as real ratings and levels do.
- Monsters.StatLineCR: the read-back relies on Text.Decimal and so holds only for ratings below 1e21.
- Monsters.MultiWordClasses: states which classes the card holds, not their order in the class list.
- Monsters.SingleWordClasses: states which classes the card holds, not their order in the class list.
- ExpandInfo.ExpandKeepsFilterInput: assumes the card already has its stat paragraph. On a card without info paragraphs the expansion would become the first paragraph.
- Monsters.FilterMonCardsIdempotent: assumes no checkbox is named `hidden`, because the pass itself tests the card's `hidden` class.
- Monsters.ApplyMonFiltersIdempotent: assumes no checkbox is named `hidden`, for the same reason.
- Monsters.SwitchMonCheckBoxesIdempotent: assumes no checkbox is named `hidden`, for the same reason.
- Spells.ReadRendered: holds only when no class name contains a comma. A comma inside a name would be split like a separator.
- Spells.RenderedDecision: assumes the spell has at least one class and no comma in a class name.
