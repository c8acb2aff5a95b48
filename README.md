# PlainCombobox interaction state machine in Dafny

PlainCombobox turns an `<input type="text">` (or `type="search"`) into a
combobox. It adds a toggle button and a `<select>` list that holds one
`<option>` per candidate key, sorted. Event handlers on the text field, the
button and the list decide four things:

- when the list is shown or hidden;
- when the text field takes the list's value;
- where focus goes;
- which option type-ahead selects.

The flag `isListboxOpening` guards gestures that move focus from one surface
to another. While it is set, a focus-out does not close the list.
`MyCombo.js` is the earlier version of the same widget. Its handlers differ in
a few details, and it is modelled separately.

The project has five modules:

- `JsSemantics` (`js_semantics.dfy`): the JavaScript operations the widget
  relies on.
  - `<=` on strings, with proofs that it is a total order.
  - `Array.prototype.indexOf`.
  - The default `Array.prototype.sort`, as an in-place insertion sort on an
    `array<string>`. The lemma `SortedUnique` shows that the sorted result is
    determined by the keys alone, so the engine's choice of sorting algorithm
    does not matter.
- `ComboModel` (`combo_model.dfy`): what both variants share.
  - The input shapes: the element, the three shapes of `data` and the
    construction errors.
  - The data checks.
  - `Object.keys`.
  - The loop that builds the options.
  - How the `<select>` behaves when it is written (`list.value = v` selects
    the first option with that value, or none) and when it is read (`""`
    when nothing is selected).
  - The type-ahead scan `FirstAtLeast` and its lemmas.
- `PlainCombobox` (`plain_combobox.dfy`):
  - `testKey`, a recursive function over a key name or an array of names;
  - the constructor's validation;
  - the class `Combobox`.
- `MyCombo` (`my_combo.dfy`): the same class for the older variant.
- `Scenarios` (`scenarios.dfy`): event sequences that are checked from the
  handlers' contracts alone.
  - The object-data example `{a1: Apple, b2: Banana}`: open the list with the
    button, then click `b2`.
  - A button gesture during which a focus-out leaves the list open.
  - Arrow keys on a list with a single candidate.

Each instance of `Combobox` holds this state:

- `text`: the field's `element.value`;
- `listVisible`: `isListVisible`;
- `opening`: `isListboxOpening`;
- `selected`: the selected option, by position;
- `focus`: the surface the combobox last focused;
- the constant sorted `keys` and their `labels`.

Each handler is a method. Its frame names only the fields it may change, and
its postconditions give the new state for each branch of the source. The
invariant `Valid()` holds before and after every handler. It states:

- the keys are non-empty and sorted;
- there is one label per key;
- the selected option, if any, exists.

Construction is the static method `Create`. It returns `Failure(error)` in the
cases where the JavaScript constructor throws. For array data it sorts the
caller's own array in place, as `init` does.

Events are parameters of the handler methods:

- a `Target`: the text field, the button, the list, or option `i` of the list;
- the `key` of a keyboard event;
- for `oninput`, the field's value after the user's edit. The browser writes
  that value into the field before it raises `input`.

Three behaviours of the code that are easy to miss, and a note on the variants:

- Type-ahead may find no option `>=` the text. If the list was already
  visible, the earlier selection stays; nothing is deselected. If the list
  was hidden, no option is selected.
- Enter or Space on the list commits `list.value`. When no option is selected
  that value is `""`, so the field is cleared.
- The opening flag is not always cleared after a gesture. A mouse-down on the
  button whose mouse-up happens elsewhere leaves it set.
- The two variants differ in their key tests, the element types they accept
  and the labels of array data. The model keeps both.

## Model

| member | source | states |
|---|---|---|
| JsSemantics.LeIsCodeUnitOrder | PlainCombobox.js:184 | `Le`, the model of `<=` on strings (also the comparison of `sort()`), holds iff `a` is a prefix of `b` or, where they first differ, `a` has the smaller code unit |
| JsSemantics.LeReflexive | PlainCombobox.js:184 | every string is `<=` itself |
| JsSemantics.LeAntisymmetric | PlainCombobox.js:184 | two strings each `<=` the other are equal |
| JsSemantics.LeTransitive | PlainCombobox.js:184 | `<=` on strings is transitive |
| JsSemantics.LeTotal | PlainCombobox.js:184 | any two strings are ordered one way or the other |
| JsSemantics.SortedUnique | PlainCombobox.js:302-303 | two ascending arrangements of the same keys are identical, so the sorted list depends only on the keys |
| JsSemantics.IndexOf | PlainCombobox.js:95 | `indexOf` gives -1 exactly when the value is absent, otherwise the first index holding it |
| JsSemantics.SortInPlace | PlainCombobox.js:303 | `sort()` leaves the array ascending and a permutation of what it held |
| JsSemantics.InsertLast | PlainCombobox.js:303 | one insertion pass of the sort: the prefix grows by one and stays in order, and the array keeps its elements |
| JsSemantics.SwapDown | PlainCombobox.js:303 | an adjacent exchange of the sort touches only the two positions and keeps the elements |
| ComboModel.AsciiUpper | PlainCombobox.js:12 | `toUpperCase()` upper-cases each letter of the type and keeps its length |
| ComboModel.CheckData | PlainCombobox.js:15-26 | data passes exactly when it is a non-empty array or an object with an own key; otherwise the error names the failed check (null, empty array, no property) |
| ComboModel.ObjectKeys | PlainCombobox.js:302 | `Object.keys` yields each own key of the object exactly once |
| ComboModel.BuildLabels | PlainCombobox.js:303-311 | one option per sorted key, in order, option `i` labelled from key `i` |
| ComboModel.SelectByValue | PlainCombobox.js:244 | `list.value = v` selects the first option whose value is `v`, and none when no option has it |
| ComboModel.ListValueRoundTrip | PlainCombobox.js:244 | writing `list.value = v` and reading it back gives `v` when an option carries it and `""` otherwise; writing back a value just read from a selected option leaves it unchanged |
| ComboModel.FirstAtLeast | PlainCombobox.js:183-188 | the type-ahead scan returns the first option whose value is `>=` the text; none exactly when no option is |
| ComboModel.TypeAheadIsNearest | PlainCombobox.js:183-188 | on sorted keys the match is the least key `>=` the text, and every later key is `>=` it too |
| ComboModel.NoTypeAheadMatchMeansNoMirror | PlainCombobox.js:180-188 | when type-ahead finds nothing, mirroring the text into the list selected nothing either |
| ComboModel.TypeAheadAgreesWithMirror | PlainCombobox.js:244 | on sorted keys, text equal to a key is matched by type-ahead at the same option that `openList` selects |
| PlainCombobox.TestKey | PlainCombobox.js:86-101 | an array matches iff one of its elements matches; a `KEYS` name matches iff the key is one of its aliases; any other string matches iff it equals the key |
| PlainCombobox.AnyAlternativeMatches | PlainCombobox.js:88-92 | the array loop of `testKey` returns true iff some remaining element matches |
| PlainCombobox.HandlerKeyNames | PlainCombobox.js:74-78 | `ESC` accepts Escape/Esc, `UP` ArrowUp/Up, `DOWN` ArrowDown/Down, `Tab` only Tab, `['Enter',' ']` Enter or Space, `['UP','DOWN']` the four arrow names |
| PlainCombobox.ItemLabel | PlainCombobox.js:305-306 | an option's label is its key for array data, and the generator applied to the key and its property value for object data |
| PlainCombobox.Validate | PlainCombobox.js:12-26 | construction succeeds iff the element is an `INPUT` whose upper-cased type is `TEXT` or `SEARCH` and the data is a non-empty array or an object with an own key; the element is checked first |
| PlainCombobox.AcceptsAnyCasing | PlainCombobox.js:12 | the type check ignores case: any casing of `text` or `search` is accepted |
| PlainCombobox.Combobox.Create | PlainCombobox.js:11-26 | fails with the validation error and leaves the data untouched; otherwise the options are the data's keys sorted ascending, labelled by the key (array) or the generator (object), the caller's array is sorted in place, the text is the field's value, the list hidden, the opening flag clear, nothing selected |
| PlainCombobox.Combobox.constructor | PlainCombobox.js:28-61 | a fresh instance holds the field's value with the list hidden and the opening flag clear |
| PlainCombobox.Combobox.OpenList | PlainCombobox.js:243-247 | the list is shown and the selection mirrors the text; nothing else changes |
| PlainCombobox.Combobox.CloseList | PlainCombobox.js:254-258 | the list is hidden; the text becomes the given value, or stays when none is given; closing a hidden list without a value changes nothing (idempotent) |
| PlainCombobox.Combobox.OnFocusOut | PlainCombobox.js:64-71 | focus-out from the field or the list hides the list unless the opening flag is set, and never changes the text |
| PlainCombobox.Combobox.OnKeyDown | PlainCombobox.js:103-144 | Escape closes without commit; on the list Enter/Space commits the list value, Tab or Up-at-first or Down-at-last closes without commit, all refocusing the field; Up/Down on the field set the flag, open the list on the last/first option and focus it; any other key changes nothing |
| PlainCombobox.Combobox.KeyDownEscape | PlainCombobox.js:106-110 | Escape on the field or the list closes the list without touching the text and focuses the field; otherwise nothing changes |
| PlainCombobox.Combobox.KeyDownOnList | PlainCombobox.js:111-128 | on the list Enter/Space commits the list value, Tab or Up-at-first or Down-at-last closes keeping the text, each focusing the field; otherwise nothing changes |
| PlainCombobox.Combobox.KeyDownOnField | PlainCombobox.js:129-143 | Up/Down on the field set the opening flag, show the list with the last/first option selected and focus the list; otherwise nothing changes |
| PlainCombobox.Combobox.OnKeyUp | PlainCombobox.js:146-151 | releasing Up or Down on the list clears the opening flag; nothing else changes it |
| PlainCombobox.Combobox.OnMouseDown | PlainCombobox.js:153-155 | a press on the button sets the opening flag |
| PlainCombobox.Combobox.OnMouseUp | PlainCombobox.js:157-159 | a release on the button clears the opening flag |
| PlainCombobox.Combobox.OnClick | PlainCombobox.js:161-177 | the button hides a visible list or opens a hidden one and focuses it; an option or the list commits its value, hides the list and refocuses the field; the flag never changes |
| PlainCombobox.Combobox.OnInput | PlainCombobox.js:179-189 | the list is shown and the first option `>=` the text is selected; with no such option the earlier selection stays when the list was visible, and nothing is selected when it was hidden |
| MyCombo.AliasHit | MyCombo.js:82 | the inline test `0 < KEYS[name].indexOf(key)` holds iff the key is one of the aliases but not the first |
| MyCombo.PositiveIndexSkipsFirst | MyCombo.js:82 | `0 < indexOf(k)` holds iff `k` is in the array but is not its first element |
| MyCombo.HandlerKeyNames | MyCombo.js:79-123 | the inline alias tests accept only `Esc`, `Up` and `Down`; `Escape`, `ArrowUp` and `ArrowDown` are not recognised |
| MyCombo.ItemLabel | MyCombo.js:254 | an option's label is the generator applied to the key and, for array data, the key again, for object data its property value |
| MyCombo.Validate | MyCombo.js:14-28 | construction succeeds iff the element is an `INPUT` whose upper-cased type is `TEXT` and the data is a non-empty array or an object with an own key |
| MyCombo.RejectsSearchInput | MyCombo.js:14 | a search input is rejected |
| MyCombo.Combobox.Create | MyCombo.js:13-28 | as PlainCombobox, except that labels are the generator applied to `(key, key)` for array data |
| MyCombo.Combobox.constructor | MyCombo.js:30-61 | a fresh instance holds the field's value with the list hidden and the opening flag clear |
| MyCombo.Combobox.OpenList | MyCombo.js:202-206 | the list is shown and the selection mirrors the text |
| MyCombo.Combobox.CloseList | MyCombo.js:213-217 | the list is hidden; the text becomes the given value, or stays; closing a hidden list without a value changes nothing |
| MyCombo.Combobox.OnFocusOut | MyCombo.js:64-71 | focus-out from the field or the list hides the list unless the opening flag is set, and never changes the text |
| MyCombo.Combobox.OnKeyDown | MyCombo.js:79-116 | as PlainCombobox but reacting to `Esc`, `Up`, `Down` only: `Escape`, `ArrowUp`, `ArrowDown` change nothing |
| MyCombo.Combobox.KeyDownEscape | MyCombo.js:81-85 | `Esc` (not `Escape`) on the field or the list closes the list keeping the text and focuses the field; otherwise nothing changes |
| MyCombo.Combobox.KeyDownOnList | MyCombo.js:86-102 | on the list Enter/Space commits, Tab or `Up`-at-first or `Down`-at-last closes keeping the text; otherwise nothing changes |
| MyCombo.Combobox.KeyDownOnField | MyCombo.js:103-115 | `Up`/`Down` on the field set the opening flag, show the list on the last/first option and focus it; otherwise nothing changes |
| MyCombo.Combobox.OnKeyUp | MyCombo.js:118-123 | releasing `Up` or `Down` on the list clears the opening flag |
| MyCombo.Combobox.OnMouseDown | MyCombo.js:125-127 | a press on the button sets the opening flag |
| MyCombo.Combobox.OnMouseUp | MyCombo.js:129-131 | a release on the button clears the opening flag |
| MyCombo.Combobox.OnClick | MyCombo.js:133-149 | the button toggles the list; an option or the list commits its value and hides the list |
| MyCombo.Combobox.OnInput | MyCombo.js:151-161 | the list is shown and the first option `>=` the text is selected; otherwise the selection is as for PlainCombobox |
| Scenarios.TypeAheadExamples | PlainCombobox.js:183-188 | with `apple`, `banana`, `cherry`, typing `b` selects `banana` and typing `z` matches nothing |
| Scenarios.ExampleKeysSorted | PlainCombobox.js:302-303 | the own keys of `{a1: Apple, b2: Banana}`, once sorted, are exactly `a1` then `b2` |

The methods of module `Scenarios` (`ObjectDataScenario`, `ButtonGestureScenario`, `SingleCandidateArrows`) have no row. They are end-to-end event sequences driven through the handlers, whose assertions follow from the handlers' contracts alone.

## Left out

- `autoPosition`: pixel arithmetic on computed styles and CSS strings, which is floating-point layout.
- Creating the button, list and option elements, inserting them into the document, and CSS class names. This is DOM plumbing; only the option values and labels are kept.
- Registering the listeners. Each handler is a method, and its event is a parameter.
- `dispose`. It detaches the button and list, clears references, and in PlainCombobox restores the field's inline styles saved by `autoPosition` (PlainCombobox.js:274-277). None of that touches the modelled state. Its `removeEventListener(... .bind(this))` calls remove nothing.
- Option merging and `DEFAULT_OPTIONS`. The label generator is a parameter, a pure function from two strings to a string.
- `preventDefault`.
- Focus events raised by `focus()` itself.
- The list's own arrow-key navigation. The selection changes only through the handlers.
- `focus` records only the surface the combobox last focused. It is `None` until the first move, because the browser's initial focus is outside the model.
- `data` of any shape other than null, an array of strings or an object. Object property values are strings.
- The order of `Object.keys`. It cannot change the sorted result (`SortedUnique`).
- `toUpperCase` is modelled for ASCII letters only. Browsers report `type` as a lower-case ASCII keyword.
- `testKey` given an inherited property name of `KEYS` such as `toString`. That would throw, and no handler passes one.
- Strings compare by `char`. For characters of the Basic Multilingual Plane a `char` is the UTF-16 code unit JavaScript compares. A Dafny `char` cannot be a surrogate, so keys or text holding characters outside that plane, which JavaScript compares by their surrogate code units, are outside the model.
- A `null` or `undefined` element, on which both constructors throw a `TypeError` when reading `tagName` (PlainCombobox.js:12, MyCombo.js:14). `Element` is always a record.
