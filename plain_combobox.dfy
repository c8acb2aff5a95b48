/**
 * PlainCombobox: a text input turned into a combobox by a toggle button
 * and a `<select>` list of sorted candidates.
 *
 * The object's state is the text field's value, whether the list is shown,
 * the `isListboxOpening` flag that keeps a focus-out from closing the list
 * while a gesture moves focus between the surfaces, the selected option
 * and the surface the combobox last focused. Each handler is one method.
 */
module PlainCombobox {
  import opened JsSemantics
  import opened ComboModel

  /** The `expectedKey` argument of `testKey`: a `KEYS` name or an actual
      key value, or an array of such arguments. */
  datatype ExpectedKey = Name(name: string) | AnyOf(alternatives: seq<ExpectedKey>)

  const ESC := Name("ESC")
  const UP := Name("UP")
  const DOWN := Name("DOWN")
  const TAB := Name("Tab")
  const ENTER_OR_SPACE := AnyOf([Name("Enter"), Name(" ")])
  const UP_OR_DOWN := AnyOf([UP, DOWN])

  /** `testKey(evt, expectedKey)` where `evt.key` is `actual`: an array
      matches when one of its elements does, a `KEYS` name matches any of
      its aliases, and any other string matches only itself. */
  function TestKey(actual: string, expected: ExpectedKey): (r: bool)
    ensures expected.AnyOf? ==>
      (r <==> exists i :: 0 <= i < |expected.alternatives| && TestKey(actual, expected.alternatives[i]))
    ensures expected.Name? && expected.name in KEYS ==> (r <==> actual in KEYS[expected.name])
    ensures expected.Name? && expected.name !in KEYS ==> (r <==> actual == expected.name)
    decreases expected, 1, 0
  {
    match expected
    case AnyOf(_) => AnyAlternativeMatches(actual, expected, 0)
    case Name(n) => if n in KEYS then 0 <= IndexOf(KEYS[n], actual) else n == actual
  }

  /** The loop of `testKey` over an array argument, from index `from` on;
      it stops at the first element that matches. */
  function AnyAlternativeMatches(actual: string, expected: ExpectedKey, from: nat): (r: bool)
    requires expected.AnyOf? && from <= |expected.alternatives|
    ensures r <==> exists i :: from <= i < |expected.alternatives| && TestKey(actual, expected.alternatives[i])
    decreases expected, 0, |expected.alternatives| - from
  {
    if from == |expected.alternatives| then false
    else if TestKey(actual, expected.alternatives[from]) then true
    else AnyAlternativeMatches(actual, expected, from + 1)
  }

  /** The key values the handlers react to, under both the standard and
      the IE11 names. */
  predicate IsEscape(key: string) { key == "Escape" || key == "Esc" }
  predicate IsUp(key: string) { key == "ArrowUp" || key == "Up" }
  predicate IsDown(key: string) { key == "ArrowDown" || key == "Down" }
  predicate IsEnterOrSpace(key: string) { key == "Enter" || key == " " }

  /** The key values each of the handlers' `testKey` calls accepts. */
  lemma HandlerKeyNames(key: string)
    ensures TestKey(key, ESC) == IsEscape(key)
    ensures TestKey(key, UP) == IsUp(key)
    ensures TestKey(key, DOWN) == IsDown(key)
    ensures TestKey(key, TAB) == (key == "Tab")
    ensures TestKey(key, ENTER_OR_SPACE) == IsEnterOrSpace(key)
    ensures TestKey(key, UP_OR_DOWN) == (IsUp(key) || IsDown(key))
    // No key value is in two of the classes.
    ensures IsEscape(key) ==> !IsEnterOrSpace(key) && key != "Tab" && !IsUp(key) && !IsDown(key)
    ensures IsEnterOrSpace(key) ==> key != "Tab" && !IsUp(key) && !IsDown(key)
    ensures key == "Tab" ==> !IsUp(key) && !IsDown(key)
    ensures IsUp(key) ==> !IsDown(key)
  {
    assert TestKey(key, ENTER_OR_SPACE) <==> TestKey(key, Name("Enter")) || TestKey(key, Name(" ")) by {
      assert ENTER_OR_SPACE.alternatives[0] == Name("Enter") && ENTER_OR_SPACE.alternatives[1] == Name(" ");
    }
    assert TestKey(key, UP_OR_DOWN) <==> TestKey(key, UP) || TestKey(key, DOWN) by {
      assert UP_OR_DOWN.alternatives[0] == UP && UP_OR_DOWN.alternatives[1] == DOWN;
    }
  }

  /** The element check: an `<input>` whose type, upper-cased, is listed
      in `['TEXT', 'SEARCH']`. */
  predicate AcceptsElement(element: Element)
  {
    element.tagName == "INPUT" && 0 <= IndexOf(["TEXT", "SEARCH"], AsciiUpper(element.inputType))
  }

  /** The checks the constructor makes before it touches anything; `Some`
      carries the error it throws. */
  function Validate(element: Element, data: Data): (r: Option<ConstructionError>)
    ensures r.None? <==>
      && element.tagName == "INPUT"
      && (AsciiUpper(element.inputType) == "TEXT" || AsciiUpper(element.inputType) == "SEARCH")
      && !data.Null?
      && (data.ArrayData? ==> data.items.Length > 0)
      && (data.ObjectData? ==> |data.props| > 0)
    ensures !AcceptsElement(element) ==> r == Some(NotTextInput)
    ensures AcceptsElement(element) ==> r == CheckData(data)
  {
    if !AcceptsElement(element) then Some(NotTextInput) else CheckData(data)
  }

  /** The element check ignores case: every spelling of `text` or `search`
      with upper- and lower-case letters mixed is accepted. */
  lemma AcceptsAnyCasing(t: string, value: string)
    requires AsciiUpper(t) == "TEXT" || AsciiUpper(t) == "SEARCH"
    ensures AcceptsElement(Element("INPUT", t, value))
  {
  }

  /** The label of an option: the key itself for array data, the label
      generator applied to the key and its property value for object data. */
  function ItemLabel(data: Data, itemLabelGenerator: (string, string) -> string, key: string): (r: string)
    ensures data.ArrayData? ==> r == key
    ensures data.ObjectData? && key in data.props ==> r == itemLabelGenerator(key, data.props[key])
  {
    if data.ArrayData? then key else itemLabelGenerator(key, PropertyOf(data, key))
  }

  class Combobox {
    /** `element.value`: the text field's value. */
    var text: string
    /** `isListVisible`. */
    var listVisible: bool
    /** `isListboxOpening`: while set, focus-out does not close the list. */
    var opening: bool
    /** The selected `<option>`, by position in the list. */
    var selected: Option<nat>
    /** The surface the combobox last moved focus to. */
    var focus: Option<Target>
    /** Option values, in list order. */
    const keys: seq<string>
    /** Option labels, in list order. */
    const labels: seq<string>

    ghost predicate Valid()
      reads this
    {
      && |keys| > 0
      && Sorted(keys)
      && |labels| == |keys|
      && (selected.Some? ==> selected.value < |keys|)
    }

    /** `new PlainCombobox(element, data, options)`: throws on an element
        that is not a text or search input and on null or empty data;
        otherwise sorts the keys (the caller's array itself, for array data),
        builds one labelled option per key and leaves the list hidden. */
    static method Create(element: Element, data: Data, itemLabelGenerator: (string, string) -> string)
      returns (r: Result<Combobox, ConstructionError>)
      modifies if data.ArrayData? then {data.items} else {}
      ensures r.Failure? <==> Validate(element, data).Some?
      ensures r.Failure? ==> r.error == Validate(element, data).value
      ensures r.Failure? && data.ArrayData? ==> data.items[..] == old(data.items[..])
      ensures r.Success? ==> fresh(r.value) && r.value.Valid()
      ensures r.Success? ==>
        && r.value.text == element.value
        && !r.value.listVisible && !r.value.opening
        && r.value.selected == None && r.value.focus == None
      ensures r.Success? ==> multiset(r.value.keys) == old(SourceKeys(data))
      ensures r.Success? ==>
        forall i :: 0 <= i < |r.value.keys| ==>
          r.value.labels[i] == ItemLabel(data, itemLabelGenerator, r.value.keys[i])
      ensures r.Success? && data.ArrayData? ==> data.items[..] == r.value.keys
    {
      var error := Validate(element, data);
      if error.Some? {
        return Failure(error.value);
      }
      var keyArray: array<string>;
      if data.ArrayData? {
        keyArray := data.items;
      } else {
        keyArray := ObjectKeys(data.props);
        assert |multiset(keyArray[..])| == |data.props.Keys|;
      }
      SortInPlace(keyArray);
      var keys := keyArray[..];
      assert |multiset(keys)| > 0;
      var labels := BuildLabels(keys, k => ItemLabel(data, itemLabelGenerator, k));
      var c := new Combobox(element.value, keys, labels);
      return Success(c);
    }

    /** The field assignments of the constructor and the `closeList()` that
        ends `init`. */
    constructor (value: string, keys: seq<string>, labels: seq<string>)
      requires |keys| > 0 && Sorted(keys) && |labels| == |keys|
      ensures Valid() && this.keys == keys && this.labels == labels
      ensures text == value && !listVisible && !opening && selected == None && focus == None
    {
      this.keys := keys;
      this.labels := labels;
      text := value;
      listVisible := false;
      opening := false;
      selected := None;
      focus := None;
      new;
      CloseList(None);
    }

    /** `openList()`: shows the list and selects the option whose value is
        the text, or none. */
    method OpenList()
      requires Valid()
      modifies this`selected, this`listVisible
      ensures Valid()
      ensures listVisible
      ensures selected == SelectByValue(keys, text)
    {
      selected := SelectByValue(keys, text);
      listVisible := true;
    }

    /** `closeList(value)`: hides the list, and writes `value` to the text
        field when one is given. */
    method CloseList(value: Option<string>)
      requires Valid()
      modifies this`text, this`listVisible
      ensures Valid()
      ensures !listVisible
      ensures value.Some? ==> text == value.value
      ensures value.None? ==> text == old(text)
      ensures value.None? && !old(listVisible) ==> unchanged(this)
    {
      if value.Some? {
        text := value.value;
      }
      listVisible := false;
    }

    /** `onfocusout`: losing focus from the text field or the list closes
        the list without committing, unless a gesture is in progress. */
    method OnFocusOut(target: Target)
      requires Valid()
      modifies this`text, this`listVisible
      ensures Valid()
      ensures text == old(text)
      ensures old(opening) ==> listVisible == old(listVisible)
      ensures !old(opening) && (target == List || target == TextField) ==> !listVisible
      ensures target != List && target != TextField ==> listVisible == old(listVisible)
    {
      if target == List && !opening {
        CloseList(None);
      } else if target == TextField && !opening {
        CloseList(None);
      }
    }

    /** `onkeydown`: its three blocks run one after the other. */
    method OnKeyDown(target: Target, key: string)
      requires Valid()
      modifies this
      ensures Valid()
      // Escape on the text field or the list: close, keep the text.
      ensures (target == TextField || target == List) && IsEscape(key) ==>
        && !listVisible && text == old(text) && selected == old(selected)
        && opening == old(opening) && focus == Some(TextField)
      // Enter or Space on the list: close and commit the list's value.
      ensures target == List && IsEnterOrSpace(key) ==>
        && !listVisible && text == old(ListValue(keys, selected)) && selected == old(selected)
        && opening == old(opening) && focus == Some(TextField)
      // Tab, Up on the first option, Down on the last: close, keep the text.
      ensures (target == List &&
               (key == "Tab" || (IsUp(key) && old(selected) == Some(0)) ||
                (IsDown(key) && old(selected) == Some(|keys| - 1)))) ==>
        && !listVisible && text == old(text) && selected == old(selected)
        && opening == old(opening) && focus == Some(TextField)
      // Up or Down on the text field: begin the gesture, open the list on its
      // last or first option and focus it.
      ensures target == TextField && IsUp(key) ==>
        && opening && listVisible && selected == Some(|keys| - 1)
        && focus == Some(List) && text == old(text)
      ensures target == TextField && IsDown(key) ==>
        && opening && listVisible && selected == Some(0)
        && focus == Some(List) && text == old(text)
      // Every other key, and every other target, changes nothing.
      ensures target == TextField && !IsEscape(key) && !IsUp(key) && !IsDown(key) ==>
        unchanged(this)
      ensures (target == List && !IsEscape(key) && !IsEnterOrSpace(key) && key != "Tab" &&
               !(IsUp(key) && old(selected) == Some(0)) &&
               !(IsDown(key) && old(selected) == Some(|keys| - 1))) ==>
        unchanged(this)
      ensures target == Button || target.Item? ==> unchanged(this)
    {
      KeyDownEscape(target, key);
      KeyDownOnList(target, key);
      KeyDownOnField(target, key);
    }

    /** The first block of `onkeydown`: Escape on the text field or the list
        closes the list and returns to the text field. */
    method KeyDownEscape(target: Target, key: string)
      requires Valid()
      modifies this`text, this`listVisible, this`focus
      ensures Valid()
      ensures text == old(text)
      ensures (target == TextField || target == List) && IsEscape(key) ==>
        !listVisible && focus == Some(TextField)
      ensures !((target == TextField || target == List) && IsEscape(key)) ==>
        listVisible == old(listVisible) && focus == old(focus)
    {
      HandlerKeyNames(key);
      if target == TextField || target == List {
        if TestKey(key, ESC) {
          CloseList(None);
          focus := Some(TextField);
        }
      }
    }

    /** The second block of `onkeydown`: on the list, Enter or Space commits
        the list's value; Tab, Up on the first option and Down on the last
        close without commit; each returns to the text field. */
    method KeyDownOnList(target: Target, key: string)
      requires Valid()
      modifies this`text, this`listVisible, this`focus
      ensures Valid()
      ensures target == List && IsEnterOrSpace(key) ==>
        !listVisible && text == old(ListValue(keys, selected)) && focus == Some(TextField)
      ensures (target == List && !IsEnterOrSpace(key) &&
               (key == "Tab" || (IsUp(key) && selected == Some(0)) ||
                (IsDown(key) && selected == Some(|keys| - 1)))) ==>
        !listVisible && text == old(text) && focus == Some(TextField)
      ensures !(target == List &&
                (IsEnterOrSpace(key) || key == "Tab" || (IsUp(key) && selected == Some(0)) ||
                 (IsDown(key) && selected == Some(|keys| - 1)))) ==>
        text == old(text) && listVisible == old(listVisible) && focus == old(focus)
    {
      HandlerKeyNames(key);
      if target == List {
        if TestKey(key, ENTER_OR_SPACE) {
          CloseList(Some(ListValue(keys, selected)));
          focus := Some(TextField);
        } else if TestKey(key, TAB) {
          CloseList(None);
          focus := Some(TextField);
        } else if TestKey(key, UP) && selected == Some(0) {
          CloseList(None);
          focus := Some(TextField);
        } else if TestKey(key, DOWN) && selected == Some(|keys| - 1) {
          CloseList(None);
          focus := Some(TextField);
        }
      }
    }

    /** The third block of `onkeydown`: Up or Down on the text field begins
        the gesture, opens the list on its last or first option and focuses it. */
    method KeyDownOnField(target: Target, key: string)
      requires Valid()
      modifies this`opening, this`listVisible, this`selected, this`focus
      ensures Valid()
      ensures target == TextField && IsUp(key) ==>
        opening && listVisible && selected == Some(|keys| - 1) && focus == Some(List)
      ensures target == TextField && IsDown(key) ==>
        opening && listVisible && selected == Some(0) && focus == Some(List)
      ensures !(target == TextField && (IsUp(key) || IsDown(key))) ==>
        && opening == old(opening) && listVisible == old(listVisible)
        && selected == old(selected) && focus == old(focus)
    {
      HandlerKeyNames(key);
      if target == TextField {
        if TestKey(key, UP) {
          opening := true;
          OpenList();
          selected := Some(|keys| - 1);
          focus := Some(List);
        } else if TestKey(key, DOWN) {
          opening := true;
          OpenList();
          selected := Some(0);
          focus := Some(List);
        }
      }
    }

    /** `onkeyup`: releasing Up or Down on the list ends the gesture. */
    method OnKeyUp(target: Target, key: string)
      requires Valid()
      modifies this`opening
      ensures Valid()
      ensures target == List && (IsUp(key) || IsDown(key)) ==> !opening
      ensures !(target == List && (IsUp(key) || IsDown(key))) ==> opening == old(opening)
    {
      HandlerKeyNames(key);
      if target == List {
        if TestKey(key, UP_OR_DOWN) {
          opening := false;
        }
      }
    }

    /** `onmousedown`: pressing the button begins a gesture. */
    method OnMouseDown(target: Target)
      requires Valid()
      modifies this`opening
      ensures Valid()
      ensures target == Button ==> opening
      ensures target != Button ==> opening == old(opening)
    {
      if target == Button {
        opening := true;
      }
    }

    /** `onmouseup`: releasing the button ends the gesture. */
    method OnMouseUp(target: Target)
      requires Valid()
      modifies this`opening
      ensures Valid()
      ensures target == Button ==> !opening
      ensures target != Button ==> opening == old(opening)
    {
      if target == Button {
        opening := false;
      }
    }

    /** `onclick`: the button toggles the list; an option, or the list
        itself, commits a value and returns to the text field. */
    method OnClick(target: Target)
      requires Valid()
      requires target.Item? ==> target.index < |keys|
      modifies this`text, this`listVisible, this`selected, this`focus
      ensures Valid()
      ensures opening == old(opening)
      ensures target == Button && old(listVisible) ==>
        !listVisible && text == old(text) && selected == old(selected) && focus == old(focus)
      ensures target == Button && !old(listVisible) ==>
        listVisible && text == old(text) && selected == SelectByValue(keys, text) && focus == Some(List)
      ensures target.Item? ==>
        !listVisible && text == keys[target.index] && selected == old(selected) && focus == Some(TextField)
      ensures target == List ==>
        !listVisible && text == old(ListValue(keys, selected)) && selected == old(selected) && focus == Some(TextField)
      ensures target == TextField ==> unchanged(this)
    {
      if target == Button {
        if listVisible {
          CloseList(None);
        } else {
          OpenList();
          focus := Some(List);
        }
      } else if target.Item? {
        CloseList(Some(keys[target.index]));
        focus := Some(TextField);
      } else if target == List {
        CloseList(Some(ListValue(keys, selected)));
        focus := Some(TextField);
      }
    }

    /** `oninput`, raised after the user edited the field to `typed`: shows
        the list if hidden, then selects the first option whose value is
        `>=` the text; when there is none the selection is left as it was. */
    method OnInput(typed: string)
      requires Valid()
      modifies this`text, this`listVisible, this`selected
      ensures Valid()
      ensures text == typed && listVisible
      ensures FirstAtLeast(keys, typed).Some? ==> selected == FirstAtLeast(keys, typed)
      ensures FirstAtLeast(keys, typed).None? ==> selected == (if old(listVisible) then old(selected) else None)
    {
      text := typed;
      if !listVisible {
        OpenList();
      }
      ghost var before := selected;
      var i := 0;
      while i < |keys|
        invariant 0 <= i <= |keys|
        invariant Valid()
        invariant forall j :: 0 <= j < i ==> !Le(text, keys[j])
        invariant selected == before
      {
        if Le(text, keys[i]) {
          selected := Some(i);
          break;
        }
        i := i + 1;
      }
      if FirstAtLeast(keys, typed).None? && !old(listVisible) {
        NoTypeAheadMatchMeansNoMirror(keys, typed);
      }
    }
  }
}
