/**
 * Event sequences driven through the combobox classes, checked from the
 * handlers' contracts alone.
 */
module Scenarios {
  import opened JsSemantics
  import opened ComboModel
  import PlainCombobox

  /** The type-ahead scan on `apple`, `banana`, `cherry`: `b` lands on
      `banana`, and nothing is `>=` `z`. */
  lemma TypeAheadExamples()
    ensures FirstAtLeast(["apple", "banana", "cherry"], "b") == Some(1)
    ensures FirstAtLeast(["apple", "banana", "cherry"], "z") == None
  {
  }

  /** The own keys of `{a1: Apple, b2: Banana}`, in sorted order, are
      exactly `a1` then `b2`, whatever order they were enumerated in. */
  lemma ExampleKeysSorted(keys: seq<string>)
    requires Sorted(keys)
    requires multiset(keys) == multiset(map["a1" := "Apple", "b2" := "Banana"].Keys)
    ensures keys == ["a1", "b2"]
  {
    assert map["a1" := "Apple", "b2" := "Banana"].Keys == {"a1", "b2"};
    assert multiset({"a1", "b2"}) == multiset(["a1", "b2"]);
    assert Le("a1", "b2");
    SortedUnique(keys, ["a1", "b2"]);
  }

  /** Object data `{a1: Apple, b2: Banana}`: the options are `a1` then `b2`;
      clicking the button opens the list, clicking `b2` commits it. */
  method ObjectDataScenario()
  {
    var generator := (key: string, value: string) => key + ": " + value;
    var r := PlainCombobox.Combobox.Create(
      Element("INPUT", "text", ""), ObjectData(map["a1" := "Apple", "b2" := "Banana"]), generator);
    assert AsciiUpper("text") == "TEXT";
    assert r.Success?;
    var c := r.value;
    ExampleKeysSorted(c.keys);
    assert c.labels[1] == "b2: Banana";

    c.OnClick(Target.Button);
    assert c.listVisible;
    c.OnClick(Target.Item(1));
    assert c.text == "b2" && !c.listVisible;
  }

  /** A press on the button moves focus off the text field before the click
      arrives; the focus-out it raises must not close the list. The flag is
      cleared only by a mouse-up on the button itself. */
  method ButtonGestureScenario(c: PlainCombobox.Combobox)
    requires c.Valid() && c.listVisible
    modifies c
  {
    c.OnMouseDown(Target.Button);
    c.OnFocusOut(Target.TextField);
    assert c.listVisible;
    c.OnMouseUp(Target.Button);
    assert !c.opening;
    c.OnFocusOut(Target.TextField);
    assert !c.listVisible;
  }

  /** With a single candidate, Up and Down from the text field both land on
      it, and Up again on the list leaves it for the text field. */
  method SingleCandidateArrows(c: PlainCombobox.Combobox)
    requires c.Valid() && |c.keys| == 1
    modifies c
  {
    var before := c.text;
    PlainCombobox.HandlerKeyNames("ArrowDown");
    PlainCombobox.HandlerKeyNames("ArrowUp");
    c.OnKeyDown(Target.TextField, "ArrowDown");
    assert c.selected == Some(0) && c.focus == Some(Target.List) && c.opening;
    c.OnKeyUp(Target.List, "ArrowDown");
    assert !c.opening;
    c.OnKeyDown(Target.List, "ArrowUp");
    assert !c.listVisible && c.text == before && c.focus == Some(Target.TextField);
    c.OnKeyDown(Target.TextField, "ArrowUp");
    assert c.selected == Some(0) && c.listVisible;
  }
}
