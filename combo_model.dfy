/**
 * What both combobox variants share: the shapes of their inputs, the
 * validation of the data argument, the candidate keys and labels that
 * `init` builds, and how the `<select>` list behaves when the handlers
 * write or scan it.
 */
module ComboModel {
  import opened JsSemantics

  datatype Option<T> = None | Some(value: T)

  datatype Result<T, E> = Success(value: T) | Failure(error: E)

  /** Where an event happened: the text field, the toggle button, the
      `<select>` list itself, or one of its `<option>` items. */
  datatype Target = TextField | Button | List | Item(index: nat)

  /** The host element handed to the constructor: its tag name, its `type`
      attribute and its current value. */
  datatype Element = Element(tagName: string, inputType: string, value: string)

  /** The `data` argument: `null`/`undefined`, an array of strings (the
      caller's own array, which `init` sorts in place), or an object whose
      own keys are the candidates and whose values feed the label generator. */
  datatype Data =
    | Null
    | ArrayData(items: array<string>)
    | ObjectData(props: map<string, string>)

  /** The four errors the constructor throws, in the order it checks them. */
  datatype ConstructionError = NotTextInput | NullData | EmptyArray | NoProperties

  /** Alias names of the keys whose names differ between IE11 and the
      standard (`KEYS`, identical in both variants). */
  const KEYS: map<string, seq<string>> :=
    map["ESC" := ["Escape", "Esc"], "UP" := ["ArrowUp", "Up"], "DOWN" := ["ArrowDown", "Down"]]

  function UpperChar(c: char): char
  {
    if 'a' <= c <= 'z' then (c as int - 32) as char else c
  }

  /** `toUpperCase()` on an element's `type`, which browsers report as an
      ASCII keyword. */
  function AsciiUpper(s: string): (r: string)
    ensures |r| == |s|
    ensures forall i :: 0 <= i < |s| ==> r[i] == UpperChar(s[i])
  {
    if |s| == 0 then [] else [UpperChar(s[0])] + AsciiUpper(s[1..])
  }

  /** The checks on `data` that both constructors make after the element
      check: not null, a non-empty array, or an object with an own key. */
  function CheckData(d: Data): (r: Option<ConstructionError>)
    ensures r == None <==> (d.ArrayData? && d.items.Length > 0) || (d.ObjectData? && |d.props| > 0)
    ensures r == Some(NullData) <==> d.Null?
    ensures d.ArrayData? ==> (r == Some(EmptyArray) <==> d.items.Length == 0)
    ensures d.ObjectData? ==> (r == Some(NoProperties) <==> |d.props| == 0)
  {
    match d
    case Null => Some(NullData)
    case ArrayData(items) => if 0 < items.Length then None else Some(EmptyArray)
    case ObjectData(props) => if 0 < |props| then None else Some(NoProperties)
  }

  /** The candidate keys `init` sorts: the array's elements, or the
      object's own keys. */
  ghost function SourceKeys(d: Data): multiset<string>
    reads if d.ArrayData? then {d.items} else {}
  {
    match d
    case Null => multiset{}
    case ArrayData(items) => multiset(items[..])
    case ObjectData(props) => multiset(props.Keys)
  }

  /** `Object.keys(data)`: a fresh array holding each own key once, in an
      order this model leaves open. */
  method ObjectKeys(props: map<string, string>) returns (a: array<string>)
    ensures fresh(a)
    ensures multiset(a[..]) == multiset(props.Keys)
  {
    a := new string[|props.Keys|];
    var rest := props.Keys;
    var i := 0;
    while rest != {}
      invariant rest <= props.Keys
      invariant 0 <= i && i + |rest| == a.Length
      invariant multiset(a[..i]) + multiset(rest) == multiset(props.Keys)
      decreases rest
    {
      var k :| k in rest;
      a[i] := k;
      assert a[..i + 1] == a[..i] + [k];
      assert multiset(rest) == multiset(rest - {k}) + multiset{k};
      rest := rest - {k};
      i := i + 1;
    }
    assert a[..] == a[..i];
  }

  /** The `forEach` of `init` that appends one `<option>` per sorted key:
      option `i` carries key `i` and the label the variant computes for it. */
  method BuildLabels(keys: seq<string>, labelOf: string -> string) returns (labels: seq<string>)
    ensures |labels| == |keys|
    ensures forall i :: 0 <= i < |keys| ==> labels[i] == labelOf(keys[i])
  {
    labels := [];
    var i := 0;
    while i < |keys|
      invariant 0 <= i <= |keys|
      invariant |labels| == i
      invariant forall j :: 0 <= j < i ==> labels[j] == labelOf(keys[j])
    {
      labels := labels + [labelOf(keys[i])];
      i := i + 1;
    }
  }

  /** The value of an object property, or the empty string standing for
      `undefined` (never read: every key comes from `props`). */
  function PropertyOf(d: Data, key: string): string
  {
    if d.ObjectData? && key in d.props then d.props[key] else ""
  }

  /** Assigning `list.value = v`: the first option whose value is `v` becomes
      the selected one, or no option is selected when none has that value. */
  function SelectByValue(keys: seq<string>, v: string): (r: Option<nat>)
    ensures r.Some? ==> r.value < |keys| && keys[r.value] == v && v !in keys[..r.value]
    ensures r.None? <==> v !in keys
  {
    var i := IndexOf(keys, v);
    if 0 <= i then Some(i) else None
  }

  /** Reading `list.value`: the selected option's value, or `""`. */
  function ListValue(keys: seq<string>, selected: Option<nat>): string
    requires selected.Some? ==> selected.value < |keys|
  {
    match selected
    case Some(i) => keys[i]
    case None => ""
  }

  /** Writing `list.value` and reading it back gives the written value when
      an option carries it, and `""` otherwise; reading and writing back
      what was read leaves the value as it was. */
  lemma ListValueRoundTrip(keys: seq<string>, v: string, selected: Option<nat>)
    requires selected.Some? ==> selected.value < |keys|
    ensures ListValue(keys, SelectByValue(keys, v)) == (if v in keys then v else "")
    ensures ListValue(keys, SelectByValue(keys, ListValue(keys, selected))) ==
      (if ListValue(keys, selected) in keys then ListValue(keys, selected) else "")
    ensures selected.Some? ==>
      ListValue(keys, SelectByValue(keys, ListValue(keys, selected))) == ListValue(keys, selected)
  {
  }

  /** The type-ahead scan of `oninput`: the first option, in list order,
      whose value is `>=` the typed text. */
  function FirstAtLeast(keys: seq<string>, text: string): (r: Option<nat>)
    ensures r.Some? ==> r.value < |keys| && Le(text, keys[r.value])
    ensures r.Some? ==> forall j :: 0 <= j < r.value ==> !Le(text, keys[j])
    ensures r.None? <==> forall j :: 0 <= j < |keys| ==> !Le(text, keys[j])
  {
    if |keys| == 0 then None
    else if Le(text, keys[0]) then Some(0)
    else
      match FirstAtLeast(keys[1..], text)
      case None => None
      case Some(i) => Some(i + 1)
  }

  /** On sorted keys the type-ahead match is the nearest one: every key from
      the match onwards is `>=` the text, and the matched key is the least
      of all keys that are. */
  lemma TypeAheadIsNearest(keys: seq<string>, text: string)
    requires Sorted(keys)
    requires FirstAtLeast(keys, text).Some?
    ensures var i := FirstAtLeast(keys, text).value;
      && (forall j :: i <= j < |keys| ==> Le(text, keys[j]))
      && (forall j :: 0 <= j < |keys| && Le(text, keys[j]) ==> Le(keys[i], keys[j]))
  {
    var i := FirstAtLeast(keys, text).value;
    forall j | i < j < |keys|
      ensures Le(text, keys[j])
    {
      LeTransitive(text, keys[i], keys[j]);
    }
    forall j | 0 <= j < |keys| && Le(text, keys[j])
      ensures Le(keys[i], keys[j])
    {
      if j == i { LeReflexive(keys[i]); }
    }
  }

  /** When the scan finds nothing, mirroring the text into the list found
      nothing either: a key equal to the text would have been `>=` it. */
  lemma NoTypeAheadMatchMeansNoMirror(keys: seq<string>, text: string)
    requires FirstAtLeast(keys, text).None?
    ensures SelectByValue(keys, text).None?
  {
    if text in keys {
      var j :| 0 <= j < |keys| && keys[j] == text;
      LeReflexive(text);
    }
  }

  /** On sorted keys, text that is itself a key is matched by the scan at
      the very option that mirroring the text selects. */
  lemma TypeAheadAgreesWithMirror(keys: seq<string>, text: string)
    requires Sorted(keys) && text in keys
    ensures FirstAtLeast(keys, text) == SelectByValue(keys, text)
  {
    var m := SelectByValue(keys, text).value;
    LeReflexive(text);
    var r := FirstAtLeast(keys, text);
    if r.Some? && r.value < m {
      LeAntisymmetric(text, keys[r.value]);
    }
  }
}
