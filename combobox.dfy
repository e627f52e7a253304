/** The searchable option pickers for bin locations and for suppliers. They
    are stand-alone components: the item and stock-in dialogs use plain
    selects instead. Both run the same rules over their own option list, so
    one class models both: the list is seeded from a table, the selected value
    comes from the form that hosts the picker, and the search text is typed by
    the user. */
module Combobox {
  import opened Lists
  import opened Text
  import opened Data

  /** The list with `v` appended as its own caption unless some option
      already has the value `v` exactly. */
  function AddIfAbsent(options: seq<ComboOption>, v: string): (r: seq<ComboOption>)
    ensures HasValue(r, v)
    ensures |options| <= |r| <= |options| + 1 && r[..|options|] == options
    ensures |r| == |options| + 1 <==> !HasValue(options, v)
    ensures |r| == |options| + 1 ==> r[|options|] == ComboOption(v, v)
  {
    if HasValue(options, v) then options
    else
      var r := options + [ComboOption(v, v)];
      assert r[|options|].value == v;
      r
  }

  /** The effect run whenever the form's value changes: a non-empty value
      missing from the list is appended; an empty one adds nothing. */
  function EnsureListed(options: seq<ComboOption>, value: string): (r: seq<ComboOption>)
    ensures value != "" ==> HasValue(r, value)
    ensures value == "" || HasValue(options, value) ==> r == options
    ensures |options| <= |r| <= |options| + 1 && r[..|options|] == options
  {
    if value != "" then AddIfAbsent(options, value) else options
  }

  /** Appending a value that is absent keeps the option values distinct. */
  lemma AddIfAbsentKeepsDistinct(options: seq<ComboOption>, v: string)
    requires ValuesDistinct(options)
    ensures ValuesDistinct(AddIfAbsent(options, v))
  {
    var r := AddIfAbsent(options, v);
    if |r| == |options| + 1 {
      forall i, j | 0 <= i < j < |r| ensures r[i].value != r[j].value {
        if j == |options| {
          assert r[i] == options[i];
        } else {
          assert r[i] == options[i] && r[j] == options[j];
        }
      }
    }
  }

  /** Once listed, a value stays listed: running the step again adds nothing. */
  lemma EnsureListedIsStable(options: seq<ComboOption>, value: string)
    ensures EnsureListed(EnsureListed(options, value), value) == EnsureListed(options, value)
  {
  }

  /** The caption the trigger button shows for the selected value: that of
      the first option with that value, if any. */
  function CaptionOf(options: seq<ComboOption>, value: string): (c: Option<string>)
    ensures c.None? <==> !HasValue(options, value)
    ensures c.Some? ==> exists i ::
              && 0 <= i < |options| && options[i].value == value && options[i].caption == c.value
              && forall j :: 0 <= j < i ==> options[j].value != value
    decreases |options|
  {
    if options == [] then None
    else if options[0].value == value then Some(options[0].caption)
    else
      var c := CaptionOf(options[1..], value);
      assert forall i :: 1 <= i < |options| ==> options[i] == options[1..][i - 1];
      assert HasValue(options[1..], value) ==> HasValue(options, value);
      if c.Some? then
        var i :| 0 <= i < |options[1..]| && options[1..][i].value == value && options[1..][i].caption == c.value
          && forall j :: 0 <= j < i ==> options[1..][j].value != value;
        assert options[i + 1].value == value && options[i + 1].caption == c.value;
        assert forall j :: 0 <= j < i + 1 ==> options[j].value != value;
        c
      else c
  }

  /** After the effect a selected value always has a caption to show. */
  lemma ListedValueHasCaption(options: seq<ComboOption>, value: string)
    requires value != ""
    ensures CaptionOf(EnsureListed(options, value), value).Some?
  {
  }

  function MatchesInput(input: string): ComboOption -> bool
  {
    (o: ComboOption) => MatchesIgnoringCase(o.caption, input)
  }

  /** The options shown for the search text: all of them for an empty text,
      otherwise those whose lower-cased caption contains the lower-cased text,
      in list order. */
  function FilteredOptions(options: seq<ComboOption>, input: string): (r: seq<ComboOption>)
    ensures input == "" ==> r == options
    ensures forall i :: 0 <= i < |r| ==> MatchesIgnoringCase(r[i].caption, input)
    ensures forall x :: multiset(r)[x] == if MatchesIgnoringCase(x.caption, input) then multiset(options)[x] else 0
    ensures IsSubsequence(r, options)
  {
    if input != "" then Filter(options, MatchesInput(input))
    else
      assert ToLower(input) == "";
      assert forall i :: 0 <= i < |options| ==> MatchesInput(input)(options[i]) by {
        forall i | 0 <= i < |options| ensures MatchesInput(input)(options[i]) {
          IncludesEmpty(ToLower(options[i].caption));
        }
      }
      FilterKeepsAll(options, MatchesInput(input));
      options
  }

  /** Some option value equals the text when both are lower-cased
      (`Array.prototype.some`). */
  function AnyValueMatches(options: seq<ComboOption>, input: string): (b: bool)
    ensures b <==> exists i :: 0 <= i < |options| && ToLower(options[i].value) == ToLower(input)
    decreases |options|
  {
    if options == [] then false
    else if ToLower(options[0].value) == ToLower(input) then true
    else
      var b := AnyValueMatches(options[1..], input);
      assert forall i :: 1 <= i < |options| ==> options[i] == options[1..][i - 1];
      b
  }

  /** The "Add" entry is offered exactly when the text is non-empty and no
      option value equals it up to case. */
  function ShowAddNew(options: seq<ComboOption>, input: string): (b: bool)
    ensures b <==> input != "" && forall i :: 0 <= i < |options| ==> ToLower(options[i].value) != ToLower(input)
  {
    input != "" && !AnyValueMatches(options, input)
  }

  /** Whenever the "Add" entry is offered, choosing it appends exactly one
      option, since no value matches even exactly. */
  lemma AddNewAppendsOne(options: seq<ComboOption>, input: string)
    requires ShowAddNew(options, input)
    ensures AddIfAbsent(options, input) == options + [ComboOption(input, input)]
  {
  }

  /** The value handed to the form when an option is chosen: choosing the
      option already selected clears the selection. */
  function Toggle(current: string, chosen: string): (r: string)
    ensures chosen == current ==> r == ""
    ensures chosen != current ==> r == chosen
  {
    if chosen == current then "" else chosen
  }

  /** Choosing an option twice in a row leaves nothing selected when the
      first choice selected it, and selects it again otherwise. */
  lemma ToggleTwice(current: string, chosen: string)
    ensures Toggle(Toggle(current, chosen), chosen) == if chosen == current then chosen else ""
  {
  }

  /** The component state: the option list, the form value it shows, the
      search text and whether the popover is open. */
  class Picker {
    var options: seq<ComboOption>
    var value: string
    var inputValue: string
    var isOpen: bool

    constructor (initial: seq<ComboOption>, formValue: string)
      ensures options == initial && value == formValue && inputValue == "" && !isOpen
    {
      options := initial;
      value := formValue;
      inputValue := "";
      isOpen := false;
    }

    /** The effect: list the form's value if it is missing. */
    method SyncValue()
      modifies this
      ensures options == EnsureListed(old(options), value)
      ensures value == old(value) && inputValue == old(inputValue) && isOpen == old(isOpen)
      ensures ValuesDistinct(old(options)) ==> ValuesDistinct(options)
    {
      if value != "" && ValuesDistinct(options) {
        AddIfAbsentKeepsDistinct(options, value);
      }
      options := EnsureListed(options, value);
    }

    method SetOpen(open: bool)
      modifies this
      ensures isOpen == open
      ensures options == old(options) && value == old(value) && inputValue == old(inputValue)
    {
      isOpen := open;
    }

    method TypeInput(text: string)
      modifies this
      ensures inputValue == text
      ensures options == old(options) && value == old(value) && isOpen == old(isOpen)
    {
      inputValue := text;
    }

    /** Choosing a listed option: toggle the value, close, clear the search. */
    method SelectOption(chosen: string)
      modifies this
      ensures value == Toggle(old(value), chosen)
      ensures options == old(options) && inputValue == "" && !isOpen
    {
      value := Toggle(value, chosen);
      isOpen := false;
      inputValue := "";
    }

    /** Choosing "Add": the search text becomes the value and is appended as
        an option unless some option has exactly that value; then close and
        clear the search. */
    method SelectAddNew()
      modifies this
      ensures value == old(inputValue)
      ensures options == AddIfAbsent(old(options), old(inputValue))
      ensures ValuesDistinct(old(options)) ==> ValuesDistinct(options)
      ensures inputValue == "" && !isOpen
    {
      var chosen := inputValue;
      value := chosen;
      if ValuesDistinct(options) {
        AddIfAbsentKeepsDistinct(options, chosen);
      }
      options := AddIfAbsent(options, chosen);
      isOpen := false;
      inputValue := "";
    }
  }
}
