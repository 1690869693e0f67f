/**
  * The selection bookkeeping of the radio group block: an ordered list of
  * bindings, each pairing a radio control's checked flag with the option value
  * the control stands for, plus the layout direction and the log of emitted
  * `valueChanged` signals.
  *
  * The first half of the module specifies the binding list with pure functions
  * and proves what the block promises about them; the second half is the block
  * itself, a class whose methods update the list in place and are proved against
  * those functions.
  */
module RadioGroupBlock {
  import opened Wrappers
  import opened PothosObjects

  /** One entry of the binding list: a radio control (only its checked flag matters) and its option value. */
  datatype Binding = Binding(checked: bool, value: Object)

  /** The reasons `setOptions` rejects an option list with a data-format error. */
  datatype FormatError = EntryNotVector | EntryWrongSize | LabelNotString
  {
    /** The message carried by the data-format error. */
    function Reason(): string {
      match this
      case EntryNotVector => "entry is not ObjectVector"
      case EntryWrongSize => "entry must be ObjectVector of size == 2"
      case LabelNotString => "entry[0] must be a string"
    }
  }

  /** The operation name every data-format error is raised with. */
  const ErrorSource: string := "RadioGroup::setOptions()"

  /** The data-format error as raised: the operation that raised it and the reason it gives. */
  datatype DataFormatException = DataFormatException(operation: string, message: string)

  /** The exception `setOptions` raises for a failed check; its message tells which check failed. */
  function Raised(e: FormatError): (x: DataFormatException)
    ensures x.operation == ErrorSource
    ensures forall f: FormatError :: f.Reason() == x.message <==> f == e
  {
    DataFormatException(ErrorSource, e.Reason())
  }

  /** The four flow directions of the group's box layout. */
  datatype Direction = LeftToRight | RightToLeft | TopToBottom | BottomToTop

  // ---------------------------------------------------------------------------
  // Option-list validation
  // ---------------------------------------------------------------------------

  /** An option entry is a two-element vector whose first element (the label) converts to text. */
  predicate ValidOption(o: Object) {
    CanConvertToVector(o) && |o.items| == 2 && CanConvertToString(o.items[0])
  }

  predicate ValidOptions(options: seq<Object>) {
    forall i :: 0 <= i < |options| ==> ValidOption(options[i])
  }

  /** The value an entry binds its radio control to: its second element. */
  function OptionValue(o: Object): Object
    requires ValidOption(o)
  {
    o.items[1]
  }

  /** The first check an option entry fails, in the order the block applies them, if any. */
  function EntryError(o: Object): (r: Option<FormatError>)
    ensures r == None <==> ValidOption(o)
    ensures r == Some(EntryNotVector) <==> !CanConvertToVector(o)
    ensures r == Some(EntryWrongSize) <==> CanConvertToVector(o) && |o.items| != 2
    ensures r == Some(LabelNotString) <==> CanConvertToVector(o) && |o.items| == 2 && !CanConvertToString(o.items[0])
  {
    if !CanConvertToVector(o) then Some(EntryNotVector)
    else if |o.items| != 2 then Some(EntryWrongSize)
    else if !CanConvertToString(o.items[0]) then Some(LabelNotString)
    else None
  }

  /**
    * Validation of a whole option list: entries are checked front to back and the
    * first failing check of the first invalid entry is the error.
    */
  function CheckOptions(options: seq<Object>): (r: Outcome<FormatError>)
    ensures r == Pass <==> ValidOptions(options)
    ensures r.Fail? ==> exists k :: 0 <= k < |options| && EntryError(options[k]) == Some(r.error) &&
                                    forall j :: 0 <= j < k ==> ValidOption(options[j])
  {
    if |options| == 0 then Pass
    else match EntryError(options[0])
      case Some(e) => Fail(e)
      case None =>
        var rest := CheckOptions(options[1..]);
        assert forall j :: 1 <= j < |options| ==> options[j] == options[1..][j - 1];
        if rest.Fail? then
          var k :| 0 <= k < |options[1..]| && EntryError(options[1..][k]) == Some(rest.error) &&
                   forall j :: 0 <= j < k ==> ValidOption(options[1..][j]);
          assert EntryError(options[k + 1]) == Some(rest.error);
          rest
        else rest
  }

  /** The error `CheckOptions` reports is that of the first invalid entry. */
  lemma CheckOptionsFirstError(options: seq<Object>, k: nat)
    requires k < |options| && !ValidOption(options[k])
    requires forall j :: 0 <= j < k ==> ValidOption(options[j])
    ensures CheckOptions(options) == Fail(EntryError(options[k]).value)
  {
    var r := CheckOptions(options);
    assert r.Fail?;
    var m :| 0 <= m < |options| && EntryError(options[m]) == Some(r.error) &&
             forall j :: 0 <= j < m ==> ValidOption(options[j]);
    assert EntryError(options[m]).Some? && EntryError(options[k]).Some?;
    assert m == k;
  }

  // ---------------------------------------------------------------------------
  // Reading the selection
  // ---------------------------------------------------------------------------

  /** The index of the first checked control, if any control is checked. */
  function FirstChecked(bs: seq<Binding>): (r: Option<nat>)
    ensures r.Some? ==> r.value < |bs| && bs[r.value].checked &&
                        forall j :: 0 <= j < r.value ==> !bs[j].checked
    ensures r.None? <==> forall j :: 0 <= j < |bs| ==> !bs[j].checked
  {
    if |bs| == 0 then None
    else if bs[0].checked then Some(0)
    else match FirstChecked(bs[1..])
      case None => None
      case Some(i) => Some(i + 1)
  }

  /** The current selection: the value bound to the first checked control, or the null object. */
  function ValueOf(bs: seq<Binding>): Object {
    match FirstChecked(bs)
    case Some(i) => bs[i].value
    case None => Empty
  }

  /** Some binding of the list holds value `v`. */
  predicate HasValue(bs: seq<Binding>, v: Object) {
    exists i :: 0 <= i < |bs| && bs[i].value == v
  }

  // ---------------------------------------------------------------------------
  // Selecting by value
  // ---------------------------------------------------------------------------

  /** The list after every control is set checked exactly when its value equals `v`. */
  function Select(bs: seq<Binding>, v: Object): (r: seq<Binding>)
    ensures |r| == |bs|
    ensures forall i :: 0 <= i < |bs| ==> r[i].value == bs[i].value && (r[i].checked <==> bs[i].value == v)
  {
    if |bs| == 0 then []
    else [Binding(bs[0].value == v, bs[0].value)] + Select(bs[1..], v)
  }

  /** Selecting a value reads back as that value when some option holds it, and as the null object otherwise. */
  lemma SelectValue(bs: seq<Binding>, v: Object)
    ensures ValueOf(Select(bs, v)) == if HasValue(bs, v) then v else Empty
  {
    var r := Select(bs, v);
    if HasValue(bs, v) {
      var i :| 0 <= i < |bs| && bs[i].value == v;
      assert r[i].checked;
    }
  }

  /** With pairwise distinct option values, selecting leaves at most one control checked. */
  lemma SelectExclusive(bs: seq<Binding>, v: Object)
    requires forall i, j :: 0 <= i < j < |bs| ==> bs[i].value != bs[j].value
    ensures forall i, j :: 0 <= i < j < |bs| && Select(bs, v)[i].checked ==> !Select(bs, v)[j].checked
  {
  }

  // ---------------------------------------------------------------------------
  // Rebuilding from an option list
  // ---------------------------------------------------------------------------

  /** The list `__setOptions` builds before re-selecting: one unchecked control per entry, in order. */
  function NewBindings(options: seq<Object>): (r: seq<Binding>)
    requires ValidOptions(options)
    ensures |r| == |options|
    ensures forall i :: 0 <= i < |options| ==> r[i] == Binding(false, OptionValue(options[i]))
  {
    if |options| == 0 then []
    else [Binding(false, OptionValue(options[0]))] + NewBindings(options[1..])
  }

  /** Some entry of a validated option list binds value `v`. */
  predicate OfferedValue(options: seq<Object>, v: Object)
    requires ValidOptions(options)
  {
    exists i :: 0 <= i < |options| && OptionValue(options[i]) == v
  }

  /**
    * Rebuilding keeps the entries in order with their values, and keeps the old
    * selection exactly when one of the new entries offers it.
    */
  lemma RebuildKeepsSelection(options: seq<Object>, oldValue: Object)
    requires ValidOptions(options)
    ensures |Select(NewBindings(options), oldValue)| == |options|
    ensures forall i :: 0 <= i < |options| ==> Select(NewBindings(options), oldValue)[i].value == OptionValue(options[i])
    ensures ValueOf(Select(NewBindings(options), oldValue)) ==
            if OfferedValue(options, oldValue) then oldValue else Empty
  {
    var bs := NewBindings(options);
    SelectValue(bs, oldValue);
    if OfferedValue(options, oldValue) {
      var i :| 0 <= i < |options| && OptionValue(options[i]) == oldValue;
      assert bs[i].value == oldValue;
    }
  }

  // ---------------------------------------------------------------------------
  // Saving and restoring by index
  // ---------------------------------------------------------------------------

  /** Restoring index `i` in range makes the selection read back as the value at `i`. */
  lemma RestoreValue(bs: seq<Binding>, i: nat)
    requires i < |bs|
    ensures ValueOf(Select(bs, bs[i].value)) == bs[i].value
  {
    SelectValue(bs, bs[i].value);
  }

  /**
    * Restoring the index that saving produced, on any list holding the same values
    * in the same order (the saved block or a fresh one configured alike), makes the
    * selection read back as it did when it was saved.
    */
  lemma SaveRestoreRoundTrip(bs: seq<Binding>, cs: seq<Binding>)
    requires FirstChecked(bs).Some?
    requires |cs| == |bs| && forall i :: 0 <= i < |bs| ==> cs[i].value == bs[i].value
    ensures ValueOf(Select(cs, cs[FirstChecked(bs).value].value)) == ValueOf(bs)
  {
    RestoreValue(cs, FirstChecked(bs).value);
  }

  // ---------------------------------------------------------------------------
  // Layout direction names
  // ---------------------------------------------------------------------------

  /** The name under which each direction is configured. */
  function DirectionName(d: Direction): string {
    match d
    case LeftToRight => "LeftToRight"
    case RightToLeft => "RightToLeft"
    case TopToBottom => "TopToBottom"
    case BottomToTop => "BottomToTop"
  }

  /** The direction a configured name stands for; any other name stands for none. */
  function ParseDirection(name: string): (r: Option<Direction>)
    ensures forall d :: r == Some(d) <==> name == DirectionName(d)
  {
    if name == "LeftToRight" then Some(LeftToRight)
    else if name == "RightToLeft" then Some(RightToLeft)
    else if name == "TopToBottom" then Some(TopToBottom)
    else if name == "BottomToTop" then Some(BottomToTop)
    else None
  }

  // ---------------------------------------------------------------------------
  // The block
  // ---------------------------------------------------------------------------

  class RadioGroup {
    /** `_radioToOption`: the controls in placement order, each with its option value. */
    var radioToOption: seq<Binding>
    /** The flow direction of the box layout. */
    var direction: Direction
    /** Every `valueChanged` signal emitted so far, oldest first, by its payload. */
    var emitted: seq<Object>

    /** A new block has no options, lays out top to bottom and has emitted nothing. */
    constructor ()
      ensures radioToOption == [] && direction == TopToBottom && emitted == []
    {
      radioToOption := [];
      direction := TopToBottom;
      emitted := [];
    }

    /** The value of the first checked control, or the null object when none is checked. */
    method Value() returns (r: Object)
      ensures r == ValueOf(radioToOption)
      ensures r != Empty ==> exists i :: 0 <= i < |radioToOption| && radioToOption[i].checked && radioToOption[i].value == r
    {
      var i := 0;
      while i < |radioToOption|
        invariant 0 <= i <= |radioToOption|
        invariant forall j :: 0 <= j < i ==> !radioToOption[j].checked
      {
        if radioToOption[i].checked {
          return radioToOption[i].value;
        }
        i := i + 1;
      }
      return Empty;
    }

    /** Sets the layout direction when `name` is one of the four direction names; ignores any other name. */
    method SetDirection(name: string)
      modifies this
      ensures direction == (if ParseDirection(name).Some? then ParseDirection(name).value else old(direction))
      ensures radioToOption == old(radioToOption) && emitted == old(emitted)
    {
      if name == "LeftToRight" { direction := LeftToRight; }
      if name == "RightToLeft" { direction := RightToLeft; }
      if name == "TopToBottom" { direction := TopToBottom; }
      if name == "BottomToTop" { direction := BottomToTop; }
    }

    /** Checks each control exactly when its value equals `v`, in place. */
    method SetValue(v: Object)
      modifies this
      ensures radioToOption == Select(old(radioToOption), v)
      ensures ValueOf(radioToOption) == if HasValue(old(radioToOption), v) then v else Empty
      ensures direction == old(direction) && emitted == old(emitted)
    {
      var i := 0;
      while i < |radioToOption|
        invariant 0 <= i <= |radioToOption| == |old(radioToOption)|
        invariant forall j :: 0 <= j < i ==> radioToOption[j] == Binding(old(radioToOption)[j].value == v, old(radioToOption)[j].value)
        invariant forall j :: i <= j < |radioToOption| ==> radioToOption[j] == old(radioToOption)[j]
        invariant direction == old(direction) && emitted == old(emitted)
      {
        var b := radioToOption[i];
        radioToOption := radioToOption[i := Binding(b.value == v, b.value)];
        i := i + 1;
      }
      SelectValue(old(radioToOption), v);
    }

    /** Validates every entry, then rebuilds; a rejected list leaves the block untouched. */
    method SetOptions(options: seq<Object>) returns (r: Outcome<FormatError>)
      modifies this
      ensures r == CheckOptions(options)
      ensures r.Fail? ==> radioToOption == old(radioToOption)
      ensures r.Pass? ==> radioToOption == Select(NewBindings(options), ValueOf(old(radioToOption)))
      ensures direction == old(direction) && emitted == old(emitted)
    {
      var i := 0;
      while i < |options|
        invariant 0 <= i <= |options|
        invariant forall j :: 0 <= j < i ==> ValidOption(options[j])
      {
        var option := options[i];
        if !CanConvertToVector(option) {
          CheckOptionsFirstError(options, i);
          return Fail(EntryNotVector);
        }
        if |option.items| != 2 {
          CheckOptionsFirstError(options, i);
          return Fail(EntryWrongSize);
        }
        if !CanConvertToString(option.items[0]) {
          CheckOptionsFirstError(options, i);
          return Fail(LabelNotString);
        }
        i := i + 1;
      }
      ApplyOptions(options);
      return Pass;
    }

    /**
      * Replaces every binding by one unchecked control per entry, in order, then
      * re-selects the value that was selected before.
      */
    method ApplyOptions(options: seq<Object>)
      requires ValidOptions(options)
      modifies this
      ensures radioToOption == Select(NewBindings(options), ValueOf(old(radioToOption)))
      ensures |radioToOption| == |options|
      ensures forall i :: 0 <= i < |options| ==> radioToOption[i].value == OptionValue(options[i])
      ensures ValueOf(radioToOption) ==
              if OfferedValue(options, ValueOf(old(radioToOption))) then ValueOf(old(radioToOption)) else Empty
      ensures direction == old(direction) && emitted == old(emitted)
    {
      var oldValue := Value();
      Clear();
      var i := 0;
      while i < |options|
        invariant 0 <= i <= |options|
        invariant |radioToOption| == i
        invariant forall j :: 0 <= j < i ==> radioToOption[j] == Binding(false, OptionValue(options[j]))
        invariant direction == old(direction) && emitted == old(emitted)
      {
        var optPair := options[i].items;
        radioToOption := radioToOption + [Binding(false, optPair[1])];
        i := i + 1;
      }
      assert radioToOption == NewBindings(options);
      SetValue(oldValue);
      RebuildKeepsSelection(options, oldValue);
    }

    /** Removes every control. */
    method Clear()
      modifies this
      ensures radioToOption == []
      ensures direction == old(direction) && emitted == old(emitted)
    {
      radioToOption := [];
    }

    /** The index of the first checked control, or none when nothing is checked. */
    method SaveState() returns (r: Option<nat>)
      ensures r == FirstChecked(radioToOption)
      ensures r.Some? ==> r.value < |radioToOption| && radioToOption[r.value].value == ValueOf(radioToOption)
    {
      var i := 0;
      while i < |radioToOption|
        invariant 0 <= i <= |radioToOption|
        invariant forall j :: 0 <= j < i ==> !radioToOption[j].checked
      {
        if radioToOption[i].checked {
          return Some(i);
        }
        i := i + 1;
      }
      return None;
    }

    /** Selects the value at `index`; an index past the end changes nothing. */
    method RestoreState(index: nat)
      modifies this
      ensures index >= |old(radioToOption)| ==> radioToOption == old(radioToOption)
      ensures index < |old(radioToOption)| ==>
                radioToOption == Select(old(radioToOption), old(radioToOption)[index].value) &&
                ValueOf(radioToOption) == old(radioToOption)[index].value
      ensures direction == old(direction) && emitted == old(emitted)
    {
      if index >= |radioToOption| {
        return;
      }
      RestoreValue(radioToOption, index);
      SetValue(radioToOption[index].value);
    }

    /** Emits the current selection when a control became checked; a control becoming unchecked emits nothing. */
    method HandleRadioChanged(toggled: bool)
      modifies this
      ensures emitted == if toggled then old(emitted) + [ValueOf(old(radioToOption))] else old(emitted)
      ensures radioToOption == old(radioToOption) && direction == old(direction)
    {
      if !toggled {
        return;
      }
      var v := Value();
      emitted := emitted + [v];
    }

    /** Emits the current (possibly null) selection once, as the block starts running. */
    method Activate()
      modifies this
      ensures emitted == old(emitted) + [ValueOf(old(radioToOption))]
      ensures radioToOption == old(radioToOption) && direction == old(direction)
    {
      HandleRadioChanged(true);
    }
  }
}

/** A client of the block, showing what its contracts let a caller conclude. */
module RadioGroupClient {
  import opened Wrappers
  import opened PothosObjects
  import opened RadioGroupBlock

  /** Configures two options and selects the second one. */
  method Configured() returns (g: RadioGroup)
    ensures fresh(g) && ValueOf(g.radioToOption) == Int(2) && g.emitted == []
    ensures g.radioToOption == [Binding(false, Int(1)), Binding(true, Int(2))]
  {
    g := new RadioGroup();
    var a := [Vec([Str("x"), Int(1)]), Vec([Str("y"), Int(2)])];
    var r := g.SetOptions(a);
    assert r == Pass;
    g.SetValue(Int(2));
    assert g.radioToOption[1].value == Int(2);
  }

  /** A malformed entry is rejected with its reason, and the selection survives. */
  method RejectMalformed() {
    var g := Configured();
    var bad := [Vec([Str("ok"), Int(1)]), Str("not-a-pair")];
    CheckOptionsFirstError(bad, 1);
    var r := g.SetOptions(bad);
    assert r == Fail(EntryNotVector);
    assert Raised(r.error).message == "entry is not ObjectVector";
    var v := g.Value();
    assert v == Int(2);
  }

  /** Replacing the options keeps the selection when a new entry offers its value. */
  method KeepSelection() {
    var g := Configured();
    var b := [Vec([Str("y"), Int(2)]), Vec([Str("z"), Int(3)])];
    var r := g.SetOptions(b);
    assert OptionValue(b[0]) == Int(2);
    var v := g.Value();
    assert v == Int(2);
  }

  /** Replacing the options drops the selection when no new entry offers its value. */
  method DropSelection() {
    var g := Configured();
    var c := [Vec([Str("p"), Int(9)]), Vec([Str("q"), Int(10)])];
    var r := g.SetOptions(c);
    assert OptionValue(c[0]) != Int(2) && OptionValue(c[1]) != Int(2);
    var v := g.Value();
    assert v == Empty;
  }

  /** Saving yields the checked index; restoring an index past the end is ignored; activation emits once. */
  method SaveAndRestore() {
    var g := Configured();
    var s := g.SaveState();
    assert s == Some(1);
    g.RestoreState(0);
    g.RestoreState(99);
    var v := g.Value();
    assert v == Int(1);
    g.Activate();
    assert g.emitted == [Int(1)];
  }
}
