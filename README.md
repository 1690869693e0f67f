# Radio group block: selection bookkeeping

A model of the radio group widget block of the Pothos widgets plugin (`RadioGroup.cpp`).
The block shows a group of radio buttons, each bound to an option value. Callers can read
and set the selection by value. They can replace the whole option list, and the current
selection is carried over by value equality. They can save and restore the selection as an
index. When a control becomes checked, the block emits `valueChanged` with the current value.

Without the toolkit, the block is a small state machine over one ordered list,
`_radioToOption`. The model represents it as the field `RadioGroup.radioToOption: seq<Binding>`.
Each `Binding` pairs a radio control's checked flag with its option value. Two more fields
hold the rest of the state: `direction`, the box layout's flow direction, and `emitted`, the
log of `valueChanged` payloads, oldest first.

Files:

- `wrappers.dfy`: `Option` and `Outcome`.
- `objects.dfy`: the framework's type-erased value `Pothos::Object`. It is a closed variant with
  a null case `Empty`. Its two conversion tests become predicates: `CanConvertToVector` (the
  value is a vector) and `CanConvertToString` (the value is text). The framework's value
  equality becomes Dafny's `==`.
- `radio_group.dfy`: the block. Pure functions specify the binding list: `FirstChecked`,
  `ValueOf`, `Select`, `NewBindings` and `CheckOptions`. Lemmas state what the block promises
  about them. The class `RadioGroup` has one method per operation. Each method updates the
  list in place and is proved against those functions. A small client module,
  `RadioGroupClient`, replays typical call sequences against the class's contracts.

The `setOptions` check raises `DataFormatException` from `"RadioGroup::setOptions()"`. The
model returns `Fail(e)` instead, and `Raised(e)` is the exception the source would throw.
The three reasons (`FormatError.Reason`) are the source's own messages, and the checks run
in the source's order.

`setValue` and `setOptions` hand their work to the UI thread as queued calls (`__setValue`,
`__setOptions`). The model runs those slot bodies directly. `SetValue` is the body of
`__setValue`. `SetOptions` validates and then calls `ApplyOptions`, which is the body of
`__setOptions`. `ApplyOptions` re-selects the old value immediately. In the source, that step
is itself a queued `setValue`.

## Model

| member | source | states |
|---|---|---|
| `RadioGroupBlock.Raised` | RadioGroup.cpp:119-122 | The exception names `RadioGroup::setOptions()` as its operation. Its message is the source's message for the failed check, and that message identifies the check. |
| `RadioGroupBlock.EntryError` | RadioGroup.cpp:119-122 | An entry fails the first of the three checks it does not meet, in the order the source applies them. It fails none of them exactly when it is a 2-element vector whose first element converts to text. |
| `RadioGroupBlock.CheckOptions` | RadioGroup.cpp:116-123 | Validation passes exactly when every entry is valid. When it fails, the error is the one of an entry that comes after only valid entries. |
| `RadioGroupBlock.CheckOptionsFirstError` | RadioGroup.cpp:117-123 | The reported error is the first failing check of the first invalid entry. |
| `RadioGroupBlock.FirstChecked` | RadioGroup.cpp:131-135 | The result is the index of a checked control with no checked control before it. The result is none exactly when no control is checked. |
| `RadioGroupBlock.Select` | RadioGroup.cpp:175-178 | After selecting `v`, the list has the same length and the same values in the same order. Each control is checked exactly when its value equals `v`. |
| `RadioGroupBlock.SelectValue` | RadioGroup.cpp:173-179 | After selecting `v`, the selection reads `v` if some option holds `v`, and reads the null object otherwise. |
| `RadioGroupBlock.SelectExclusive` | RadioGroup.cpp:175-178 | When the option values are pairwise distinct, selecting leaves at most one control checked. |
| `RadioGroupBlock.NewBindings` | RadioGroup.cpp:159-168 | The rebuilt list has one unchecked control per entry, in entry order. Each control is bound to its entry's second element. |
| `RadioGroupBlock.RebuildKeepsSelection` | RadioGroup.cpp:154-171 | After a rebuild, the list has one entry per option, with the option values in order. The old selection survives exactly when some new option offers the same value; otherwise nothing is selected. |
| `RadioGroupBlock.RestoreValue` | RadioGroup.cpp:138-143 | Restoring an in-range index makes the selection read the value at that index. |
| `RadioGroupBlock.SaveRestoreRoundTrip` | RadioGroup.cpp:129-143 | Restoring the index that saving returned, on the saved list or on any list with the same values in the same order, makes the selection read the value it had when it was saved. |
| `RadioGroupBlock.ParseDirection` | RadioGroup.cpp:92-98 | A name stands for direction `d` exactly when it is `d`'s name. Any other string stands for no direction. |
| `RadioGroupBlock.RadioGroup.constructor` | RadioGroup.cpp:60-61 | A new block has no options and lays out top to bottom. It has emitted nothing. |
| `RadioGroupBlock.RadioGroup.Value` | RadioGroup.cpp:100-107 | Returns the value bound to the first checked control, or the null object when no control is checked. A non-null result is the value of some checked control. |
| `RadioGroupBlock.RadioGroup.SetDirection` | RadioGroup.cpp:92-98 | One of the four direction names sets that direction. Any other name leaves the direction unchanged. Nothing else changes. |
| `RadioGroupBlock.RadioGroup.SetValue` | RadioGroup.cpp:173-179 | The new list is `Select(old list, v)`. So `value()` reads `v` when some option holds it and null otherwise. Direction and emitted signals are unchanged. |
| `RadioGroupBlock.RadioGroup.SetOptions` | RadioGroup.cpp:114-125 | Returns `CheckOptions(options)`. On failure the binding list is untouched. On success the list is rebuilt as by `__setOptions`. |
| `RadioGroupBlock.RadioGroup.ApplyOptions` | RadioGroup.cpp:154-171 | All old entries are replaced. The new list has one entry per option, with the option values in order. The old selection is kept if some new option offers it; otherwise nothing is selected. |
| `RadioGroupBlock.RadioGroup.Clear` | RadioGroup.cpp:194-198 | The binding list becomes empty. Nothing else changes. |
| `RadioGroupBlock.RadioGroup.SaveState` | RadioGroup.cpp:129-136 | Returns the index of the first checked control, or none. The value at a returned index is the current selection. |
| `RadioGroupBlock.RadioGroup.RestoreState` | RadioGroup.cpp:138-143 | An index past the end changes nothing. An index in range selects the value at that index, and `value()` then reads that value. |
| `RadioGroupBlock.RadioGroup.HandleRadioChanged` | RadioGroup.cpp:181-185 | A change to unchecked emits nothing. A change to checked appends exactly one `valueChanged` carrying the current selection. The list and direction are unchanged. |
| `RadioGroupBlock.RadioGroup.Activate` | RadioGroup.cpp:81-85 | Appends exactly one `valueChanged` carrying the current, possibly null, selection. |

## Left out

- Rendering and widget plumbing are not modelled. This covers the style sheet, `widget()`,
  adding radios to the box layout, `setTitle` and `handleSetTitle` (a caption redraw), and
  `mousePressEvent`, which marks presses as unhandled so the caption can be dragged. These
  have no data contract.
- Queued cross-thread calls (`QMetaObject::invokeMethod` with a queued connection) are not
  modelled. The slot bodies run at once. In the source, a rebuild leaves nothing checked until
  the queued re-selection runs; the model has no such window.
- RadioGroupBlock.RadioGroup.ApplyOptions: re-selects the old value at once, which changes the
  final state, not only the timing. In the source, `__setOptions` queues its re-selection
  (RadioGroup.cpp:170) behind any `__setValue` the caller queued after `setOptions`
  (RadioGroup.cpp:111, 124). So a `setValue` issued right after `setOptions` is overridden when
  the old value is still offered. Example: options (x,1), (y,2) with 1 selected, then
  `setOptions` with (x,1), (y,2), (z,3), then `setValue(3)`. The source runs `__setValue(3)`
  and then `__setValue(1)`, ending with 1 selected; the model ends with 3. The model does not
  capture this reordering.
- Block registration, signal registration, meta-type registration and the factory registry
  are not modelled. They are calls into the host framework.
- The framework's real conversions and equality are not modelled. They are library code.
  Only vectors count as convertible to a vector, and only text counts as convertible to a
  string. Equality is structural, so the null object equals the null object.
- RadioGroupBlock.RadioGroup.RestoreState: takes an index that is already a natural number.
  It does not model how Qt converts the saved state to an unsigned integer. In particular, an
  empty saved state (nothing was checked) converts to 0 in Qt. So the round trip is stated
  only for a saved index.
- RadioGroupBlock.RadioGroup.SetValue: sets each checked flag exactly as the C++ asks. Qt's
  auto-exclusive radio behaviour is not modelled. In Qt, checking one radio unchecks its
  siblings, and the checked radio of an exclusive group ignores a request to uncheck it. So
  with duplicate option values the model can leave several controls checked, and `value()`
  reports the first of them. `SelectExclusive` shows that at most one control is checked when
  the values are distinct. Also, when some radio is checked and `v` matches no option, Qt
  leaves that radio checked, so `value()` keeps the old selection. The model (`SelectValue`,
  `SetValue`) says the selection becomes the null object instead.
- The `toggled` signals that `setChecked` fires inside `__setValue` are not modelled. Only
  explicit `HandleRadioChanged` and `Activate` calls add to the signal log.
