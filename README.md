# Shift tracker session model

A Dafny model of the attendance ("docházkový systém") component in `src/App.tsx`.
The component keeps three pieces of state:

- a list of recorded shifts, each a name and a number of seconds;
- an optional open shift, the one being timed or edited;
- a running flag.

A one-second timer adds a second to the open shift while the clock runs.
The user can start a new shift, stop the clock, rename the open shift, save it,
and reopen a recorded shift.
The component also defines a handler that raises a recorded shift's time by hand (`handleTimeChange`), but nothing in its markup calls it.
`ShiftTracker.ChangeTime` therefore models a command the user interface never issues.
Saving merges by name: the first recorded shift with the same name is replaced whole, otherwise the shift is appended.
Each recorded time is rendered as "H hodin M minut S sekund", "M minut S sekund" or "S sekund".

Modules:

- `Wrappers`: the `Option` type used for the open shift (`Shift | null`).
- `ShiftStore`: the `Shift` record, the name lookup (`findIndex`), the save merge and the manual time clamp, all as functions on `seq<Shift>`.
  Lemmas cover what a save records, name distinctness, saving twice under one name, and the clamp.
- `Duration`: the seconds-to-text rendering, the decimal rendering of non-negative integers (what JavaScript template literals print for integers below 2^53), and an inverse parser.
  Lemmas cover the hour/minute/second decomposition, which form is used when, that the text reads back as the same seconds, and the three worked renderings.
- `Tracker`: the class `ShiftTracker` with the three state fields and one method per handler.
  Each method states the whole new state in terms of the old one and the `ShiftStore` functions.
  It also holds the button-enabling conditions as predicates, the invariant "running implies an open shift", and three client methods that replay usage scenarios.

Saving twice under one name replaces the entry the first save made.
It never appends a second entry, and the list keeps the length it had after the first save, whatever its size before.
`ShiftStore.MergeSameNameTwice` proves that.

## Model

| member | source | states |
|---|---|---|
| ShiftStore.FindIndex | src/App.tsx:52-54 | -1 exactly when no entry has the name, otherwise the index of the first entry with that name |
| ShiftStore.Merge | src/App.tsx:51-61 | when a recorded entry has the shift's name, the first such entry is replaced whole by the shift, every other index keeps its entry and the length is unchanged; otherwise the shift is appended |
| ShiftStore.MergeRecordsShift | src/App.tsx:52-60 | after a save the saved shift is in the list, and the set of names grows by exactly the saved name |
| ShiftStore.MergeKeepsNamesDistinct | src/App.tsx:52-60 | if recorded names are pairwise distinct before a save, they are after it |
| ShiftStore.MergeSameNameTwice | src/App.tsx:52-60 | two saves under the same name leave what the second save alone leaves; the second save does not grow the list |
| ShiftStore.MergeThenFind | src/App.tsx:52-60 | after a save, looking the saved name up finds exactly the saved shift |
| ShiftStore.RaiseTime | src/App.tsx:73-79 | the entry's time becomes the new time only if that is strictly larger, otherwise the entry is unchanged; names, length and all other entries are unchanged |
| ShiftStore.RaiseTimeKeepsNames | src/App.tsx:73-79 | a time edit keeps the set of names and their distinctness |
| ShiftStore.RaiseTimeIdempotent | src/App.tsx:75-77 | repeating the same time edit changes nothing more, and the edited time never decreases |
| Tracker.Advance | src/App.tsx:23-28 | one tick adds exactly one second to an open shift and keeps its name; with no open shift there stays none |
| Tracker.AdvanceByAdds | src/App.tsx:22-29 | n ticks add exactly n seconds to the open shift and never touch its name |
| Tracker.ShiftTracker.constructor | src/App.tsx:11-13 | no shifts, no open shift, not running |
| Tracker.ShiftTracker.Tick | src/App.tsx:20-29 | the open shift advances by one second only while running with an open shift; the list and the flag are unchanged |
| Tracker.ShiftTracker.Start | src/App.tsx:40-43 | the open shift becomes the empty shift of zero seconds, whatever was open before, and the clock runs; the list is unchanged |
| Tracker.ShiftTracker.Stop | src/App.tsx:45-47 | the clock stops; the open shift and the list are unchanged |
| Tracker.ShiftTracker.Save | src/App.tsx:49-64 | with an open shift the list becomes the merge of the old list with it and the open shift is cleared; with none nothing changes; the flag is unchanged, and saving while stopped keeps the invariant |
| Tracker.ShiftTracker.Edit | src/App.tsx:66-69 | the open shift becomes exactly the given shift and the clock runs; the list is unchanged |
| Tracker.ShiftTracker.ChangeTime | src/App.tsx:71-82 | the list becomes the clamped time edit of the old list at the index, the edited entry becomes the open shift and the clock runs |
| Tracker.ShiftTracker.Rename | src/App.tsx:94-96 | the open shift's name becomes the typed text and its time is kept; list and flag unchanged |
| Tracker.RecordNewShift | src/App.tsx:40-64 | start, three ticks, rename to "Ana", stop and save leave exactly one entry "Ana" of 3 seconds |
| Tracker.ReopenAndSave | src/App.tsx:49-69 | reopening "Ana", two more ticks, stop and save replace the entry: the list is exactly "Ana" of 5 seconds |
| Tracker.LowerTimeIgnored | src/App.tsx:71-82 | lowering a recorded time from 20 to 10 is dropped, yet the entry is reopened and the clock runs |
| Tracker.ShiftTracker.Valid | src/App.tsx:21 | the intended states, where running implies an open shift; in them the interval is registered exactly while running |
| Tracker.ShiftTracker.Ticking | src/App.tsx:21 | the interval's registration condition; while it holds, a firing has an open shift to advance and strictly raises its time |
| Tracker.ShiftTracker.StartEnabled | src/App.tsx:87-113 | the "add shift" button is shown and enabled; then the state is an intended one and the interval is not registered |
| Tracker.ShiftTracker.StopEnabled | src/App.tsx:87-104 | the stop button is shown and enabled exactly when the interval is registered, and then the state is an intended one |
| Tracker.ShiftTracker.SaveEnabled | src/App.tsx:87-107 | the save button is shown and enabled; then the state is an intended one and the interval is not registered |
| Duration.Format | src/App.tsx:119-123 | the text always ends in " sekund"; the lemmas below carry the rest of its contract (the three forms, the round trip, the examples) |
| Duration.ToClock | src/App.tsx:119-120 | minutes and seconds are below 60 and hours*3600 + minutes*60 + seconds equals the total |
| Duration.Decimal | src/App.tsx:120-123 | a number renders as a non-empty run of digits with no leading zero; 0 renders as exactly "0" |
| Duration.DecimalRoundTrip | src/App.tsx:120-123 | the digits read back as the same number |
| Duration.FormatWords | src/App.tsx:119-123 | the hour form shows the hour decomposition; the minute form shows t/60 and t%60; the seconds form shows t |
| Duration.FormatForm | src/App.tsx:119-123 | the text always ends in "sekund"; it mentions hours iff t >= 3600 and minutes iff t >= 60 |
| Duration.FormatRoundTrip | src/App.tsx:119-123 | the rendered text reads back as the same number of seconds |
| Duration.FormatInjective | src/App.tsx:119-123 | two different numbers of seconds never render as the same text |
| Duration.FormatMinutesExample | src/App.tsx:121-122 | 125 seconds render as "2 minut 5 sekund" |
| Duration.FormatHoursExample | src/App.tsx:119-120 | 3661 seconds render as "1 hodin 1 minut 1 sekund" |
| Duration.FormatSecondsExample | src/App.tsx:123 | 45 seconds render as "45 sekund" |

The button conditions at src/App.tsx:87, 102, 105 and 110 are the predicates `StartEnabled`, `StopEnabled` and `SaveEnabled` of `ShiftTracker`.
The invariant `Valid` says that running implies an open shift; each enabling condition implies it.
Start, Stop, Edit and ChangeTime establish it outright.
Tick and Rename preserve it.
Save preserves it when called while stopped, as the save button's condition requires.

## Left out

- Rendering, JSX, `useId`, CSS and React's `useState`/`useRef` machinery: the state is three plain fields.
- The `setInterval`/`clearInterval` registration, real one-second timing and the effect's re-registration and cleanup: a timer firing is the `Tick` method, which acts only in the state where the interval is registered.
- The `parseInt(..., 10) || 0` coercion of the typed time: `ChangeTime` takes the already coerced integer.
- JavaScript object aliasing in `handleTimeChange`: the in-place write to a shared entry object and the read of `shifts[index]` through a stale closure are modelled by their intended result, the open shift equals the updated entry.
- Tracker.ShiftTracker.ChangeTime: requires a valid index; out of range the source fails on `undefined.time`, which the model does not represent.
- Tracker.ShiftTracker.Rename: requires an open shift; the name field exists only when one is open, and the model does not represent the time-less object JavaScript would build from `null`.
- `time` is a JavaScript `number` modelled as `nat`, which matches the program only for integer times below 2^53. Not modelled: loss of precision in `time + 1` from 2^53 on; the rounded digits a template literal prints between 2^53 and 10^21 (`${2**60}` is "1152921504606847000"); the exponent form from 10^21 on ("1e+21"); and an `Infinity` time, which `parseInt` returns when the typed digits exceed `Number.MAX_VALUE` (about 1.8 × 10^308, for example any 310-digit string without leading zeros), rendered as "Infinity hodin NaN minut NaN sekund". Times that large can come from `parseInt` in `handleTimeChange`.
- The inline display of the open shift's seconds (`currentShift?.time || 0`) is rendering only.
- `Duration.Parse` has no counterpart in the program; it exists only as the inverse that the round-trip lemma uses.
