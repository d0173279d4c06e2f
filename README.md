# Pico Lab in Dafny

Pico Lab is a browser-based virtual electronics lab for students and teachers.
A student drags parts (an Arduino Uno, LEDs, a resistor, a battery and so on)
from a component library onto a canvas and wires their pins together. "Run"
evaluates the circuit and writes events into a feedback log. The canvas keeps
an undo/redo history of snapshots. Teachers create exams, which students join
with a six-character code, and then grade the submissions. Students also keep
flashcards and appear on a scoreboard sorted by points. A chat panel answers
questions from a keyword table.

This project models that core and proves its properties:

- **PicoLabStore** (`store.dfy`) is the shared store. It is a `Workspace` class whose
  methods assign its fields. Each list update is first stated as a pure function of the old
  list, then proved about:
  - the newest-first log bounded to 50 messages;
  - the 50-snapshot history with its pointer;
  - the scoreboard merge;
  - the flashcard deck.
- **WorkspaceToolbar** (`toolbar.dfy`) contains:
  - the circuit evaluator, as a loop method proved equal to the function `Simulate`, with
    lemmas on event order, the short-circuit scan, the resistor check and the lit events;
  - delayed effects, returned as a list of `Delayed` actions;
  - the timers' remaining-time formulas, `mm:ss` formatting, match finish, leaving the
    workspace and exam submission.
- **CanvasEditor** (`canvas.dfy`) covers dropping a part, drawing a wire with two pin clicks,
  deleting wires and parts, dragging, and the wire colour rule. It carries the invariant that
  the wire list and its connection list mirror each other entry by entry.
- **ComponentLibrary** (`library.dfy`) holds the constant parts table, the grouping by
  category (a loop method), the category labels and the lookup by type.
- **LibraryPanel**, **TeacherDashboard**, **ExamJoin**, **Flashcards**, **Scoreboard**,
  **FeedbackPanel** and **PinTooltip** model the page logic built on the store.
- **PicoTypes**, **Text**, **Lists** and **Wrappers** are support modules:
  - the records and their string literals;
  - JavaScript string operations on `seq<char>` (`split`, `includes`, `startsWith`, `trim`,
    ASCII case mapping, decimal printing);
  - `filter` and sublists;
  - `Option`/`Result`.

Several modelling choices run through every module:

- **Time.** The clock is an integer parameter `now` in milliseconds. Ids made from it
  (`Date.now().toString()`, `comp-<now>`, `wire-<now>`) are its decimal text.
- **Random codes.** Exam and student codes are parameters.
- **Timers.** A `setTimeout` becomes a returned `Delayed` value that `RunDelayed` applies
  later. An interval tick becomes a method (`ExamTick`, `PlayTick`).
- **Copies.** Snapshots and deep copies are value copies.

Six places where the code behaves in ways one might not expect are modelled as written:

- **Wrong-resistor fault.** It only turns the missing-resistor warning into an error. The LEDs
  are still reported lit.
- **Short-circuit scan.** It splits each key at `-`. Components dropped on the canvas have ids
  `comp-<n>`, so the scan never finds a short on them (`CanvasNeverShorts`). It does find one
  on parts whose ids have no dash (`DirectShortFoundWithPlainId`).
- **Undo.** It restores the snapshot *before* the pointer. After a single push nothing can be
  undone, and one undo after two pushes restores the first snapshot, skipping the second
  (`UndoSkipsLatestEdit`).
- **Deleting a part.** The connections are removed by a prefix test on their keys. When one id
  is a proper prefix of another this removes more than the wires
  (`DeleteComponentPrefixClash`: deleting `comp-1` drops the connection of a wire inside
  `comp-12`).
- **Exam timer.** The interval is set up again only when the mode, the active exam or the
  start time changes, and its callback keeps the canvas of that render. When time runs out
  the submission holds that captured canvas (`examCanvas`), not the current one. A part
  dropped after the exam starts is not in the automatic submission (`DropThenTimeUp`).
- **Joining an exam.** The join modal's `onClose` is the workspace page's close handler,
  which reads the active exam of the render before the join, when there was none. It clears
  the mode, which resets all mode state. A join that passes every check is undone at once:
  no exam, no timer, an empty log, and the dashboard shown (`JoinInWorkspace`).

## Model

| member | source | states |
|---|---|---|
| PicoTypes.ParseRole | src/types/picolab.ts:12 | a string read back as a role is that role's literal |
| PicoTypes.RoleRoundTrip | src/types/picolab.ts:12 | exactly the seven role literals are roles, and each reads back as itself |
| PicoTypes.WireColorNamesDistinct | src/types/picolab.ts:63 | the five wire colour literals are distinct |
| PicoTypes.PinKey | src/components/pico/Canvas.tsx:142-143 | a connection key is the component id, a dash and the pin id: it starts with the id and has `-` right after it |
| PicoTypes.KindRoundTrip | src/types/picolab.ts:133 | exactly the four message kinds are kinds, each read back as itself |
| PicoTypes.MatchNamesDistinct | src/types/picolab.ts:157-164 | the five match statuses and the three results have distinct literals |
| PicoLabStore.Prepend | src/context/PicoLabContext.tsx:160 | the new message is first, the log holds min(n+1, 50) messages, and the rest is the newest part of the old log |
| PicoLabStore.AddAllNewestFirst | src/context/PicoLabContext.tsx:153-161 | after a run of messages the log holds at most 50, the last one added is first, and while nothing is dropped the log is the run reversed followed by the old log |
| PicoLabStore.Push | src/context/PicoLabContext.tsx:218-233 | pushing drops the snapshots after the pointer, appends the snapshot, keeps the last 50, and leaves the pointer on it at min(index+1, 49) |
| PicoLabStore.UndoHistory | src/context/PicoLabContext.tsx:236-247 | undo happens exactly when `canUndo`; it keeps the list, moves the pointer back one and restores the snapshot now under it |
| PicoLabStore.RedoHistory | src/context/PicoLabContext.tsx:250-261 | redo happens exactly when `canRedo`; it keeps the list, moves the pointer forward one and restores the snapshot now under it |
| PicoLabStore.UndoThenRedo | src/context/PicoLabContext.tsx:236-261 | an undo followed by a redo gives back the history and restores the snapshot the pointer was on |
| PicoLabStore.RedoThenUndo | src/context/PicoLabContext.tsx:236-261 | a redo followed by an undo gives back the history |
| PicoLabStore.PushThenUndo | src/context/PicoLabContext.tsx:218-247 | after a push nothing can be redone, and undo restores the snapshot the pointer was on before the push |
| PicoLabStore.PushOnto | src/context/PicoLabContext.tsx:225-233 | below the 50-snapshot limit, with the pointer on the last snapshot, a push appends and advances the pointer |
| PicoLabStore.UndoSkipsLatestEdit | src/context/PicoLabContext.tsx:218-247 | after a single push nothing can be undone; after two pushes undo restores the first snapshot, skipping the second |
| PicoLabStore.Merge | src/context/PicoLabContext.tsx:172-182 | an existing entry's four counters are summed (a missing one counts 0), and every other supplied field overwrites |
| PicoLabStore.FindEntry | src/context/PicoLabContext.tsx:171 | the first position with the code, or -1 exactly when no entry has it |
| PicoLabStore.UpdateBoardEffect | src/context/PicoLabContext.tsx:167-201 | without a profile the board is unchanged; otherwise the first entry with the profile's code is merged and nothing else changes, or a fresh entry is appended |
| PicoLabStore.MergeNothing | src/context/PicoLabContext.tsx:175-182 | an update supplying nothing leaves the entry as it is |
| PicoLabStore.MergeAccumulates | src/context/PicoLabContext.tsx:175-182 | two counter updates add up to one update with the summed counters |
| PicoLabStore.AddCard | src/context/PicoLabContext.tsx:203-211 | the deck keeps its cards and gains one last card with the clock as id and creation time |
| PicoLabStore.RemoveCard | src/context/PicoLabContext.tsx:213-215 | the cards left keep the deck's order; each card with another id stays as often as it occurs, and none with the id remains |
| PicoLabStore.RemoveAbsent | src/context/PicoLabContext.tsx:213-215 | removing an id no card has leaves the deck unchanged |
| PicoLabStore.AddThenRemove | src/context/PicoLabContext.tsx:203-215 | adding a card with a new id and removing that id gives back the deck |
| PicoLabStore.Workspace.constructor | src/context/PicoLabContext.tsx:111-151 | the provider's initial state: no mode, auth view, empty canvas, log, history, records and idle match |
| PicoLabStore.Workspace.SetGraph | src/context/PicoLabContext.tsx:125-127 | the graph is replaced; nothing else changes |
| PicoLabStore.Workspace.SetExams | src/context/PicoLabContext.tsx:119 | the exam list is replaced; nothing else changes |
| PicoLabStore.Workspace.SetSubmissions | src/context/PicoLabContext.tsx:120 | the submission list is replaced; nothing else changes |
| PicoLabStore.Workspace.StartExam | src/components/pico/ExamJoinModal.tsx:51-54 | the exam becomes active with start time `now` and its whole limit remaining, and the exam timer captures the current canvas; the records, canvas, match and log are unchanged |
| PicoLabStore.Workspace.AddFeedback | src/context/PicoLabContext.tsx:153-161 | the log becomes `Prepend(old log, message)`; everything else is kept |
| PicoLabStore.Workspace.ClearFeedback | src/context/PicoLabContext.tsx:163-165 | the log is empty; everything else is kept |
| PicoLabStore.Workspace.UpdateScore | src/context/PicoLabContext.tsx:167-201 | the board becomes `UpdateBoard(old board, profile, u)`; everything else is kept |
| PicoLabStore.Workspace.AddFlashcard | src/context/PicoLabContext.tsx:203-211 | the deck becomes `AddCard(...)`; everything else is kept |
| PicoLabStore.Workspace.RemoveFlashcard | src/context/PicoLabContext.tsx:213-215 | the deck becomes `RemoveCard(...)`; everything else is kept |
| PicoLabStore.Workspace.PushHistory | src/context/PicoLabContext.tsx:218-233 | the history becomes `Push(old history, current graph)` with the pointer on the last snapshot; the graph is kept |
| PicoLabStore.Workspace.Undo | src/context/PicoLabContext.tsx:236-247 | when `UndoHistory` gives a result, the history and graph become it and "Undo performed" is logged; otherwise nothing changes |
| PicoLabStore.Workspace.Redo | src/context/PicoLabContext.tsx:250-261 | when `RedoHistory` gives a result, the history and graph become it and "Redo performed" is logged; otherwise nothing changes |
| PicoLabStore.Workspace.ResetMatchState | src/context/PicoLabContext.tsx:267-269 | the match is idle with no other field; nothing else changes |
| PicoLabStore.Workspace.ClearCanvas | src/context/PicoLabContext.tsx:272-280 | the canvas, simulation flag, fault, selections and history are emptied; the records, mode state and log are kept |
| PicoLabStore.Workspace.ResetWorkspace | src/context/PicoLabContext.tsx:271-283 | an empty canvas and history, and a log holding only "Workspace reset" |
| PicoLabStore.Workspace.ResetAllModeState | src/context/PicoLabContext.tsx:286-306 | no exam, an idle match, an empty canvas, history and log; the records are kept; when an exam or start time is cleared the timer's captured canvas becomes the empty one |
| PicoLabStore.Workspace.SetWorkspaceMode | src/context/PicoLabContext.tsx:309-315 | the mode is set; leaving a mode for a different one first resets all mode state, otherwise nothing else changes; a change of mode makes the exam timer capture the canvas again |
| ComponentLibrary.ArduinoPinsUnique | src/data/componentLibrary.ts:12-41 | the Arduino's pin ids are distinct |
| ComponentLibrary.SmallPinsUnique | src/data/componentLibrary.ts:45-219 | every other part's pin ids are distinct |
| ComponentLibrary.TypesUnique | src/data/componentLibrary.ts:3-220 | no part type occurs twice in the table |
| ComponentLibrary.LedTypeFacts | src/data/componentLibrary.ts:46-107 | a part type contains "led" exactly for the four single LEDs and the RGB LED |
| ComponentLibrary.LedAndResistorTypes | src/data/componentLibrary.ts:46-123 | the LED-typed parts are five output parts, and exactly one part has type "resistor" |
| ComponentLibrary.GetComponentDefinition | src/data/componentLibrary.ts:248-250 | the lookup `FindDefinition` states: the first library part of the type, or none |
| ComponentLibrary.FindDefinition | src/data/componentLibrary.ts:248-250 | the first part of the type, or none exactly when no part has it |
| ComponentLibrary.LookupFindsEntry | src/data/componentLibrary.ts:248-250 | looking a part up by its own type finds that very entry |
| ComponentLibrary.ResistorPins | src/data/componentLibrary.ts:110-123 | looking up `resistor` finds the resistor part, which has an input and an output pin, so no power or ground pin |
| ComponentLibrary.BatteryPins | src/data/componentLibrary.ts:153-165 | looking up `battery-9v` finds the 9V battery, which has exactly one power pin and one ground pin |
| ComponentLibrary.FoundAt | src/data/componentLibrary.ts:248-250 | in a table of distinct types, the lookup finds the entry with that type |
| ComponentLibrary.GetCategoryLabel | src/data/componentLibrary.ts:235-246 | the label lookup `CategoryLabels` states: a key's label, an inherited member, or the string itself |
| ComponentLibrary.CategoryLabels | src/data/componentLibrary.ts:235-246 | each of the seven keys has its own label; a name inherited from `Object.prototype` gives that inherited member; any other string is returned unchanged |
| ComponentLibrary.CategoryOrderSnoc | src/data/componentLibrary.ts:225-230 | one more part adds its category at the end if new, and joins its category's bucket last |
| ComponentLibrary.CategoryOrderKeys | src/data/componentLibrary.ts:222-233 | the grouped keys are distinct and are exactly the categories of the parts |
| ComponentLibrary.NewBucketStep | src/data/componentLibrary.ts:226-228 | a part of an unseen category opens a new bucket at the end |
| ComponentLibrary.PushStep | src/data/componentLibrary.ts:229 | a part of a seen category is pushed onto its bucket, and other buckets are unchanged |
| ComponentLibrary.BucketMembers | src/data/componentLibrary.ts:222-233 | a non-empty bucket belongs to a category some part has |
| ComponentLibrary.GroupByCategory | src/data/componentLibrary.ts:222-233 | the loop builds the grouping: keys in order of first appearance, each holding its parts in table order |
| ComponentLibrary.GetComponentsByCategory | src/data/componentLibrary.ts:222-233 | the library's grouping |
| WorkspaceToolbar.FindComponent | src/components/pico/WorkspaceToolbar.tsx:113-114 | the first component with the id, or none exactly when there is none |
| WorkspaceToolbar.FindPin | src/components/pico/WorkspaceToolbar.tsx:117-118 | a pin of the list with the id, or none when the id is missing or no pin has it |
| WorkspaceToolbar.HasShortCircuit | src/components/pico/WorkspaceToolbar.tsx:110-122 | true exactly when some connection joins a power pin and a ground pin of resolved ends, in either order |
| WorkspaceToolbar.NoShortWithDashedIds | src/components/pico/WorkspaceToolbar.tsx:110-122 | when every component id contains '-', no short is ever found |
| WorkspaceToolbar.ShortFoundWithPlainIds | src/components/pico/WorkspaceToolbar.tsx:110-122 | on a part with a dash-free id, a wire from its power pin to its ground pin is a short |
| WorkspaceToolbar.Leds | src/components/pico/WorkspaceToolbar.tsx:134 | the LEDs are exactly the components whose type contains "led", each as often as on the canvas and in canvas order |
| WorkspaceToolbar.TouchCount | src/components/pico/WorkspaceToolbar.tsx:147-149 | the number of connections with an end starting with the id is at most the number of connections |
| WorkspaceToolbar.WireWithinPartCountsOnce | src/components/pico/WorkspaceToolbar.tsx:147-149 | a wire between two pins of one part counts once for it |
| WorkspaceToolbar.LitNoticesExact | src/components/pico/WorkspaceToolbar.tsx:146-153 | an LED is reported lit exactly when at least two connections touch it |
| WorkspaceToolbar.LitPass | src/components/pico/WorkspaceToolbar.tsx:146-153 | the loop over the LEDs emits, in order, the "lit" events `LitNotices` defines |
| WorkspaceToolbar.Evaluate | src/components/pico/WorkspaceToolbar.tsx:100-161 | the guards and the LED pass together compute `Simulate` |
| WorkspaceToolbar.EmptyCanvasOnlyWarns | src/components/pico/WorkspaceToolbar.tsx:101-104 | with no components the run gives one warning, does not start and schedules nothing |
| WorkspaceToolbar.ShortHaltsEvaluation | src/components/pico/WorkspaceToolbar.tsx:106-131 | a run starts with "Simulation started"; a detected or injected short gives exactly one more event and schedules the stop |
| WorkspaceToolbar.ResistorCheck | src/components/pico/WorkspaceToolbar.tsx:133-153 | without a short, LEDs with no resistor add one warning, or an error under the wrong-resistor fault, before the lit events |
| WorkspaceToolbar.LooseWireOnlySchedules | src/components/pico/WorkspaceToolbar.tsx:155-160 | the loose-wire fault changes no event and adds one delayed warning when there are connections and no short |
| WorkspaceToolbar.UnshortedRun | src/components/pico/WorkspaceToolbar.tsx:133-160 | the whole result of a run without a short |
| WorkspaceToolbar.CleanRun | src/components/pico/WorkspaceToolbar.tsx:133-153 | the result of a run with no short and no loose-wire fault: nothing scheduled |
| WorkspaceToolbar.LoneLedRun | src/components/pico/WorkspaceToolbar.tsx:133-153 | with one LED: the start event, the resistor event if there is no resistor, then the lit event if two connections touch it |
| WorkspaceToolbar.ScenarioTypes | src/components/pico/WorkspaceToolbar.tsx:134-135 | the LED type counts as an LED; the resistor and battery types do not |
| WorkspaceToolbar.ScenarioLeds | src/components/pico/WorkspaceToolbar.tsx:134 | on a battery-and-LED canvas the red LED is the only LED |
| WorkspaceToolbar.SeriesWiring | src/components/pico/WorkspaceToolbar.tsx:147-150 | in the battery, resistor and LED loop two of three wires touch the LED |
| WorkspaceToolbar.DirectWiring | src/components/pico/WorkspaceToolbar.tsx:147-150 | with the LED wired straight across the battery, both wires touch it |
| WorkspaceToolbar.SeriesCanvas | src/components/pico/WorkspaceToolbar.tsx:110-135 | battery, LED and resistor on canvas ids: no short, one LED and a resistor |
| WorkspaceToolbar.BatteryResistorLedLights | src/components/pico/WorkspaceToolbar.tsx:100-161 | the series loop runs with "Simulation started" then the lit event, and nothing else |
| WorkspaceToolbar.BareCanvas | src/components/pico/WorkspaceToolbar.tsx:110-135 | battery and LED on canvas ids: no short, one LED and no resistor |
| WorkspaceToolbar.LedWithoutResistorWarnsAndLights | src/components/pico/WorkspaceToolbar.tsx:133-153 | an LED straight across the battery warns (or errors under the fault) and is still reported lit |
| WorkspaceToolbar.DirectShortMissedWithCanvasId | src/components/pico/WorkspaceToolbar.tsx:110-122 | a battery's own terminals wired together on a `comp-1` id are not seen as a short |
| WorkspaceToolbar.DirectShortFoundWithPlainId | src/components/pico/WorkspaceToolbar.tsx:110-131 | the same wiring on a dash-free id is a short and the run halts with the error |
| WorkspaceToolbar.RunSimulation | src/components/pico/WorkspaceToolbar.tsx:100-161 | logs the run's events in order, sets `isSimulating` when the run starts, returns its delayed effects, and changes no component |
| WorkspaceToolbar.StopSimulation | src/components/pico/WorkspaceToolbar.tsx:163-166 | simulation off and "Simulation stopped" logged; the graph, history, fault, selections, mode state and records are kept |
| WorkspaceToolbar.FormatTime | src/components/pico/WorkspaceToolbar.tsx:243-247 | the timer text `FormatTimeReadsBack` states: minutes padded to at least two digits, a colon and two-digit seconds |
| WorkspaceToolbar.FormatTimeReadsBack | src/components/pico/WorkspaceToolbar.tsx:243-247 | the text is digits, a colon, two digits; it reads back as minutes and seconds below 60, and is five characters exactly below 100 minutes |
| WorkspaceToolbar.PaddedDecimal | src/components/pico/WorkspaceToolbar.tsx:246 | a padded number is all digits, reads back as the number, and is two characters exactly below 100 |
| WorkspaceToolbar.ExamTimeRemaining | src/components/pico/WorkspaceToolbar.tsx:63-64 | never negative, at most the limit, and 0 exactly when the elapsed whole seconds reach the limit |
| WorkspaceToolbar.PlayTimeRemaining | src/components/pico/WorkspaceToolbar.tsx:249-253 | the whole limit (300 by default) before the start, then never negative and at most the limit |
| WorkspaceToolbar.RunDelayed | src/components/pico/WorkspaceToolbar.tsx:126-129 | a fired timer stops the simulation and logs, logs, resets the match, or leaves the workspace, as its action says; the first two keep the graph, history, fault, selections, mode state and records, resetting the match keeps the canvas, exam and log, and leaving gives `LeftWorkspace` |
| WorkspaceToolbar.Leave | src/components/pico/WorkspaceToolbar.tsx:183-185 | all mode state reset, canvas, history, log and selections cleared, no mode, dashboard view; the profile and records are kept |
| WorkspaceToolbar.HandleHome | src/components/pico/WorkspaceToolbar.tsx:172-186 | during a match it only warns and changes nothing else; otherwise it leaves the workspace: no mode, dashboard, everything of the session cleared, the profile and records kept |
| WorkspaceToolbar.HandlePlayFinish | src/components/pico/WorkspaceToolbar.tsx:227-241 | only during a match: the match is won, one win and 10 points are added, and a reset is scheduled after 2 s; the canvas, exam, mode, view and other records are kept |
| WorkspaceToolbar.PlayTick | src/components/pico/WorkspaceToolbar.tsx:82-98 | with no time left the match is lost and "Time's up! Match ended." is logged; otherwise nothing changes; the canvas, exam state and records are kept either way |
| WorkspaceToolbar.HandleExamSubmit | src/components/pico/WorkspaceToolbar.tsx:199-225 | with an exam and a profile the given canvas (the current one from the button, the captured one from the timer) is stored as a submission; success logged, completedTasks set to 1 (not incremented), leaving scheduled after 1.5 s; the canvas, mode state, view, exams and deck are kept |
| WorkspaceToolbar.ExamTick | src/components/pico/WorkspaceToolbar.tsx:60-79 | stores the remaining time; while time is left nothing else changes; at 0 it submits: the canvas the timer captured (`examCanvas`) stored as a submission when there is a profile, completedTasks set to 1, the auto-submit message and leaving scheduled after 1.5 s |
| CanvasEditor.WireColorFor | src/components/pico/Canvas.tsx:156-161 | the colour is never "custom" |
| CanvasEditor.WireColorRule | src/components/pico/Canvas.tsx:156-161 | the colour is symmetric in the two ends: power over ground over digital data, else signal |
| CanvasEditor.Mirror | src/components/pico/Canvas.tsx:141-145 | the connection carries the wire's id and keys starting with its component ids |
| CanvasEditor.MirrorAppend | src/components/pico/Canvas.tsx:140-145 | appending a wire and its connection keeps the lists mirrored |
| CanvasEditor.DeleteWireKeepsMirror | src/components/pico/Canvas.tsx:207-214 | removing a wire by id removes only it and its connection, and the lists stay mirrored |
| PicoTypes.KeyPrefix | src/components/pico/Canvas.tsx:200-201 | when neither id is a proper prefix of the other, a key of `c` starts with `id` exactly when `c` is `id` |
| CanvasEditor.DeleteComponentKeepsMirror | src/components/pico/Canvas.tsx:194-205 | when no wire end's id and the deleted id are proper prefixes of one another, deleting a part keeps the lists mirrored |
| CanvasEditor.DeleteBesideLongerId | src/components/pico/Canvas.tsx:194-205 | deleting `comp-1` keeps a wire inside `comp-23` and its connection: ids of different lengths alone do not break the mirror |
| CanvasEditor.DeleteComponentPrefixClash | src/components/pico/Canvas.tsx:199-202 | deleting `comp-1` drops the connection of a wire inside `comp-12` and keeps the wire |
| CanvasEditor.CanvasId | src/components/pico/Canvas.tsx:51 | a dropped part's id is "comp-" followed by digits |
| CanvasEditor.Placed | src/components/pico/Canvas.tsx:50-64 | the new part has the definition's pins in order, with their ids, names and roles |
| CanvasEditor.LibraryHalvesExact | src/components/pico/Canvas.tsx:47-48 | every part's width and height are even, so the centring is exact |
| CanvasEditor.PlacedLayout | src/components/pico/Canvas.tsx:47-64 | the part has non-negative coordinates, is unrotated and off; its pins are found by id and set 15 apart along the bottom |
| CanvasEditor.CanvasNeverShorts | src/components/pico/WorkspaceToolbar.tsx:110-122 | on parts whose ids start with "comp-", no short is ever found |
| CanvasEditor.DropThenTimeUp | src/components/pico/WorkspaceToolbar.tsx:60-79 | on an empty canvas, a part dropped after the exam starts is on the canvas, yet the automatic submission at time-up has no parts |
| CanvasEditor.Drop | src/components/pico/Canvas.tsx:37-68 | with drag data: snapshot, the placed part appended, "Added ... to canvas" logged; without data nothing changes |
| CanvasEditor.NewWire | src/components/pico/Canvas.tsx:119-147 | a wire is drawn only between pins on the canvas; it has id `wire-<now>`, no points, and the clicked ends |
| CanvasEditor.WireDrawnBetweenCanvasPins | src/components/pico/Canvas.tsx:120-126 | with unique part ids, a wire is drawn exactly when both ends are pins on the canvas |
| CanvasEditor.WireBetween | src/components/pico/Canvas.tsx:119-147 | the drawn wire joins the two pins, is coloured by their roles, and the event names them |
| CanvasEditor.PinClick | src/components/pico/Canvas.tsx:108-154 | first click selects, the same pin again deselects, another pin snapshots and draws the wire; the mirror is kept |
| CanvasEditor.Connect | src/components/pico/Canvas.tsx:116-149 | snapshot, then the wire and its connection appended and logged; a failed lookup keeps the snapshot and the selection |
| CanvasEditor.CanvasClick | src/components/pico/Canvas.tsx:186-192 | both selections cleared, nothing else changes |
| CanvasEditor.DeleteWire | src/components/pico/Canvas.tsx:207-214 | snapshot, the wire and its connection removed, "Wire removed" logged; the mirror is kept |
| CanvasEditor.DeleteComponent | src/components/pico/Canvas.tsx:194-205 | snapshot, the part, its wires and the connections with its prefix removed, "Component removed" logged; the lists stay mirrored when no wire end's id and the part's id are proper prefixes of one another |
| CanvasEditor.Moved | src/components/pico/Canvas.tsx:77-83 | only the dragged part moves, to the new position |
| CanvasEditor.PressComponent | src/components/pico/Canvas.tsx:86-98 | pressing on a part on the canvas selects it; an unknown id changes nothing |
| CanvasEditor.DragTo | src/components/pico/Canvas.tsx:70-84 | while dragging, the part follows the pointer; nothing else changes |
| CanvasEditor.EndDrag | src/components/pico/Canvas.tsx:100-106 | ending a drag snapshots the moved graph |
| CanvasEditor.MoveKeepsRun | src/components/pico/Canvas.tsx:77-83 | dragging a part never changes what "Run" reports or schedules |
| TeacherDashboard.NewExam | src/components/pico/TeacherDashboard.tsx:58-70 | the new exam is open, has the given code, and its limit in seconds is the form's minutes times 60 |
| TeacherDashboard.EndExams | src/components/pico/TeacherDashboard.tsx:96-100 | ending keeps the number of exams and every exam's id and code |
| TeacherDashboard.EndExamsEffect | src/components/pico/TeacherDashboard.tsx:96-100 | the exams with the id are closed and no longer offer "End Exam"; the rest are unchanged; ending twice is ending once |
| TeacherDashboard.ExamSubmissions | src/components/pico/TeacherDashboard.tsx:268 | the listed submissions are exactly those with the exam's code |
| TeacherDashboard.ExamSubmissionsInOrder | src/components/pico/TeacherDashboard.tsx:268 | the list keeps the submissions' order |
| TeacherDashboard.Graded | src/components/pico/TeacherDashboard.tsx:105-109 | grading keeps the number of submissions and each one's exam and student |
| TeacherDashboard.GradedEffect | src/components/pico/TeacherDashboard.tsx:102-113 | only the submission with the id gets the text as typed and the score 85; grading twice is grading once |
| TeacherDashboard.FindStudent | src/components/pico/TeacherDashboard.tsx:76-79 | the first entry with exactly the searched code, or none exactly when none has it |
| TeacherDashboard.Dashboard.constructor | src/components/pico/TeacherDashboard.tsx:41-47 | the form opens empty with a 30-minute limit |
| TeacherDashboard.Dashboard.ToggleComponent | src/components/pico/TeacherDashboard.tsx:87-94 | the part type goes in when absent and out when present |
| TeacherDashboard.Dashboard.CreateExam | src/components/pico/TeacherDashboard.tsx:58-74 | the new exam is appended, and the form is closed and reset; submissions, log, session, scoreboard, deck, canvas and mode state are kept |
| TeacherDashboard.Dashboard.SearchStudent | src/components/pico/TeacherDashboard.tsx:76-79 | the search result is `FindStudent` of the typed code |
| TeacherDashboard.Dashboard.EndExam | src/components/pico/TeacherDashboard.tsx:96-100 | the exam list becomes `EndExams(..., id)`; submissions, log, session, scoreboard, deck, canvas and mode state are kept |
| TeacherDashboard.Dashboard.ViewSubmission | src/components/pico/TeacherDashboard.tsx:339-342 | the submission is opened and the text field holds its feedback, or nothing; the other dashboard fields are kept |
| TeacherDashboard.Dashboard.AddFeedback | src/components/pico/TeacherDashboard.tsx:102-113 | with a submission open and feedback not blank, it grades it and closes it, keeping exams, log, session, scoreboard, deck, canvas and mode state; otherwise nothing changes |
| ExamJoin.FindExam | src/components/pico/ExamJoinModal.tsx:18 | the exam at `ExamIndex`, or none exactly when no exam has the code |
| ExamJoin.ExamIndex | src/components/pico/ExamJoinModal.tsx:18 | the first exam with the code, or -1 exactly when none has it |
| ExamJoin.CheckJoin | src/components/pico/ExamJoinModal.tsx:14-48 | "unknown code" exactly when no exam has the normalised code; a join gives an exam with that code that is open, not past its deadline, and not yet submitted by the student |
| ExamJoin.CheckOrder | src/components/pico/ExamJoinModal.tsx:18-48 | each refusal happens exactly when the checks before it pass and its own fails |
| ExamJoin.DeadlineInclusive | src/components/pico/ExamJoinModal.tsx:26-32 | the exam can still be joined at its deadline, and is expired one millisecond later |
| ExamJoin.NoProfileNoDuplicateCheck | src/components/pico/ExamJoinModal.tsx:39-48 | without a signed-in student, earlier submissions do not matter |
| ExamJoin.NormalizeCode | src/components/pico/ExamJoinModal.tsx:16 | the typed code upper-cased and trimmed, the form `CaseDoesNotMatter` relies on |
| ExamJoin.CaseDoesNotMatter | src/components/pico/ExamJoinModal.tsx:16 | lower- or upper-casing the typed code changes no outcome |
| ExamJoin.JoinableIffEndOffered | src/components/pico/ExamJoinModal.tsx:29-37 | a join is refused as expired or closed exactly when the dashboard does not offer "End Exam" |
| ExamJoin.EndedExamRefused | src/components/pico/ExamJoinModal.tsx:34-37 | once the teacher ends the exam a code finds, that code is refused |
| ExamJoin.GradingKeepsJoin | src/components/pico/ExamJoinModal.tsx:39-48 | grading a submission changes no join outcome |
| ExamJoin.CreatedExamJoinable | src/components/pico/ExamJoinModal.tsx:14-59 | a freshly created exam with a new code can be joined with it until its deadline |
| ExamJoin.JoinModal.constructor | src/components/pico/ExamJoinModal.tsx:11-12 | an empty code and no error |
| ExamJoin.JoinModal.CanSubmit | src/components/pico/ExamJoinModal.tsx:117 | the join button is enabled exactly for a code of six characters |
| ExamJoin.JoinModal.Type | src/components/pico/ExamJoinModal.tsx:88-90 | the field holds the typed text upper-cased |
| ExamJoin.JoinModal.Join | src/components/pico/ExamJoinModal.tsx:14-59 | a refusal sets only its error text; a join starts the exam timer, logs the two messages and sets `closed` for the host's `onClose`, whose effect `JoinInWorkspace` states |
| ExamJoin.CloseExamModal | src/components/pico/Workspace.tsx:33-39 | with no active exam in the render that made it, clears the mode (resetting all mode state when a mode was set) and shows the dashboard; with one, changes nothing |
| ExamJoin.JoinInWorkspace | src/components/pico/ExamJoinModal.tsx:50-58 | in the workspace a refused join only sets the error, and a successful one is undone by `onClose`: the state after leaving the workspace (`LeftWorkspace`), with no exam, an empty log and the dashboard shown |
| Flashcards.Next | src/components/pico/FlashcardsPage.tsx:34 | the next index is a card of the deck |
| Flashcards.Prev | src/components/pico/FlashcardsPage.tsx:39 | the previous index is a card of the deck |
| Flashcards.PrevUndoesNext | src/components/pico/FlashcardsPage.tsx:32-40 | forward then back, or back then forward, returns to the card on show |
| Flashcards.StepsWrap | src/components/pico/FlashcardsPage.tsx:32-35 | k steps forward from the first card show card k mod n |
| Flashcards.RemoveOne | src/context/PicoLabContext.tsx:213-215 | with distinct ids, removing one card's id shortens the deck by one |
| Flashcards.IndexAfterDelete | src/components/pico/FlashcardsPage.tsx:222-229 | the index `DeleteKeepsIndexValid` states stays on a card: the same one, or one back after deleting the last |
| Flashcards.DeleteKeepsIndexValid | src/components/pico/FlashcardsPage.tsx:222-229 | with two or more cards, the index after a delete is a card of the shortened deck |
| Flashcards.FlashcardsView.constructor | src/components/pico/FlashcardsPage.tsx:16-20 | the form is closed and empty, on the first card, face up |
| Flashcards.FlashcardsView.NextCard | src/components/pico/FlashcardsPage.tsx:32-35 | the next card, face up |
| Flashcards.FlashcardsView.PrevCard | src/components/pico/FlashcardsPage.tsx:37-40 | the previous card, face up |
| Flashcards.FlashcardsView.Flip | src/components/pico/FlashcardsPage.tsx:143 | a click on the card turns it over and changes nothing else |
| Flashcards.FlashcardsView.ResetFlip | src/components/pico/FlashcardsPage.tsx:214-220 | the Reset button puts the card face up and changes nothing else |
| Flashcards.FlashcardsView.ShowCard | src/components/pico/FlashcardsPage.tsx:245-248 | a click in the list shows that card, face up |
| Flashcards.FlashcardsView.Add | src/components/pico/FlashcardsPage.tsx:22-30 | when neither side is blank, a card with the trimmed sides is added and the form is cleared and closed, keeping the session, exams, submissions, scoreboard, log, canvas and mode state; otherwise nothing changes |
| Flashcards.FlashcardsView.DeleteCurrent | src/components/pico/FlashcardsPage.tsx:222-229 | the card on show is removed, and deleting the last card steps back to the new last card; the session, exams, submissions, scoreboard, log, canvas and mode state are kept |
| LibraryPanel.Grouped | src/data/componentLibrary.ts:222-233 | the grouping as a value satisfies the grouping's definition |
| LibraryPanel.Narrowed | src/components/pico/ComponentLibraryPanel.tsx:21-28 | a part survives exactly when its lower-cased name or type contains the lower-cased query and the allow-list (if any) has its type |
| LibraryPanel.NarrowedInOrder | src/components/pico/ComponentLibraryPanel.tsx:21-28 | narrowing keeps the bucket's order |
| LibraryPanel.ListedAreNarrowed | src/components/pico/ComponentLibraryPanel.tsx:20-34 | every listed category is a table category with its survivors, never an empty list |
| LibraryPanel.SurvivorsListed | src/components/pico/ComponentLibraryPanel.tsx:20-34 | every category with a survivor is listed with its survivors |
| LibraryPanel.NoFiltersKeepAll | src/components/pico/ComponentLibraryPanel.tsx:20-34 | with an empty query and no allow-list, non-empty buckets are all kept whole |
| LibraryPanel.InOwnBucket | src/data/componentLibrary.ts:225-230 | every part is in its own category's bucket |
| LibraryPanel.EverythingWithoutFilters | src/components/pico/ComponentLibraryPanel.tsx:18-34 | with an empty query and no allow-list the whole grouping is listed |
| LibraryPanel.FilterGroups | src/components/pico/ComponentLibraryPanel.tsx:20-34 | the reduction over the grouped table computes `FilteredGroups` |
| LibraryPanel.FilterCategories | src/components/pico/ComponentLibraryPanel.tsx:18-34 | the panel's list is the narrowed grouping of the library |
| LibraryPanel.LibraryPanelView.constructor | src/components/pico/ComponentLibraryPanel.tsx:14-15 | empty search, and the microcontroller, output and passive categories open |
| LibraryPanel.LibraryPanelView.ToggleCategory | src/components/pico/ComponentLibraryPanel.tsx:36-42 | an open category closes and a closed one opens; no other category changes |
| LibraryPanel.LibraryPanelView.DragStart | src/components/pico/ComponentLibraryPanel.tsx:44-48 | the part becomes the drag data and "Dragging <name>" is logged |
| Lists.ToggleEffect | src/components/pico/ComponentLibraryPanel.tsx:36-42 | after a toggle the item is present exactly when it was absent, and no other item changes membership |
| Lists.ToggleTwiceAbsent | src/components/pico/ComponentLibraryPanel.tsx:36-42 | toggling an absent item twice gives back the list |
| Scoreboard.InsertPermutes | src/components/pico/ScoreboardPage.tsx:8 | insertion adds the entry and nothing else |
| Scoreboard.InsertKeepsDescending | src/components/pico/ScoreboardPage.tsx:8 | insertion into a descending list keeps it descending |
| Scoreboard.InsertStable | src/components/pico/ScoreboardPage.tsx:8 | insertion puts the entry after every entry with its points |
| Scoreboard.SortPermutes | src/components/pico/ScoreboardPage.tsx:8 | the sorted board is a permutation of the board |
| Scoreboard.SortDescending | src/components/pico/ScoreboardPage.tsx:8 | points never increase along the sorted board |
| Scoreboard.SortStable | src/components/pico/ScoreboardPage.tsx:8 | entries with equal points keep their board order, as the stable `Array.prototype.sort` does |
| Scoreboard.Rank | src/components/pico/ScoreboardPage.tsx:9 | the 1-based position of the first entry with the student's code, 0 exactly when signed out or absent |
| Scoreboard.RankByPoints | src/components/pico/ScoreboardPage.tsx:8-9 | everyone ranked ahead has at least the student's points, and everyone with more points is ahead |
| Scoreboard.RankText | src/components/pico/ScoreboardPage.tsx:60 | `#` and the rank, or `#-` for rank 0 (signed out or not on the board) |
| Scoreboard.RankIcon | src/components/pico/ScoreboardPage.tsx:12-19 | ranks 1 to 3 get the crown and the two medals; any other rank shows its number |
| Scoreboard.PodiumDistinct | src/components/pico/ScoreboardPage.tsx:12-19 | the three podium badges are distinct |
| FeedbackPanel.GetIcon | src/components/pico/FeedbackPanel.tsx:31-38 | success, warning and error each get their own icon, and anything else the info icon |
| FeedbackPanel.KindIconsDistinct | src/components/pico/FeedbackPanel.tsx:31-38 | the four message kinds get four different icons |
| FeedbackPanel.MatchIndex | src/components/pico/FeedbackPanel.tsx:59-61 | the first table entry whose key occurs in the message, or -1 exactly when none does |
| FeedbackPanel.Normalize | src/components/pico/FeedbackPanel.tsx:53 | the question trimmed and lower-cased before matching |
| FeedbackPanel.Answer | src/components/pico/FeedbackPanel.tsx:58-61 | the reply `AnswerIsFirstMatch` and `DefaultIffNoQuestionKey` state: the first key found in the question, or the default |
| FeedbackPanel.AnswerIsFirstMatch | src/components/pico/FeedbackPanel.tsx:53-61 | the reply is that of the first key, in declaration order, found in the trimmed lower-cased question |
| FeedbackPanel.EarlierKeyWins | src/components/pico/FeedbackPanel.tsx:14-21 | when two keys occur, the later-declared one does not answer |
| FeedbackPanel.DefaultIffNoQuestionKey | src/components/pico/FeedbackPanel.tsx:59-61 | the default reply comes exactly when none of the five question keys occurs |
| FeedbackPanel.Chat.constructor | src/components/pico/FeedbackPanel.tsx:26-29 | the chat opens with the greeting and an empty field |
| FeedbackPanel.Chat.Submit | src/components/pico/FeedbackPanel.tsx:49-64 | blank input is ignored; otherwise the untrimmed text is appended, the field cleared and the reply scheduled after 500 ms |
| FeedbackPanel.Chat.Deliver | src/components/pico/FeedbackPanel.tsx:58-64 | the scheduled reply is appended |
| PinTooltip.LabelsDistinct | src/components/pico/PinTooltip.tsx:10-21 | each of the seven roles has its own label, never the role's own literal |
| PinTooltip.PinRoleLabel | src/components/pico/PinTooltip.tsx:10-21 | the role label `LabelsDistinct` and `LabelIsTextIffUnknown` state |
| PinTooltip.LabelIsTextIffUnknown | src/components/pico/PinTooltip.tsx:10-21 | the label is the text itself exactly when the text names no role |
| PinTooltip.RoleColor | src/components/pico/PinTooltip.tsx:32-42 | the muted default colour goes exactly to GPIO pins and texts naming no role |
| PinTooltip.ColorsDistinct | src/components/pico/PinTooltip.tsx:32-42 | the six other roles have distinct colours |
| PinTooltip.PinState | src/components/pico/PinTooltip.tsx:23-30 | the state text `StateDependsOnPower` and `GenericPinsReadActivity` state |
| PinTooltip.StateDependsOnPower | src/components/pico/PinTooltip.tsx:23-30 | "Not simulating" exactly when the simulation is off; while simulating, every role but ground reads differently powered and unpowered, and ground reads "0V (GND)" |
| PinTooltip.GenericPinsReadActivity | src/components/pico/PinTooltip.tsx:23-30 | while simulating, analog, input, output and GPIO pins read Active or Inactive |

## Left out

- Rendering: JSX, SVG, CSS and icons. `getIcon` is modelled as an `Icon` value. The wire stroke colours (`getWireStrokeColor`) are presentation only.
- Floating-point geometry: `getPinPosition`, the drag offset, hover state and the Bezier midpoints of wire paths. Pointer positions are integers relative to the canvas, and a drag gives the part's new position directly.
- The exam timer's callback also keeps the student profile of its render. The model submits under the current profile, since no modelled operation changes the profile while an exam runs.
- ComponentLibrary.GetCategoryLabel: an inherited member is modelled by its name only (`InheritedMember`). What it renders as, a function or an object in a text node, is not modelled.
- Real timers: `setInterval` and `setTimeout` are not scheduled. A delayed effect is a returned `Delayed` value with its delay, and an interval tick is a method the caller invokes with the clock.
- Randomness: `generateExamCode` and `generateStudentCode` are not modelled. Codes are parameters.
- Persistence (`useLocalStorage`), `navigator.clipboard`, `confirm` and `JSON.parse(JSON.stringify(...))` deep copies. Snapshots are value copies.
- Date parsing: an exam's `validUntil` field is text, and the exam stores it as an already parsed clock reading. An unparseable date, whose `getTime()` is `NaN` in JavaScript, is not modelled.
- Unicode: `toLowerCase`, `toUpperCase` and `trim` are modelled on ASCII letters and on the common white-space characters.
- `maxLength={6}` on the exam code field: the browser's truncation of typed text is not modelled. `Type` stores the whole text upper-cased.
- PlayMatchModal.tsx: its opponent search and countdown are driven by timers and random picks. Play mode enters the model only through the match state the store holds.
- Navigation glue: AuthScreen.tsx, StudentDashboard.tsx, ProfilePage.tsx, PicoLabApp.tsx, Workspace.tsx apart from `handleExamModalClose` (its title texts and `handlePlayModalClose`), src/pages/Index.tsx, and `handleLeaveExam`.
- `simulationSpeed`, `userMode` and the scoreboard page's `currentUser` statistics display.
- The chat's canned reply texts and greeting: each reply is named by the question it answers.
- Flashcards.FlashcardsView.NextCard: requires a non-empty deck, because the page renders the carousel only then. With no cards, JavaScript's `% 0` gives `NaN`; the same holds for PrevCard.
- Scoreboard.SortStable: `Array.prototype.sort`'s own algorithm is not modelled. The sorted board is specified as the stable descending sort: a permutation, points never increasing, and equal points in board order. `SortByPoints` is proved to be such a sort.
- CanvasEditor.DeleteComponent: promises the wire/connection mirror only when no wire end's id and the deleted id are proper prefixes of one another. When one is, the mirror can break, as `DeleteComponentPrefixClash` shows.
