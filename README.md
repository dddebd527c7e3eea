# IkeMatrix task store in Dafny

IkeMatrix is a one-screen SwiftUI app that sorts tasks into the four quadrants of the
Eisenhower matrix. Its only logic is in `ContentView`. That logic is a task store: four
ordered lists of `TaskItem`, a text field for the next task, a picker for its quadrant, and
persistence of each list to `UserDefaults` under its own key as JSON. This project models
that store and proves what it does.

- `wrappers.dfy`: `Option`, standing for Swift's `T?`.
- `tasks.dfy` (module `Tasks`): `TaskItem` and its `Codable` form. A UUID is identified with
  its canonical upper-case string. Encoded data is a JSON value tree. The decoder requires
  "id" and "text" string members and a well-formed UUID string in either case, and ignores
  other members. A list decodes only when every element does. The round trip
  `DecodeTasks(EncodeTasks(ts)) == Some(ts)` is proved, not assumed.
- `content_view.dfy` (module `Matrix`): class `ContentView` with the four `@State` lists,
  `newTaskText`, `selectedQuadrant`, and `defaults` standing for `UserDefaults.standard`. Its
  methods are `binding(for:)` (read and write), `addTask`, `saveTasks`, `loadTasks` and the
  delete button of `SectionView`. Each method's postcondition ties the new state to the old
  one. Beside the class are the pure specifications (`RemoveFirst`, `Persisted`, `LoadSlot`)
  and lemmas about them.

The model follows the code of `ContentView.swift`:
- `addTask` rejects only the empty string. Text made only of spaces is added, untrimmed.
- Delete uses `firstIndex(of:)`, so it matches a task on id and text together (synthesized
  `Equatable`), not on id alone. The text is compared code point by code point (see "Left out").
- There is no edit and no move between quadrants.
- A picker value outside 0...3 selects the constant empty binding. The new task is then
  dropped, but the text is still cleared and the store is still saved.

## Model

| member | source | states |
|---|---|---|
| `Tasks.ParseUuid` | IkeMatrix/ContentView.swift:11 | a UUID string parses exactly when it has the 8-4-4-4-12 hex layout, in either case; the result is its upper-case form, so a canonical string parses to itself |
| `Tasks.DecodeTask` | IkeMatrix/ContentView.swift:10-12 | a task decodes if and only if the value is an object whose "id" member is a parsable UUID string and whose "text" member is a string; the task then holds exactly those values |
| `Tasks.EncodeTask` | IkeMatrix/ContentView.swift:10-12 | encoding a task and decoding it gives the same task back (same id, same text) |
| `Tasks.DecodeItems` | IkeMatrix/ContentView.swift:125 | a decoded list has one task per JSON element, in order, each decoded from its element; decoding fails exactly when some element fails |
| `Tasks.EncodeItems` | IkeMatrix/ContentView.swift:116 | a list encodes to one element per task, and those elements decode back to the same list in the same order |
| `Tasks.DecodeTasks` | IkeMatrix/ContentView.swift:124-125 | anything but a JSON array fails to decode; an array decodes exactly as its elements do, so it succeeds if and only if every element decodes |
| `Tasks.EncodeTasks` | IkeMatrix/ContentView.swift:116 | the encoded list is a JSON array of the same length, and decoding it gives back the same tasks in the same order |
| `Tasks.DecodeIgnoresOtherMembers` | IkeMatrix/ContentView.swift:10-12 | any other members beside a task's own "id" and "text" do not stop it from decoding to that task |
| `Tasks.DecodeAcceptsLowerCaseId` | IkeMatrix/ContentView.swift:11 | a lower-case UUID string decodes to the same task as its upper-case form |
| `Matrix.FirstIndexOf` | IkeMatrix/ContentView.swift:166 | `firstIndex(of:)` gives None exactly when the task is absent, and otherwise a position holding an equal task with no equal task before it |
| `Matrix.RemoveFirstAt` | IkeMatrix/ContentView.swift:166-167 | removing the first equal task cuts out exactly that one position, and the tasks before and after it keep their order |
| `Matrix.RemoveFirstAbsent` | IkeMatrix/ContentView.swift:166 | when no task is equal, the list is unchanged |
| `Matrix.RemoveFirstCounts` | IkeMatrix/ContentView.swift:166-167 | exactly one copy of the task leaves the list when it is present, so the length drops by one; otherwise the length is unchanged |
| `Matrix.AppendFreshKeepsDistinct` | IkeMatrix/ContentView.swift:99-100 | appending a task with a new id to one quadrant keeps every id unique across all four quadrants |
| `Matrix.RemoveAtKeepsDistinct` | IkeMatrix/ContentView.swift:167 | removing one task from one quadrant keeps every id unique across all four quadrants |
| `Matrix.StorageKeysDistinct` | IkeMatrix/ContentView.swift:105-110 | the four storage keys are pairwise different |
| `Matrix.SavedUpToWritten` | IkeMatrix/ContentView.swift:115-118 | after the first n loop steps of the save, each of the first n keys holds its own quadrant's data |
| `Matrix.SavedUpToUntouched` | IkeMatrix/ContentView.swift:115-118 | the first n loop steps of the save leave every other key as it was, present or absent |
| `Matrix.PersistedSlots` | IkeMatrix/ContentView.swift:112-119 | a save stores quadrant i encoded under storage key i for all four i; it adds no other key, and every other stored value stays as it was |
| `Matrix.SaveThenLoad` | IkeMatrix/ContentView.swift:112-140 | loading a quadrant from a store that a save wrote gives back exactly the saved list, whatever the quadrant held before |
| `Matrix.SaveIdempotent` | IkeMatrix/ContentView.swift:112-119 | saving the same quadrants twice leaves the same store as saving once |
| `Matrix.ContentView.constructor` | IkeMatrix/ContentView.swift:21-27 | the four lists and the text start empty, and the picker starts at quadrant 0 |
| `Matrix.ContentView.Binding` | IkeMatrix/ContentView.swift:77-85 | indices 0 to 3 read their own quadrant; any other index reads the constant empty list |
| `Matrix.ContentView.SetBinding` | IkeMatrix/ContentView.swift:77-84 | a write through the binding replaces exactly the indexed quadrant; a write at any other index changes no quadrant; no other field changes |
| `Matrix.ContentView.SaveTasks` | IkeMatrix/ContentView.swift:112-120 | the store afterwards is `Persisted` of the old store and the current quadrants; no quadrant changes |
| `Matrix.ContentView.LoadTasks` | IkeMatrix/ContentView.swift:122-140 | each quadrant independently becomes what its own key decodes to; when its key is absent or does not decode, it keeps its old list; the store is not changed |
| `Matrix.ContentView.AddTask` | IkeMatrix/ContentView.swift:97-103 | empty text changes nothing, store included; any other text, even spaces only, appends exactly one task with the given id and that text at the end of the selected quadrant; the other quadrants are unchanged, and an out-of-range selection changes none; the text becomes "" and all four quadrants are saved; a fresh id keeps ids unique |
| `Matrix.ContentView.SectionDelete` | IkeMatrix/ContentView.swift:165-169 | when an equal task (same id and same text) is in the section's quadrant, only its first occurrence is removed, the other quadrants are unchanged and everything is saved; otherwise nothing changes and nothing is saved; ids stay unique |
| `Matrix.SaveThenLoadRestores` | IkeMatrix/ContentView.swift:112-140 | a save followed by a load leaves all four quadrants exactly as they were, in the same order |
| `Matrix.AddSpacesOnlyTask` | IkeMatrix/ContentView.swift:98-100 | text of three spaces passes the guard and is appended unchanged to the selected quadrant |

## Left out

- SwiftUI presentation: `body`, `SectionView` layout, `color(for:)`, `quadrantTitles`, the picker and text field views, `#Preview`. None of these have behaviour to state. `selectedQuadrant` and `newTaskText` are fields that callers set directly, as the picker and text field bindings do.
- `UserDefaults.standard`: modelled as the in-memory `defaults` map. Its own persistence to disk and its other value types are not modelled. A non-`Data` value under a key reads as nil, and nil is handled like data that does not decode, which the model covers.
- JSON bytes: the encoded form is a JSON value tree. The text serialization by `JSONEncoder` and `JSONDecoder`, and number and escape handling, are library internals that are not modelled.
- `UUID()`: random generation is replaced by the `newId` parameter of `AddTask`. Uniqueness of ids is stated as "kept when the new id is fresh", because the source relies on randomness for it.
- `Matrix.ContentView.SaveTasks`: `try? encoder.encode(tasks)` cannot fail for `[TaskItem]`, so the model's encoder is total and the branch that skips a key is never taken.
- `Matrix.ContentView.LoadTasks`: does not claim ids stay unique, because stored data may hold any ids.
- Edit, move between quadrants, and trimming of text: `ContentView.swift` has none of these, so they are not modelled.
- `TaskItem` equality: text is compared code point by code point, not by Unicode canonical equivalence as Swift's `String ==` does. So `firstIndex(of:)` in `SectionDelete` can pick a different task than Swift would. This needs two tasks with the same id whose texts are canonically equivalent but differently encoded, such as a precomposed "é" and "e" followed by a combining accent. Unicode normalisation is not modelled.
- Capture of a stale `task` value by the SwiftUI `ForEach` closure is not modelled. `SectionDelete` takes the task as a parameter.
