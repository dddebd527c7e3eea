/**
  The task store inside IkeMatrix's `ContentView`.

  There are four ordered task lists, one per quadrant of the Eisenhower matrix. There is also
  the text typed for a new task and the quadrant picked for it. Each list is saved to
  `UserDefaults` under its own key. Here `UserDefaults.standard` is the `defaults` field, a map
  from key to stored data. A task's fresh UUID is passed to `AddTask` as a parameter, in place
  of the random `UUID()` call.
 */
module Matrix {
  import opened Wrappers
  import opened Tasks

  /** The key-value store: key to encoded data, absent when nothing is stored. */
  type Store = map<string, Json>

  /** One key per quadrant, in quadrant order. */
  const StorageKeys: seq<string> :=
    ["urgentImportant", "notUrgentImportant", "urgentNotImportant", "notUrgentNotImportant"]

  /* ---------- lists: firstIndex(of:) and remove(at:) ---------- */

  /** `Array.firstIndex(of:)`: the first position holding `x`, or None when `x` is absent. */
  method FirstIndexOf<T(==)>(s: seq<T>, x: T) returns (r: Option<nat>)
    ensures r.None? <==> x !in s
    ensures r.Some? ==> r.value < |s| && s[r.value] == x && x !in s[..r.value]
  {
    var i := 0;
    while i < |s|
      invariant 0 <= i <= |s|
      invariant x !in s[..i]
    {
      if s[i] == x {
        return Some(i);
      }
      assert s[..i + 1] == s[..i] + [s[i]];
      i := i + 1;
    }
    assert s[..i] == s;
    return None;
  }

  /** The list with its first occurrence of `x` removed, and unchanged when there is none. */
  function RemoveFirst<T(==)>(s: seq<T>, x: T): seq<T>
  {
    if s == [] then []
    else if s[0] == x then s[1..]
    else [s[0]] + RemoveFirst(s[1..], x)
  }

  /** Removing the first occurrence at `k` cuts out exactly position `k`; the rest keep their order. */
  lemma {:induction false} RemoveFirstAt<T>(s: seq<T>, x: T, k: nat)
    requires k < |s| && s[k] == x && x !in s[..k]
    ensures RemoveFirst(s, x) == s[..k] + s[k + 1..]
  {
    if k > 0 {
      assert s[0] in s[..k];
      assert s[1..][..k - 1] == s[1..k];
      RemoveFirstAt(s[1..], x, k - 1);
      assert s[1..][k..] == s[k + 1..];
      assert [s[0]] + s[1..k] == s[..k];
    }
  }

  /** Removing an absent element changes nothing. */
  lemma {:induction false} RemoveFirstAbsent<T>(s: seq<T>, x: T)
    requires x !in s
    ensures RemoveFirst(s, x) == s
  {
    if s != [] {
      assert s[0] != x;
      assert forall y :: y in s[1..] ==> y in s;
      RemoveFirstAbsent(s[1..], x);
      assert [s[0]] + s[1..] == s;
    }
  }

  /** Exactly one copy of `x` leaves the list when it is present, and nothing else leaves. */
  lemma {:induction false} RemoveFirstCounts<T>(s: seq<T>, x: T)
    ensures multiset(RemoveFirst(s, x)) == multiset(s) - multiset{x}
    ensures |RemoveFirst(s, x)| == if x in s then |s| - 1 else |s|
  {
    if s != [] {
      assert s == [s[0]] + s[1..];
      RemoveFirstCounts(s[1..], x);
    }
  }

  /* ---------- identifiers ---------- */

  /** Every id that occurs in one of the lists. */
  function Ids(lists: seq<seq<TaskItem>>): set<Uuid>
  {
    set q, i | 0 <= q < |lists| && 0 <= i < |lists[q]| :: lists[q][i].id
  }

  /** No id occurs twice, neither inside one list nor across two. */
  predicate DistinctIds(lists: seq<seq<TaskItem>>)
  {
    forall q, i, p, j ::
      0 <= q < |lists| && 0 <= i < |lists[q]| && 0 <= p < |lists| && 0 <= j < |lists[p]| &&
      lists[q][i].id == lists[p][j].id
      ==> q == p && i == j
  }

  /** Appending a task whose id is new keeps the ids distinct. */
  lemma AppendFreshKeepsDistinct(lists: seq<seq<TaskItem>>, q: nat, t: TaskItem)
    requires q < |lists| && DistinctIds(lists) && t.id !in Ids(lists)
    ensures DistinctIds(lists[q := lists[q] + [t]])
  {
    var after := lists[q := lists[q] + [t]];
    forall a, i | 0 <= a < |after| && 0 <= i < |after[a]|
      ensures after[a][i] == if a == q && i == |lists[q]| then t else lists[a][i]
    {
    }
    forall a, i | 0 <= a < |lists| && 0 <= i < |lists[a]|
      ensures lists[a][i].id != t.id
    {
      assert lists[a][i].id in Ids(lists);
    }
  }

  /** Cutting out one position of one list keeps the ids distinct. */
  lemma RemoveAtKeepsDistinct(lists: seq<seq<TaskItem>>, q: nat, k: nat)
    requires q < |lists| && k < |lists[q]| && DistinctIds(lists)
    ensures DistinctIds(lists[q := lists[q][..k] + lists[q][k + 1..]])
  {
    var after := lists[q := lists[q][..k] + lists[q][k + 1..]];
    forall a, i | 0 <= a < |after| && 0 <= i < |after[a]|
      ensures after[a][i] == lists[a][if a == q && i >= k then i + 1 else i]
    {
    }
  }

  /* ---------- persistence ---------- */

  /** Each key of `keys` occurs once. */
  predicate DistinctKeys(keys: seq<string>)
  {
    forall i, j :: 0 <= i < j < |keys| ==> keys[i] != keys[j]
  }

  /** The four keys are pairwise different, so each write lands in its own slot. */
  lemma StorageKeysDistinct()
    ensures DistinctKeys(StorageKeys)
  {
    assert StorageKeys[1][0] != StorageKeys[2][0];
    assert |StorageKeys[0]| != |StorageKeys[1]| && |StorageKeys[0]| != |StorageKeys[2]|;
    assert |StorageKeys[3]| != |StorageKeys[0]|;
    assert |StorageKeys[3]| != |StorageKeys[1]| && |StorageKeys[3]| != |StorageKeys[2]|;
  }

  /** The store after the first `n` writes, `data[i]` under `keys[i]`. */
  function SavedUpTo(store: Store, keys: seq<string>, data: seq<Json>, n: nat): Store
    requires |data| == |keys| && n <= |keys|
  {
    if n == 0 then store
    else SavedUpTo(store, keys, data, n - 1)[keys[n - 1] := data[n - 1]]
  }

  /** After `n` writes under distinct keys, each of the first `n` keys holds its own data. */
  lemma {:induction false} SavedUpToWritten(store: Store, keys: seq<string>, data: seq<Json>, n: nat)
    requires |data| == |keys| && n <= |keys| && DistinctKeys(keys)
    ensures var r := SavedUpTo(store, keys, data, n);
      forall i :: 0 <= i < n ==> keys[i] in r && r[keys[i]] == data[i]
  {
    if n > 0 {
      SavedUpToWritten(store, keys, data, n - 1);
    }
  }

  /** The first `n` writes leave every key outside `keys[..n]` as it was. */
  lemma {:induction false} SavedUpToUntouched(store: Store, keys: seq<string>, data: seq<Json>, n: nat)
    requires |data| == |keys| && n <= |keys|
    ensures var r := SavedUpTo(store, keys, data, n);
      forall key :: key !in keys[..n] ==>
        (key in r <==> key in store) && (key in store ==> r[key] == store[key])
  {
    if n > 0 {
      SavedUpToUntouched(store, keys, data, n - 1);
      assert keys[..n] == keys[..n - 1] + [keys[n - 1]];
    }
  }

  /** The encoded form of each list, in order. */
  function EncodeAll(lists: seq<seq<TaskItem>>): (data: seq<Json>)
    ensures |data| == |lists|
  {
    seq(|lists|, i requires 0 <= i < |lists| => EncodeTasks(lists[i]))
  }

  /** The store after `saveTasks`: each quadrant encoded and written under its own key. */
  function Persisted(store: Store, lists: seq<seq<TaskItem>>): Store
    requires |lists| == |StorageKeys|
  {
    SavedUpTo(store, StorageKeys, EncodeAll(lists), |StorageKeys|)
  }

  /** `saveTasks` writes quadrant `i` under `StorageKeys[i]`, adds no other key and leaves every other key as it was. */
  lemma PersistedSlots(store: Store, lists: seq<seq<TaskItem>>)
    requires |lists| == |StorageKeys|
    ensures var r := Persisted(store, lists);
      r.Keys == store.Keys + set i | 0 <= i < |StorageKeys| :: StorageKeys[i]
    ensures var r := Persisted(store, lists);
      forall i :: 0 <= i < |StorageKeys| ==> r[StorageKeys[i]] == EncodeTasks(lists[i])
    ensures var r := Persisted(store, lists);
      forall key :: key in store && key !in StorageKeys ==> r[key] == store[key]
  {
    StorageKeysDistinct();
    SavedUpToWritten(store, StorageKeys, EncodeAll(lists), |StorageKeys|);
    SavedUpToUntouched(store, StorageKeys, EncodeAll(lists), |StorageKeys|);
    assert StorageKeys[..|StorageKeys|] == StorageKeys;
  }

  /** What one `if let` of `loadTasks` leaves in a quadrant: the decoded list, or the current one when the key is absent or does not decode. */
  function LoadSlot(store: Store, key: string, current: seq<TaskItem>): seq<TaskItem>
  {
    if key in store then
      match DecodeTasks(store[key])
      case Some(decoded) => decoded
      case None => current
    else
      current
  }

  /** Loading a quadrant from a store that `saveTasks` wrote gives back the saved list, whatever the quadrant held. */
  lemma SaveThenLoad(store: Store, lists: seq<seq<TaskItem>>, i: nat, current: seq<TaskItem>)
    requires |lists| == |StorageKeys| && i < |StorageKeys|
    ensures LoadSlot(Persisted(store, lists), StorageKeys[i], current) == lists[i]
  {
    PersistedSlots(store, lists);
  }

  /** Saving twice in a row writes the same store as saving once. */
  lemma SaveIdempotent(store: Store, lists: seq<seq<TaskItem>>)
    requires |lists| == |StorageKeys|
    ensures Persisted(Persisted(store, lists), lists) == Persisted(store, lists)
  {
    var once := Persisted(store, lists);
    var twice := Persisted(once, lists);
    PersistedSlots(store, lists);
    PersistedSlots(once, lists);
    assert forall key :: key in twice <==> key in once;
    forall key | key in twice
      ensures twice[key] == once[key]
    {
      if key !in StorageKeys {
        assert key in once;
      }
    }
  }

  /* ---------- the view's state ---------- */

  class ContentView {
    var urgentImportant: seq<TaskItem>
    var notUrgentImportant: seq<TaskItem>
    var urgentNotImportant: seq<TaskItem>
    var notUrgentNotImportant: seq<TaskItem>

    var newTaskText: string
    var selectedQuadrant: int

    /** `UserDefaults.standard`. */
    var defaults: Store

    /** The four `@State` lists start empty, the text empty and the picker on quadrant 0. */
    constructor (defaults: Store)
      ensures Quadrants() == [[], [], [], []]
      ensures newTaskText == "" && selectedQuadrant == 0 && this.defaults == defaults
    {
      urgentImportant, notUrgentImportant := [], [];
      urgentNotImportant, notUrgentNotImportant := [], [];
      newTaskText, selectedQuadrant := "", 0;
      this.defaults := defaults;
    }

    /** The four lists in quadrant order. */
    function Quadrants(): (q: seq<seq<TaskItem>>)
      reads this`urgentImportant, this`notUrgentImportant
      reads this`urgentNotImportant, this`notUrgentNotImportant
      ensures |q| == |StorageKeys|
    {
      [urgentImportant, notUrgentImportant, urgentNotImportant, notUrgentNotImportant]
    }

    /** What `binding(for: index)` reads: the quadrant's list, or the constant empty list out of range. */
    function Binding(index: int): (r: seq<TaskItem>)
      reads this`urgentImportant, this`notUrgentImportant
      reads this`urgentNotImportant, this`notUrgentNotImportant
      ensures 0 <= index < 4 ==> r == Quadrants()[index]
      ensures !(0 <= index < 4) ==> r == []
    {
      if index == 0 then urgentImportant
      else if index == 1 then notUrgentImportant
      else if index == 2 then urgentNotImportant
      else if index == 3 then notUrgentNotImportant
      else []
    }

    /** A write through `binding(for: index)`: it replaces that quadrant, and a write to the constant binding is dropped. */
    method SetBinding(index: int, tasks: seq<TaskItem>)
      modifies this`urgentImportant, this`notUrgentImportant
      modifies this`urgentNotImportant, this`notUrgentNotImportant
      ensures Quadrants() == if 0 <= index < 4 then old(Quadrants())[index := tasks] else old(Quadrants())
    {
      if index == 0 {
        urgentImportant := tasks;
      } else if index == 1 {
        notUrgentImportant := tasks;
      } else if index == 2 {
        urgentNotImportant := tasks;
      } else if index == 3 {
        notUrgentNotImportant := tasks;
      }
    }

    /** `saveTasks`: encodes each quadrant and writes it under its key, in quadrant order. */
    method SaveTasks()
      modifies this`defaults
      ensures defaults == Persisted(old(defaults), Quadrants())
    {
      var allTasks := [urgentImportant, notUrgentImportant, urgentNotImportant, notUrgentNotImportant];
      ghost var encoded := EncodeAll(allTasks);
      for index := 0 to |allTasks|
        invariant defaults == SavedUpTo(old(defaults), StorageKeys, encoded, index)
      {
        var data := EncodeTasks(allTasks[index]);
        assert data == encoded[index];
        defaults := defaults[StorageKeys[index] := data];
      }
    }

    /** `loadTasks`: each quadrant independently takes what its key decodes to, and keeps its list otherwise. */
    method LoadTasks()
      modifies this`urgentImportant, this`notUrgentImportant
      modifies this`urgentNotImportant, this`notUrgentNotImportant
      ensures urgentImportant == LoadSlot(defaults, StorageKeys[0], old(urgentImportant))
      ensures notUrgentImportant == LoadSlot(defaults, StorageKeys[1], old(notUrgentImportant))
      ensures urgentNotImportant == LoadSlot(defaults, StorageKeys[2], old(urgentNotImportant))
      ensures notUrgentNotImportant == LoadSlot(defaults, StorageKeys[3], old(notUrgentNotImportant))
    {
      if StorageKeys[0] in defaults {
        var decoded := DecodeTasks(defaults[StorageKeys[0]]);
        if decoded.Some? {
          urgentImportant := decoded.value;
        }
      }
      assert urgentImportant == LoadSlot(defaults, StorageKeys[0], old(urgentImportant));
      if StorageKeys[1] in defaults {
        var decoded := DecodeTasks(defaults[StorageKeys[1]]);
        if decoded.Some? {
          notUrgentImportant := decoded.value;
        }
      }
      assert notUrgentImportant == LoadSlot(defaults, StorageKeys[1], old(notUrgentImportant));
      if StorageKeys[2] in defaults {
        var decoded := DecodeTasks(defaults[StorageKeys[2]]);
        if decoded.Some? {
          urgentNotImportant := decoded.value;
        }
      }
      assert urgentNotImportant == LoadSlot(defaults, StorageKeys[2], old(urgentNotImportant));
      if StorageKeys[3] in defaults {
        var decoded := DecodeTasks(defaults[StorageKeys[3]]);
        if decoded.Some? {
          notUrgentNotImportant := decoded.value;
        }
      }
      assert notUrgentNotImportant == LoadSlot(defaults, StorageKeys[3], old(notUrgentNotImportant));
    }

    /**
      `addTask`: empty text changes nothing. Any other text, spaces only included, becomes a
      task with the fresh id at the end of the picked quadrant (dropped when the picker is
      out of range); then the text is cleared and all four quadrants are saved.
     */
    method AddTask(newId: Uuid)
      modifies this`urgentImportant, this`notUrgentImportant
      modifies this`urgentNotImportant, this`notUrgentNotImportant
      modifies this`newTaskText, this`defaults
      ensures old(newTaskText) == "" ==> unchanged(this)
      ensures old(newTaskText) != "" ==>
        Quadrants() ==
          (if 0 <= selectedQuadrant < 4
           then old(Quadrants())[selectedQuadrant := old(Binding(selectedQuadrant)) + [TaskItem(newId, old(newTaskText))]]
           else old(Quadrants())) &&
        newTaskText == "" &&
        defaults == Persisted(old(defaults), Quadrants())
      ensures old(DistinctIds(Quadrants())) && newId !in old(Ids(Quadrants())) ==> DistinctIds(Quadrants())
    {
      if newTaskText == "" {
        return;
      }
      var newTask := TaskItem(newId, newTaskText);
      ghost var before := Quadrants();
      var target := Binding(selectedQuadrant);
      SetBinding(selectedQuadrant, target + [newTask]);
      ghost var after := Quadrants();
      assert after == if 0 <= selectedQuadrant < 4 then before[selectedQuadrant := target + [newTask]] else before;
      if 0 <= selectedQuadrant < 4 && DistinctIds(before) && newId !in Ids(before) {
        AppendFreshKeepsDistinct(before, selectedQuadrant, newTask);
      }
      assert DistinctIds(before) && newId !in Ids(before) ==> DistinctIds(after);
      newTaskText := "";
      SaveTasks();
      assert Quadrants() == after;
    }

    /**
      The trash button of `SectionView` showing quadrant `index`: removes the first task equal
      to `task` (same id and same text) and saves; when there is none, nothing happens.
     */
    method SectionDelete(index: int, task: TaskItem)
      modifies this`urgentImportant, this`notUrgentImportant
      modifies this`urgentNotImportant, this`notUrgentNotImportant
      modifies this`defaults
      ensures task !in old(Binding(index)) ==> unchanged(this)
      ensures task in old(Binding(index)) ==>
        0 <= index < 4 &&
        Quadrants() == old(Quadrants())[index := RemoveFirst(old(Binding(index)), task)] &&
        defaults == Persisted(old(defaults), Quadrants())
      ensures old(DistinctIds(Quadrants())) ==> DistinctIds(Quadrants())
    {
      var tasks := Binding(index);
      var found := FirstIndexOf(tasks, task);
      if found.Some? {
        var i := found.value;
        RemoveFirstAt(tasks, task, i);
        ghost var before := Quadrants();
        if DistinctIds(before) {
          RemoveAtKeepsDistinct(before, index, i);
        }
        SetBinding(index, tasks[..i] + tasks[i + 1..]);
        SaveTasks();
      }
    }
  }

  /** Saving and then loading, as on the next launch, leaves every quadrant as it was, in the same order. */
  method SaveThenLoadRestores(view: ContentView)
    modifies view
    ensures view.Quadrants() == old(view.Quadrants())
    ensures view.newTaskText == old(view.newTaskText) && view.selectedQuadrant == old(view.selectedQuadrant)
  {
    ghost var lists := view.Quadrants();
    ghost var store := view.defaults;
    view.SaveTasks();
    ghost var saved := view.defaults;
    assert saved == Persisted(store, lists);
    SaveThenLoad(store, lists, 0, lists[0]);
    SaveThenLoad(store, lists, 1, lists[1]);
    SaveThenLoad(store, lists, 2, lists[2]);
    SaveThenLoad(store, lists, 3, lists[3]);
    view.LoadTasks();
  }

  /** Text of spaces only passes the guard: it is added as a task, untrimmed. */
  method AddSpacesOnlyTask(view: ContentView, newId: Uuid)
    requires 0 <= view.selectedQuadrant < 4
    modifies view
    ensures view.Binding(view.selectedQuadrant) == old(view.Binding(view.selectedQuadrant)) + [TaskItem(newId, "   ")]
  {
    view.newTaskText := "   ";
    view.AddTask(newId);
  }
}
