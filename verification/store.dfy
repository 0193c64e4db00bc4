/**
 * Local storage as four optional keys, the first-run defaults written on
 * load, and the dashboard counts.
 */
module Store {
  import opened Basics
  import opened Seqs
  import opened Library
  import opened Templates
  import opened Tasks

  datatype Settings = Settings(
    defaultTitleLength: int,
    defaultSloganCount: int,
    defaultSaveToLibrary: bool,
    titleStyle: string,
    sloganStyle: string,
    imageStyle: string,
    language: string,
    theme: string)

  const DefaultSettings: Settings :=
    Settings(30, 2, true, "concise", "feature", "minimalist", "zh-CN", "chiikawa")

  /** The four storage keys; `None` is a key that was never written. */
  datatype Storage = Storage(
    templates: Option<seq<Template>>,
    library: Option<seq<LibraryItem>>,
    tasks: Option<seq<Task>>,
    settings: Option<Settings>)

  const EmptyStorage: Storage := Storage(None, None, None, None)

  /** What a reader gets for each list: a missing key reads as `[]`. */
  function StoredTemplates(st: Storage): seq<Template> {
    st.templates.GetOr([])
  }

  function StoredLibrary(st: Storage): seq<LibraryItem> {
    st.library.GetOr([])
  }

  function StoredTasks(st: Storage): seq<Task> {
    st.tasks.GetOr([])
  }

  /** `loadData`: every missing key is written with its default, every
      present key is kept as it is. */
  function LoadData(st: Storage): (r: Storage)
    ensures r.templates.Some? && r.library.Some? && r.tasks.Some? && r.settings.Some?
    ensures st.templates.Some? ==> r.templates == st.templates
    ensures st.library.Some? ==> r.library == st.library
    ensures st.tasks.Some? ==> r.tasks == st.tasks
    ensures st.settings.Some? ==> r.settings == st.settings
    ensures st.templates.None? ==> r.templates == Some([])
    ensures st.library.None? ==> r.library == Some([])
    ensures st.tasks.None? ==> r.tasks == Some([])
    ensures st.settings.None? ==> r.settings == Some(DefaultSettings)
    ensures StoredTemplates(r) == StoredTemplates(st) && StoredLibrary(r) == StoredLibrary(st)
    ensures StoredTasks(r) == StoredTasks(st)
  {
    Storage(
      Some(st.templates.GetOr([])),
      Some(st.library.GetOr([])),
      Some(st.tasks.GetOr([])),
      Some(st.settings.GetOr(DefaultSettings)))
  }

  /** Loading twice is loading once. */
  lemma LoadDataIdempotent(st: Storage)
    ensures LoadData(LoadData(st)) == LoadData(st)
  {
  }

  datatype Stats = Stats(totalProducts: nat, totalDrafts: nat, totalTemplates: nat, activeTasks: nat)

  /** A task counts as active while its stored status string is "pending"
      or "processing". */
  predicate IsActive(t: Task) {
    StatusName(t.status) == "pending" || StatusName(t.status) == "processing"
  }

  /** Whether a task counts depends only on its stored status string, so a
      status written as `Other("pending")` counts like `Pending`. */
  lemma ActiveBySpelling(t: Task)
    ensures IsActive(t) <==> IsActive(t.(status := ParseStatus(StatusName(t.status))))
    ensures t.status == Other("pending") || t.status == Other("processing") ==> ActiveTasks([t]) == 1
  {
  }

  /** The number of tasks that are pending or processing. */
  function ActiveTasks(tasks: seq<Task>): (n: nat)
    ensures n == |set k | 0 <= k < |tasks| && IsActive(tasks[k])|
    ensures n <= |tasks|
    ensures n == |tasks| <==> forall k :: 0 <= k < |tasks| ==> IsActive(tasks[k])
  {
    CountAll(tasks, IsActive);
    CountIndices(tasks, IsActive);
    assert Positions(tasks, IsActive) == set k | 0 <= k < |tasks| && IsActive(tasks[k]);
    Count(tasks, IsActive)
  }

  /** The dashboard: library size, twice that as the (approximate) draft
      count, template count and active task count. */
  function ComputeStats(st: Storage): (r: Stats)
    ensures r.totalProducts == |StoredLibrary(st)|
    ensures r.totalDrafts == 2 * r.totalProducts
    ensures r.totalTemplates == |StoredTemplates(st)|
    ensures r.activeTasks == |set k | 0 <= k < |StoredTasks(st)| && IsActive(StoredTasks(st)[k])|
    ensures r.activeTasks <= |StoredTasks(st)|
    ensures r.activeTasks == |StoredTasks(st)| <==> forall k :: 0 <= k < |StoredTasks(st)| ==> IsActive(StoredTasks(st)[k])
  {
    var library := StoredLibrary(st);
    Stats(|library|, |library| * 2, |StoredTemplates(st)|, ActiveTasks(StoredTasks(st)))
  }

  /** On first run every count is zero and the template list is empty. */
  lemma FirstRun()
    ensures ComputeStats(LoadData(EmptyStorage)) == Stats(0, 0, 0, 0)
    ensures QueryTemplates(StoredTemplates(LoadData(EmptyStorage)), "", ShowAll) == []
  {
  }

  /** A new task is active, so it raises the active count by one. */
  lemma {:induction false} ActiveAfterAdd(tasks: seq<Task>, id: string, date: string, created: Timestamp, updated: Timestamp)
    ensures ActiveTasks(AddTask(tasks, id, date, created, updated)) == ActiveTasks(tasks) + 1
  {
    var r := AddTask(tasks, id, date, created, updated);
    assert r == [r[0]] + tasks;
    assert Filter(r, IsActive) == [r[0]] + Filter(tasks, IsActive);
  }

  /** Deleting never raises the active count. */
  lemma ActiveAfterDelete(tasks: seq<Task>, id: string)
    ensures ActiveTasks(DeleteTask(tasks, id)) <= ActiveTasks(tasks)
  {
    CountAfterFilter(tasks, (t: Task) => t.id != id, IsActive);
  }

  /** Starting or pausing leaves the task active: the count rises by one
      exactly when the task found was completed, failed or unknown. */
  lemma ActiveAfterStartOrPause(tasks: seq<Task>, id: string, now: Timestamp)
    ensures var found := FindTaskIndex(tasks, id);
            var bump := if found.Some? && !IsActive(tasks[found.value]) then 1 else 0;
            && ActiveTasks(StartTask(tasks, id, now)) == ActiveTasks(tasks) + bump
            && ActiveTasks(PauseTask(tasks, id, now)) == ActiveTasks(tasks) + bump
  {
    match FindTaskIndex(tasks, id)
    case None =>
    case Some(i) =>
      CountUpdate(tasks, i, tasks[i].(status := Processing, updatedAt := now), IsActive);
      CountUpdate(tasks, i, tasks[i].(status := Pending, updatedAt := now), IsActive);
  }
}
