/**
 * The task registry: creation at the front, start and pause of the first
 * task with an id, deletion of every task with an id, the status labels,
 * and the searched, filtered, newest-first task list.
 */
module Tasks {
  import opened Basics
  import opened Text
  import opened Seqs

  /** A stored status string; `Other` keeps any string outside the four
      known ones. */
  datatype Status = Pending | Processing | Completed | Failed | Other(raw: string)

  /** The page's lookup table from stored status to label. */
  const StatusLabels: map<string, string> :=
    map["pending" := "待处理", "processing" := "处理中", "completed" := "已完成", "failed" := "失败"]

  /** The string stored in a task's `status` field. */
  function StatusName(s: Status): string {
    match s
    case Pending => "pending"
    case Processing => "processing"
    case Completed => "completed"
    case Failed => "failed"
    case Other(raw) => raw
  }

  /** A status in its one canonical form: `Other` never spells a known name. */
  predicate Canonical(s: Status) {
    s.Other? ==> s.raw !in StatusLabels.Keys
  }

  /** Reads a stored status string. */
  function ParseStatus(x: string): (s: Status)
    ensures StatusName(s) == x
    ensures Canonical(s)
  {
    if x == "pending" then Pending
    else if x == "processing" then Processing
    else if x == "completed" then Completed
    else if x == "failed" then Failed
    else Other(x)
  }

  /** Storing and re-reading a canonical status gives it back. */
  lemma StatusRoundTrip(s: Status)
    requires Canonical(s)
    ensures ParseStatus(StatusName(s)) == s
  {
  }

  /** `getStatusText`: the label of a known status, or the raw string of
      an unknown one. */
  function StatusText(s: Status): (r: string)
    ensures s.Other? ==> r == s.raw
    ensures !s.Other? ==> r in StatusLabels.Values
    ensures Canonical(s) && !s.Other? ==> r != StatusName(s)
    ensures Canonical(s) ==>
      r == if StatusName(s) in StatusLabels then StatusLabels[StatusName(s)] else StatusName(s)
  {
    assert !s.Other? ==> StatusLabels[StatusName(s)] in StatusLabels.Values;
    match s
    case Pending => "待处理"
    case Processing => "处理中"
    case Completed => "已完成"
    case Failed => "失败"
    case Other(raw) => raw
  }

  /** On a stored status string, the label is the table's entry or the
      string itself. */
  lemma StatusTextOfStored(x: string)
    ensures StatusText(ParseStatus(x)) == if x in StatusLabels then StatusLabels[x] else x
  {
  }

  /** Different known statuses never share a label. */
  lemma StatusTextInjective(a: Status, b: Status)
    requires !a.Other? && !b.Other? && a != b
    ensures StatusText(a) != StatusText(b)
  {
  }

  datatype Task = Task(
    id: string,
    name: string,
    description: string,
    productCount: nat,
    status: Status,
    createdAt: Timestamp,
    updatedAt: Timestamp)

  const NewTaskPrefix: string := "新任务-"
  const NewTaskDescription: string := "请填写任务描述"

  function TaskId(t: Task): string {
    t.id
  }

  /** A new task goes in front of the others: pending, no products,
      named after the date, stamped with the two clock readings the page
      takes for its creation and update times; a fresh id keeps ids
      unique. */
  function AddTask(tasks: seq<Task>, id: string, date: string, created: Timestamp, updated: Timestamp): (r: seq<Task>)
    ensures |r| == |tasks| + 1 && r[1..] == tasks
    ensures r[0].id == id && r[0].status == Pending && r[0].productCount == 0
    ensures r[0].createdAt == created && r[0].updatedAt == updated
    ensures r[0].name == NewTaskPrefix + date && r[0].description == NewTaskDescription
    ensures DistinctKeys(tasks, TaskId) && (forall k :: 0 <= k < |tasks| ==> tasks[k].id != id)
            ==> DistinctKeys(r, TaskId)
  {
    [Task(id, NewTaskPrefix + date, NewTaskDescription, 0, Pending, created, updated)] + tasks
  }

  /** `tasks.findIndex(t => t.id === id)`, with `None` for -1. */
  function FindTaskIndex(tasks: seq<Task>, id: string): (r: Option<nat>)
    ensures r.Some? ==> IsFirstWithKey(tasks, TaskId, id, r.value)
    ensures r.None? <==> forall k :: 0 <= k < |tasks| ==> tasks[k].id != id
  {
    if tasks == [] then None
    else if tasks[0].id == id then Some(0)
    else match FindTaskIndex(tasks[1..], id)
      case None => None
      case Some(i) => Some(i + 1)
  }

  /** Sets the status and update time of the first task with this id. */
  function SetStatus(tasks: seq<Task>, id: string, status: Status, now: Timestamp): (r: seq<Task>)
    ensures |r| == |tasks|
    ensures forall j :: 0 <= j < |tasks| ==>
      r[j] == if IsFirstWithKey(tasks, TaskId, id, j) then tasks[j].(status := status, updatedAt := now) else tasks[j]
  {
    match FindTaskIndex(tasks, id)
    case None => tasks
    case Some(i) => tasks[i := tasks[i].(status := status, updatedAt := now)]
  }

  /** Starting makes the first task with this id processing and stamps it;
      every other task, and every other field, stays; an absent id
      changes nothing. */
  function StartTask(tasks: seq<Task>, id: string, now: Timestamp): (r: seq<Task>)
    ensures |r| == |tasks|
    ensures forall j :: 0 <= j < |tasks| ==>
      r[j] == if IsFirstWithKey(tasks, TaskId, id, j) then tasks[j].(status := Processing, updatedAt := now) else tasks[j]
    ensures (forall k :: 0 <= k < |tasks| ==> tasks[k].id != id) ==> r == tasks
  {
    SetStatus(tasks, id, Processing, now)
  }

  /** Pausing makes the first task with this id pending and stamps it;
      every other task, and every other field, stays; an absent id
      changes nothing. */
  function PauseTask(tasks: seq<Task>, id: string, now: Timestamp): (r: seq<Task>)
    ensures |r| == |tasks|
    ensures forall j :: 0 <= j < |tasks| ==>
      r[j] == if IsFirstWithKey(tasks, TaskId, id, j) then tasks[j].(status := Pending, updatedAt := now) else tasks[j]
    ensures (forall k :: 0 <= k < |tasks| ==> tasks[k].id != id) ==> r == tasks
  {
    SetStatus(tasks, id, Pending, now)
  }

  /** Deleting removes every task with this id and keeps the rest in order. */
  function DeleteTask(tasks: seq<Task>, id: string): (r: seq<Task>)
    ensures forall t :: t in r <==> t in tasks && t.id != id
    ensures forall t :: multiset(r)[t] == if t.id != id then multiset(tasks)[t] else 0
    ensures forall k :: 0 <= k < |r| ==> r[k].id != id
    ensures IsSubsequence(r, tasks)
    ensures (forall k :: 0 <= k < |tasks| ==> tasks[k].id != id) ==> r == tasks
  {
    var keep := (t: Task) => t.id != id;
    FilterIsSubsequence(tasks, keep);
    FilterMultiset(tasks, keep);
    var r := Filter(tasks, keep);
    assert forall k :: 0 <= k < |r| ==> r[k].id != id by {
      forall k | 0 <= k < |r| ensures r[k].id != id {
        assert r[k] in r;
      }
    }
    r
  }

  /** Newest first. */
  predicate SortedNewestFirst(s: seq<Task>) {
    forall i, j :: 0 <= i < j < |s| ==> s[i].createdAt >= s[j].createdAt
  }

  /** Puts `x` in front of the first task that is not newer than it. */
  function Insert(x: Task, s: seq<Task>): (r: seq<Task>)
    requires SortedNewestFirst(s)
    ensures SortedNewestFirst(r)
    ensures |r| == |s| + 1
    ensures multiset(r) == multiset(s) + multiset{x}
  {
    if s == [] || s[0].createdAt <= x.createdAt then
      PrependNewest(x, s);
      [x] + s
    else
      var rest := Insert(x, s[1..]);
      assert s == [s[0]] + s[1..];
      assert multiset([s[0]] + rest) == multiset{s[0]} + multiset(s[1..]) + multiset{x};
      PrependSorted(s[0], x, s[1..], rest);
      [s[0]] + rest
  }

  /** A task no older than the head of a sorted list may go in front. */
  lemma PrependNewest(x: Task, s: seq<Task>)
    requires SortedNewestFirst(s)
    requires s == [] || s[0].createdAt <= x.createdAt
    ensures SortedNewestFirst([x] + s)
  {
  }

  /** A task no older than `x` and than every task of `tail` may head any
      sorted arrangement of `tail` with `x`. */
  lemma PrependSorted(h: Task, x: Task, tail: seq<Task>, rest: seq<Task>)
    requires SortedNewestFirst([h] + tail) && SortedNewestFirst(rest)
    requires x.createdAt < h.createdAt
    requires multiset(rest) == multiset(tail) + multiset{x}
    ensures SortedNewestFirst([h] + rest)
  {
    forall k | 0 <= k < |rest| ensures rest[k].createdAt <= h.createdAt {
      assert rest[k] in multiset(tail) + multiset{x};
      if rest[k] != x {
        assert rest[k] in multiset(tail);
        assert rest[k] in tail;
        var i :| 0 <= i < |tail| && tail[i] == rest[k];
        var ht := [h] + tail;
        assert ht[0] == h && ht[i + 1] == rest[k];
        assert ht[0].createdAt >= ht[i + 1].createdAt;
      }
    }
  }

  /** The list's order: newest first, ties kept in stored order (the
      comparator sort of the page is stable). */
  function SortNewestFirst(s: seq<Task>): (r: seq<Task>)
    ensures SortedNewestFirst(r)
    ensures multiset(r) == multiset(s)
  {
    if s == [] then []
    else
      assert s == [s[0]] + s[1..];
      Insert(s[0], SortNewestFirst(s[1..]))
  }

  /** Selects the tasks created at one instant. */
  function CreatedAt(k: Timestamp): Task -> bool {
    (t: Task) => t.createdAt == k
  }

  lemma {:induction false} InsertStable(x: Task, s: seq<Task>, k: Timestamp)
    requires SortedNewestFirst(s)
    ensures Filter(Insert(x, s), CreatedAt(k)) ==
            (if x.createdAt == k then [x] else []) + Filter(s, CreatedAt(k))
  {
    var p := CreatedAt(k);
    if s == [] || s[0].createdAt <= x.createdAt {
      assert Insert(x, s) == [x] + s;
      FilterCons(x, s, p);
    } else {
      var rest := Insert(x, s[1..]);
      assert Insert(x, s) == [s[0]] + rest;
      InsertStable(x, s[1..], k);
      FilterCons(s[0], rest, p);
      FilterCons(s[0], s[1..], p);
      assert s == [s[0]] + s[1..];
      var head := if p(s[0]) then [s[0]] else [];
      var tail := Filter(s[1..], p);
      if x.createdAt == k {
        assert head == [];
        assert [] + ([x] + tail) == [x] + tail;
        assert Filter(Insert(x, s), p) == [x] + tail;
        assert [] + tail == tail;
        assert Filter(s, p) == tail;
      } else {
        assert [] + tail == tail;
        assert Filter(Insert(x, s), p) == head + tail;
        assert Filter(s, p) == head + tail;
        assert Filter(Insert(x, s), p) == [] + Filter(s, p);
      }
    }
  }

  lemma FilterCons(x: Task, s: seq<Task>, p: Task -> bool)
    ensures Filter([x] + s, p) == (if p(x) then [x] else []) + Filter(s, p)
  {
    assert ([x] + s)[1..] == s;
  }

  /** Sorting is stable: the tasks created at any one instant appear in
      the same order as in the store. */
  lemma {:induction false} SortIsStable(s: seq<Task>, k: Timestamp)
    ensures Filter(SortNewestFirst(s), CreatedAt(k)) == Filter(s, CreatedAt(k))
  {
    if s != [] {
      SortIsStable(s[1..], k);
      InsertStable(s[0], SortNewestFirst(s[1..]), k);
    }
  }


  /** The name or the description, lower-cased, contains the term. */
  predicate MatchesSearch(t: Task, term: string) {
    Contains(Lower(t.name), term) || Contains(Lower(t.description), term)
  }

  /** The task list's filter: an empty term or a match, and "all" (also
      an empty choice) or the exact stored status string. */
  predicate Listed(t: Task, term: string, statusFilter: string) {
    && (term == "" || MatchesSearch(t, term))
    && (statusFilter == "" || statusFilter == ShowAll || StatusName(t.status) == statusFilter)
  }

  function ListedBy(term: string, statusFilter: string): Task -> bool {
    (t: Task) => Listed(t, term, statusFilter)
  }

  /** Listed, and created at instant `k`. */
  function ListedAt(term: string, statusFilter: string, k: Timestamp): Task -> bool {
    (t: Task) => Listed(t, term, statusFilter) && t.createdAt == k
  }

  /** The page's two filter steps: by search term when there is one, then
      by status unless the choice is "all". */
  function FilterStages(tasks: seq<Task>, term: string, statusFilter: string): (r: seq<Task>)
    ensures r == Filter(tasks, ListedBy(term, statusFilter))
  {
    var chosen := if statusFilter == "" then ShowAll else statusFilter;
    var search := (t: Task) => term == "" || MatchesSearch(t, term);
    var status := (t: Task) => chosen == ShowAll || StatusName(t.status) == chosen;
    var bySearch := if term != "" then Filter(tasks, (t: Task) => MatchesSearch(t, term)) else tasks;
    var byStatus := if chosen != ShowAll then Filter(bySearch, (t: Task) => StatusName(t.status) == chosen)
                    else bySearch;
    assert bySearch == Filter(tasks, search) by {
      if term != "" {
        FilterExt(tasks, (t: Task) => MatchesSearch(t, term), search);
      }
    }
    assert byStatus == Filter(bySearch, status) by {
      if chosen != ShowAll {
        FilterExt(bySearch, (t: Task) => StatusName(t.status) == chosen, status);
      }
    }
    FilterCompose(tasks, search, status, ListedBy(term, statusFilter));
    byStatus
  }

  /** The task list: exactly the listed tasks, each as often as stored,
      newest first, and tasks created at the same instant in stored order. */
  function DisplayTasks(tasks: seq<Task>, search: string, statusFilter: string): (r: seq<Task>)
    ensures SortedNewestFirst(r)
    ensures forall t :: multiset(r)[t] == if Listed(t, Lower(search), statusFilter) then multiset(tasks)[t] else 0
    ensures forall t :: t in r <==> t in tasks && Listed(t, Lower(search), statusFilter)
    ensures forall k :: Filter(r, CreatedAt(k)) == Filter(tasks, ListedAt(Lower(search), statusFilter, k))
  {
    var term := Lower(search);
    var listed := FilterStages(tasks, term, statusFilter);
    FilterMultiset(tasks, ListedBy(term, statusFilter));
    var r := SortNewestFirst(listed);
    assert forall k :: Filter(r, CreatedAt(k)) == Filter(tasks, ListedAt(term, statusFilter, k)) by {
      forall k ensures Filter(r, CreatedAt(k)) == Filter(tasks, ListedAt(term, statusFilter, k)) {
        SortIsStable(listed, k);
        FilterCompose(tasks, ListedBy(term, statusFilter), CreatedAt(k), ListedAt(term, statusFilter, k));
      }
    }
    r
  }
}
