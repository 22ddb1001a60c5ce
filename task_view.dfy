/** The browser-side view of the task list: the cached tasks, the current
    filter and page, what is derived from them for display (filtered list,
    page slice, counts, pagination buttons), and the local checks that decide
    whether a request is sent to the server at all. */
module TaskView {
  import opened Seqs
  import opened Text
  import opened TaskStore

  const TasksPerPage: nat := 3

  /** A request the client sends to the task API. */
  datatype Request =
    | Post(text: string)
    | Patch(id: int, text: string)
    | Put(id: int)
    | Delete(id: int)

  // ---------------------------------------------------------------------
  // Filtering

  /** The tasks whose done flag is `wantDone`, in their cached order. */
  function Select(ts: seq<Task>, wantDone: bool): seq<Task> {
    Filter(ts, (t: Task) => t.done == wantDone)
  }

  /** `getFilteredTasks`: "done" keeps the done tasks, "undone" the others,
      and any other filter value keeps the whole list. */
  function FilteredTasks(ts: seq<Task>, filter: string): (r: seq<Task>)
    ensures forall t :: t in r <==>
      t in ts && (filter == "done" ==> t.done) && (filter == "undone" ==> !t.done)
    ensures filter != "done" && filter != "undone" ==> r == ts
  {
    if filter == "done" then Select(ts, true)
    else if filter == "undone" then Select(ts, false)
    else ts
  }

  /** Filtering keeps the cached order: the filtered list of a concatenation is
      the concatenation of the filtered lists. */
  lemma FilteredTasksConcat(a: seq<Task>, b: seq<Task>, filter: string)
    ensures FilteredTasks(a + b, filter) == FilteredTasks(a, filter) + FilteredTasks(b, filter)
  {
    FilterConcat(a, b, (t: Task) => t.done == true);
    FilterConcat(a, b, (t: Task) => t.done == false);
  }

  /** Every cached task is either done or pending. */
  lemma DoneAndPendingMakeTotal(ts: seq<Task>)
    ensures |Select(ts, true)| + |Select(ts, false)| == |ts|
  {
    FilterPartition(ts, (t: Task) => t.done == true, (t: Task) => t.done == false);
  }

  // ---------------------------------------------------------------------
  // Pages

  /** `Math.ceil(n / 3)`: the fewest pages of three that hold `n` tasks. */
  function PageCount(n: nat): (r: nat)
    ensures r * TasksPerPage >= n
    ensures r > 0 ==> (r - 1) * TasksPerPage < n
    ensures r == 0 <==> n == 0
  {
    (n + TasksPerPage - 1) / TasksPerPage
  }

  /** How `Array.prototype.slice` turns an index into a position in a list of
      length `len`: negative indexes count from the end, and both ends clamp. */
  function ClampIndex(k: int, len: nat): (r: nat)
    ensures r <= len
    ensures 0 <= k <= len ==> r == k
    ensures k > len ==> r == len
    ensures k < 0 ==> r == (if len + k < 0 then 0 else len + k)
  {
    if k < 0 then (if len + k < 0 then 0 else len + k)
    else if k > len then len
    else k
  }

  /** `s.slice(start, end)` as JavaScript defines it. */
  function JsSlice(s: seq<Task>, start: int, end: int): (r: seq<Task>)
    ensures |r| <= |s|
    ensures forall t :: t in r ==> t in s
    ensures 0 <= start <= end ==>
      r == if start < |s| then s[start..if end <= |s| then end else |s|] else []
  {
    var a := ClampIndex(start, |s|);
    var b := ClampIndex(end, |s|);
    if a < b then s[a..b] else []
  }

  /** The tasks `updateTaskDisplay` shows on `page` of the filtered list. */
  function PageItems(filtered: seq<Task>, page: int): (r: seq<Task>)
    ensures forall t :: t in r ==> t in filtered
    ensures page >= 1 ==> |r| <= TasksPerPage
    ensures page >= 1 ==> (r == [] <==> page > PageCount(|filtered|))
    ensures 1 <= page < PageCount(|filtered|) ==>
      r == filtered[(page - 1) * TasksPerPage .. page * TasksPerPage]
    ensures page >= 1 && page == PageCount(|filtered|) ==>
      r == filtered[(page - 1) * TasksPerPage ..]
  {
    var start := (page - 1) * TasksPerPage;
    JsSlice(filtered, start, start + TasksPerPage)
  }

  /** Pages 1 to `k` of `s`, one after the other. */
  ghost function FirstPages(s: seq<Task>, k: nat): seq<Task> {
    if k == 0 then [] else FirstPages(s, k - 1) + PageItems(s, k)
  }

  /** Reading the pages in order gives back the filtered list: no task is
      skipped or shown twice. */
  lemma {:induction false} PagesCoverList(s: seq<Task>)
    ensures FirstPages(s, PageCount(|s|)) == s
  {
    PagesPrefix(s, PageCount(|s|));
  }

  lemma {:induction false} PagesPrefix(s: seq<Task>, k: nat)
    requires k <= PageCount(|s|)
    ensures FirstPages(s, k) == s[..if k * TasksPerPage <= |s| then k * TasksPerPage else |s|]
  {
    if k > 0 {
      PagesPrefix(s, k - 1);
      var lo := (k - 1) * TasksPerPage;
      var hi := if k * TasksPerPage <= |s| then k * TasksPerPage else |s|;
      assert PageItems(s, k) == s[lo..hi] by {
        if k < PageCount(|s|) {
          assert hi == k * TasksPerPage;
        } else {
          assert hi == |s|;
        }
      }
      assert s[..lo] + s[lo..hi] == s[..hi];
    }
  }

  // ---------------------------------------------------------------------
  // What is displayed

  datatype Display = EmptyState(message: string) | TaskPage(items: seq<Task>)

  /** The empty-state text of `updateTaskDisplay`: one message per filter,
      the general one for any value other than "done" and "undone". */
  function EmptyMessage(filter: string): (m: string)
    ensures m == "No completed tasks yet!" <==> filter == "done"
    ensures m == "No pending tasks!" <==> filter == "undone"
    ensures m == "No tasks yet!" <==> filter != "done" && filter != "undone"
  {
    if filter == "done" then "No completed tasks yet!"
    else if filter == "undone" then "No pending tasks!"
    else "No tasks yet!"
  }

  /** `updateTaskDisplay`: an empty-state message when nothing passes the
      filter, otherwise the current page's tasks, which are none at all when
      the page lies beyond the last one. */
  function TaskDisplay(ts: seq<Task>, filter: string, page: int): (d: Display)
    ensures d.EmptyState? <==> FilteredTasks(ts, filter) == []
    ensures d.TaskPage? ==> forall t :: t in d.items ==> t in FilteredTasks(ts, filter)
    ensures d.TaskPage? && page >= 1 ==> |d.items| <= TasksPerPage
    ensures page >= 1 ==>
      (d == TaskPage([]) <==> FilteredTasks(ts, filter) != [] && page > PageCount(|FilteredTasks(ts, filter)|))
    ensures d.EmptyState? ==> d.message == EmptyMessage(filter)
    ensures d.TaskPage? ==> d.items == PageItems(FilteredTasks(ts, filter), page)
  {
    var filtered := FilteredTasks(ts, filter);
    if filtered == [] then EmptyState(EmptyMessage(filter))
    else TaskPage(PageItems(filtered, page))
  }

  /** A re-fetch that shrinks the list to one page while the view is on page 2
      leaves an empty page and, with a single page, no pagination controls. */
  lemma StalePageAfterShrink(ts: seq<Task>)
    requires 1 <= |ts| <= TasksPerPage
    ensures TaskDisplay(ts, "all", 2) == TaskPage([])
    ensures PageCount(|FilteredTasks(ts, "all")|) == 1
  {
  }

  /** The breakdown `updateTaskCount` spells out after the shown count. */
  datatype CountDetail = OfTotal(count: nat, total: nat) | DoneAndPending(done: nat, pending: nat)

  /** "Showing <shown> <noun><suffix> (<detail>)". */
  datatype CountLine = CountLine(shown: nat, noun: string, suffix: string, detail: CountDetail)

  /** `updateTaskCount`. */
  function TaskCount(ts: seq<Task>, filter: string): (c: CountLine)
    ensures c.shown == |FilteredTasks(ts, filter)|
    ensures c.suffix == "s" <==> c.shown != 1
    ensures c.suffix == "" <==> c.shown == 1
    ensures c.noun == "completed task" <==> filter == "done"
    ensures c.noun == "pending task" <==> filter == "undone"
    ensures c.noun == "task" <==> filter != "done" && filter != "undone"
    ensures c.detail.OfTotal? <==> filter == "done" || filter == "undone"
    ensures c.detail.OfTotal? ==> c.detail.count == c.shown && c.detail.total == |ts|
    ensures c.detail.DoneAndPending? ==> c.shown == |ts| && c.detail.done + c.detail.pending == |ts|
    ensures c.detail.DoneAndPending? ==>
      c.detail.done == |FilteredTasks(ts, "done")| && c.detail.pending == |FilteredTasks(ts, "undone")|
  {
    var shown := |FilteredTasks(ts, filter)|;
    var done := |Select(ts, true)|;
    var pending := |Select(ts, false)|;
    DoneAndPendingMakeTotal(ts);
    var suffix := if shown != 1 then "s" else "";
    if filter == "done" then CountLine(shown, "completed task", suffix, OfTotal(done, |ts|))
    else if filter == "undone" then CountLine(shown, "pending task", suffix, OfTotal(pending, |ts|))
    else CountLine(shown, "task", suffix, DoneAndPending(done, pending))
  }

  // ---------------------------------------------------------------------
  // Pagination controls

  /** A pagination button: `target` is the page its click asks for. */
  datatype Button =
    | Prev(target: int, disabled: bool)
    | PageButton(number: int, active: bool)
    | Next(target: int, disabled: bool)

  /** `generatePagination`: nothing for one page or none; otherwise a previous
      button, one button per page with the current one active, and a next button. */
  method GeneratePagination(ts: seq<Task>, filter: string, currentPage: int)
    returns (buttons: seq<Button>)
    ensures PageCount(|FilteredTasks(ts, filter)|) <= 1 ==> buttons == []
    ensures var total := PageCount(|FilteredTasks(ts, filter)|);
      total > 1 ==>
        && |buttons| == total + 2
        && buttons[0] == Prev(currentPage - 1, currentPage == 1)
        && buttons[total + 1] == Next(currentPage + 1, currentPage == total)
        && forall i :: 1 <= i <= total ==> buttons[i] == PageButton(i, i == currentPage)
  {
    var filtered := FilteredTasks(ts, filter);
    var totalPages := PageCount(|filtered|);
    if totalPages <= 1 {
      return [];
    }
    buttons := [Prev(currentPage - 1, currentPage == 1)];
    var i := 1;
    while i <= totalPages
      invariant 1 <= i <= totalPages + 1
      invariant |buttons| == i
      invariant buttons[0] == Prev(currentPage - 1, currentPage == 1)
      invariant forall k :: 1 <= k < i ==> buttons[k] == PageButton(k, k == currentPage)
    {
      buttons := buttons + [PageButton(i, i == currentPage)];
      i := i + 1;
    }
    buttons := buttons + [Next(currentPage + 1, currentPage == totalPages)];
  }

  // ---------------------------------------------------------------------
  // Local checks before a request

  /** `addTask`: the trimmed input is posted, unless it is empty. */
  function AddRequest(input: string): (r: Option<Request>)
    ensures r.None? <==> AllSpace(input)
    ensures r.Some? ==> r.value == Post(Trim(input)) && StoredText(r.value.text)
  {
    var text := Trim(input);
    if text == [] then None else Some(Post(text))
  }

  /** What `addTask` posts is accepted by the store as it is. */
  lemma AddRequestAccepted(input: string)
    requires AddRequest(input).Some?
    ensures CheckText(Some(AddRequest(input).value.text)) == Accepted(AddRequest(input).value.text)
  {
    TrimIdempotent(input);
  }

  /** `editTask`: `newText` is what the edit dialog returned (`None` when it
      was cancelled); the trimmed text is sent unless the dialog gave nothing
      or the trimmed text equals the task's current text. */
  function EditRequest(id: int, newText: Option<string>, currentText: string): (r: Option<Request>)
    ensures r.Some? <==> newText.Some? && newText.value != [] && Trim(newText.value) != currentText
    ensures r.Some? ==> r.value == Patch(id, Trim(newText.value)) && r.value.text != currentText
  {
    if newText.Some? && newText.value != [] && Trim(newText.value) != currentText
    then Some(Patch(id, Trim(newText.value)))
    else None
  }

  /** Re-submitting a stored text, with or without surrounding blanks, sends nothing. */
  lemma UnchangedEditSendsNothing(id: int, current: string, before: string, after: string)
    requires StoredText(current)
    requires AllSpace(before) && AllSpace(after)
    ensures EditRequest(id, Some(before + current + after), current).None?
  {
    TrimAround(before, current, after);
  }

  /** What `editTask` sends is accepted by the store unless the new text is
      blank; a blank text has to be stopped by the edit dialog, since a
      non-empty blank text passes this check and the server answers 400. */
  lemma EditRequestChecked(id: int, newText: Option<string>, currentText: string)
    requires EditRequest(id, newText, currentText).Some?
    ensures var text := EditRequest(id, newText, currentText).value.text;
      CheckText(Some(text)) == if text == [] then Rejected(EmptyText) else Accepted(text)
  {
    TrimIdempotent(newText.value);
  }

  /** The text on which `addSuggestion` compares tasks: lower-cased, then trimmed. */
  function DuplicateKey(s: string): string {
    Trim(Lower(s))
  }

  /** `addSuggestion`'s search for a cached task with the same text up to case
      and surrounding whitespace; the first such task, if any. */
  function FindDuplicate(ts: seq<Task>, suggestion: string): (r: Option<Task>)
    ensures r.Some? ==> r.value in ts && DuplicateKey(r.value.text) == DuplicateKey(suggestion)
    ensures r.None? <==> forall t :: t in ts ==> DuplicateKey(t.text) != DuplicateKey(suggestion)
  {
    var key := DuplicateKey(suggestion);
    match FindFirst(ts, (t: Task) => DuplicateKey(t.text) == key)
    case None => None
    case Some(i) => Some(ts[i])
  }

  /** A suggestion that differs from a cached task only in letter case is a duplicate. */
  lemma CaseOnlyDifferenceIsDuplicate(ts: seq<Task>, t: Task, suggestion: string)
    requires t in ts
    requires |t.text| == |suggestion|
    requires forall i :: 0 <= i < |suggestion| ==> LowerChar(t.text[i]) == LowerChar(suggestion[i])
    ensures FindDuplicate(ts, suggestion).Some?
  {
    assert Lower(t.text) == Lower(suggestion);
  }

  // ---------------------------------------------------------------------
  // The controller state

  /** The page's globals: the last fetched tasks, the filter and the page. */
  class Controller {
    var allTasks: seq<Task>
    var currentFilter: string
    var currentPage: int

    ghost predicate Valid()
      reads this
    {
      currentPage >= 1
    }

    constructor ()
      ensures Valid()
      ensures allTasks == [] && currentFilter == "all" && currentPage == 1
    {
      allTasks := [];
      currentFilter := "all";
      currentPage := 1;
    }

    /** `setFilter`: the new filter, back on the first page. */
    method SetFilter(filter: string)
      modifies this
      ensures Valid()
      ensures currentFilter == filter && currentPage == 1
      ensures allTasks == old(allTasks)
    {
      currentFilter := filter;
      currentPage := 1;
    }

    /** `changePage`: move to `page` only when it is one of the filtered list's pages. */
    method ChangePage(page: int)
      requires Valid()
      modifies this
      ensures Valid()
      ensures allTasks == old(allTasks) && currentFilter == old(currentFilter)
      ensures 1 <= page <= PageCount(|FilteredTasks(allTasks, currentFilter)|) ==> currentPage == page
      ensures !(1 <= page <= PageCount(|FilteredTasks(allTasks, currentFilter)|)) ==>
        currentPage == old(currentPage)
    {
      var filtered := FilteredTasks(allTasks, currentFilter);
      var totalPages := PageCount(|filtered|);
      if page >= 1 && page <= totalPages {
        currentPage := page;
      }
    }

    /** `fetchTasks`: `response` is the fetched list, `None` when the request
        failed; the cache is replaced wholesale or kept, and the page is not
        brought back into range. */
    method FetchTasks(response: Option<seq<Task>>)
      requires Valid()
      modifies this
      ensures Valid()
      ensures allTasks == if response.Some? then response.value else old(allTasks)
      ensures currentFilter == old(currentFilter) && currentPage == old(currentPage)
    {
      if response.Some? {
        allTasks := response.value;
      }
    }

    /** `addTask`: `postOk` is whether the server accepted the post and
        `refetched` the list fetched after it. After a successful post the view
        is back on filter "all", page 1, even if the re-fetch failed. */
    method AddTask(input: string, postOk: bool, refetched: Option<seq<Task>>)
      returns (request: Option<Request>)
      requires Valid()
      modifies this
      ensures Valid()
      ensures request == AddRequest(input)
      ensures request.Some? && postOk ==>
        && allTasks == (if refetched.Some? then refetched.value else old(allTasks))
        && currentFilter == "all" && currentPage == 1
      ensures !(request.Some? && postOk) ==>
        allTasks == old(allTasks) && currentFilter == old(currentFilter) && currentPage == old(currentPage)
    {
      request := AddRequest(input);
      if request.None? || !postOk {
        return;
      }
      FetchTasks(refetched);
      SetFilter("all");
    }

    /** `addSuggestion`: nothing is sent when a cached task has the same text up
        to case and surrounding whitespace; otherwise the suggestion is added as
        typed input. */
    method AddSuggestion(suggestion: string, postOk: bool, refetched: Option<seq<Task>>)
      returns (request: Option<Request>)
      requires Valid()
      modifies this
      ensures Valid()
      ensures FindDuplicate(old(allTasks), suggestion).Some? ==>
        && request.None?
        && allTasks == old(allTasks) && currentFilter == old(currentFilter) && currentPage == old(currentPage)
      ensures FindDuplicate(old(allTasks), suggestion).None? ==> request == AddRequest(suggestion)
      ensures request.Some? && postOk ==>
        && allTasks == (if refetched.Some? then refetched.value else old(allTasks))
        && currentFilter == "all" && currentPage == 1
      ensures !(request.Some? && postOk) ==>
        allTasks == old(allTasks) && currentFilter == old(currentFilter) && currentPage == old(currentPage)
    {
      if FindDuplicate(allTasks, suggestion).Some? {
        return None;
      }
      request := AddTask(suggestion, postOk, refetched);
    }

    /** `editTask`: `newText` is the dialog's answer, `patchOk` whether the
        server accepted the patch and `refetched` the list fetched after it. */
    method EditTask(id: int, currentText: string, newText: Option<string>, patchOk: bool,
                    refetched: Option<seq<Task>>)
      returns (request: Option<Request>)
      requires Valid()
      modifies this
      ensures Valid()
      ensures request == EditRequest(id, newText, currentText)
      ensures currentFilter == old(currentFilter) && currentPage == old(currentPage)
      ensures allTasks ==
        if request.Some? && patchOk && refetched.Some? then refetched.value else old(allTasks)
    {
      request := EditRequest(id, newText, currentText);
      if request.Some? && patchOk {
        FetchTasks(refetched);
      }
    }

    /** `markDone`: the put is always sent; the cache follows the re-fetch. */
    method MarkDone(id: int, putOk: bool, refetched: Option<seq<Task>>)
      returns (request: Option<Request>)
      requires Valid()
      modifies this
      ensures Valid()
      ensures request == Some(Put(id))
      ensures currentFilter == old(currentFilter) && currentPage == old(currentPage)
      ensures allTasks == if putOk && refetched.Some? then refetched.value else old(allTasks)
    {
      request := Some(Put(id));
      if putOk {
        FetchTasks(refetched);
      }
    }

    /** `deleteTask`: nothing is sent unless the user confirmed. */
    method DeleteTask(id: int, confirmed: bool, deleteOk: bool, refetched: Option<seq<Task>>)
      returns (request: Option<Request>)
      requires Valid()
      modifies this
      ensures Valid()
      ensures request == if confirmed then Some(Delete(id)) else None
      ensures currentFilter == old(currentFilter) && currentPage == old(currentPage)
      ensures allTasks ==
        if confirmed && deleteOk && refetched.Some? then refetched.value else old(allTasks)
    {
      if !confirmed {
        return None;
      }
      request := Some(Delete(id));
      if deleteOk {
        FetchTasks(refetched);
      }
    }

    /** What the page shows for the current state. */
    function Shown(): (d: Display)
      reads this
      requires Valid()
      ensures d.TaskPage? ==> |d.items| <= TasksPerPage
    {
      TaskDisplay(allTasks, currentFilter, currentPage)
    }
  }
}
