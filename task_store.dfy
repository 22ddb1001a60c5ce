/** The backend's in-memory task store: a list of tasks and a counter from
    which every new task takes its id, with the four operations behind the
    REST routes (create, mark done, rename, delete). Each operation answers
    with a response whose status code is 201, 200, 400 or 404. */
module TaskStore {
  import opened Seqs
  import opened Text

  datatype Task = Task(id: int, text: string, done: bool)

  /** Why a request body was refused: no "text" at all, or text that is blank. */
  datatype Reason = MissingText | EmptyText

  datatype Response =
    | Created(task: Task)
    | Updated(task: Task)
    | Deleted
    | BadRequest(reason: Reason)
    | NotFound
  {
    function Code(): int {
      match this
      case Created(_) => 201
      case Updated(_) => 200
      case Deleted => 200
      case BadRequest(_) => 400
      case NotFound => 404
    }
  }

  /** Outcome of checking the "text" of a request body. */
  datatype Checked = Accepted(text: string) | Rejected(reason: Reason)

  /** Text as the store keeps it: non-empty and without surrounding whitespace. */
  predicate StoredText(s: string) {
    s != [] && !IsSpace(s[0]) && !IsSpace(s[|s| - 1])
  }

  /** Stored text is exactly the text that trimming leaves alone and does not empty. */
  lemma StoredTextIsTrimmed(s: string)
    ensures StoredText(s) <==> s != [] && Trim(s) == s
  {
    if StoredText(s) {
      assert TrimStart(s) == s;
      TrimEndKeeps(s);
    }
  }

  /** The validation shared by create and rename: `body` is the "text" field
      of the JSON request body, `None` when that body is empty or has no "text" key. */
  function CheckText(body: Option<string>): (c: Checked)
    ensures body.None? <==> c == Rejected(MissingText)
    ensures c == Rejected(EmptyText) <==> body.Some? && AllSpace(body.value)
    ensures c.Accepted? ==> StoredText(c.text) && c.text == Trim(body.value)
  {
    match body
    case None => Rejected(MissingText)
    case Some(raw) =>
      var text := Trim(raw);
      if text == [] then Rejected(EmptyText) else Accepted(text)
  }

  ghost predicate IdsIncreasing(ts: seq<Task>) {
    forall i, j :: 0 <= i < j < |ts| ==> ts[i].id < ts[j].id
  }

  ghost predicate IdsUnique(ts: seq<Task>) {
    forall i, j :: 0 <= i < |ts| && 0 <= j < |ts| && ts[i].id == ts[j].id ==> i == j
  }

  /** What holds of the store between requests: ids increase along the list
      (hence never repeat), none exceeds the counter, every text is stored text. */
  ghost predicate StoreInvariant(ts: seq<Task>, counter: nat)
    ensures StoreInvariant(ts, counter) ==> IdsUnique(ts)
  {
    && IdsIncreasing(ts)
    && (forall i :: 0 <= i < |ts| ==> 1 <= ts[i].id <= counter)
    && (forall i :: 0 <= i < |ts| ==> StoredText(ts[i].text))
  }

  /** Position of the first task with the given id, as the `for task in tasks` loops find it. */
  function Position(ts: seq<Task>, id: int): Option<nat> {
    FindFirst(ts, (t: Task) => t.id == id)
  }

  /** The list after `mark_done(id)`: the first task with that id is done. */
  function MarkedDone(ts: seq<Task>, id: int): (r: seq<Task>)
    ensures |r| == |ts|
    ensures forall j :: 0 <= j < |ts| ==> r[j].id == ts[j].id && r[j].text == ts[j].text
    ensures Position(ts, id).None? ==> r == ts
    ensures Position(ts, id).Some? ==>
      r[Position(ts, id).value].done &&
      forall j :: 0 <= j < |ts| && j != Position(ts, id).value ==> r[j] == ts[j]
  {
    match Position(ts, id)
    case None => ts
    case Some(i) => ts[i := ts[i].(done := true)]
  }

  /** The list after a successful `edit_task(id)`: the first task with that id has the new text. */
  function Edited(ts: seq<Task>, id: int, text: string): (r: seq<Task>)
    ensures |r| == |ts|
    ensures forall j :: 0 <= j < |ts| ==> r[j].id == ts[j].id && r[j].done == ts[j].done
    ensures Position(ts, id).None? ==> r == ts
    ensures Position(ts, id).Some? ==>
      r[Position(ts, id).value].text == text &&
      forall j :: 0 <= j < |ts| && j != Position(ts, id).value ==> r[j] == ts[j]
  {
    match Position(ts, id)
    case None => ts
    case Some(i) => ts[i := ts[i].(text := text)]
  }

  /** The list after `delete_task(id)`: every task with another id, in order. */
  function Removed(ts: seq<Task>, id: int): (r: seq<Task>)
    ensures forall t :: t in r <==> t in ts && t.id != id
    ensures Position(ts, id).None? <==> r == ts
  {
    Filter(ts, (t: Task) => t.id != id)
  }

  /** With unique ids, marking done touches exactly the task with that id. */
  lemma MarkedDoneAt(ts: seq<Task>, id: int)
    requires IdsUnique(ts)
    ensures |MarkedDone(ts, id)| == |ts|
    ensures forall j :: 0 <= j < |ts| ==>
      MarkedDone(ts, id)[j] == (if ts[j].id == id then Task(id, ts[j].text, true) else ts[j])
  {
  }

  /** Marking the same id done twice leaves the list as marking it once. */
  lemma MarkedDoneIdempotent(ts: seq<Task>, id: int)
    ensures MarkedDone(MarkedDone(ts, id), id) == MarkedDone(ts, id)
  {
    var r := MarkedDone(ts, id);
    assert forall j :: 0 <= j < |ts| ==> r[j].id == ts[j].id;
    match Position(ts, id)
    case None =>
    case Some(i) =>
      assert Position(r, id) == Some(i);
  }

  /** With unique ids, a rename touches exactly the task with that id and keeps its done flag. */
  lemma EditedAt(ts: seq<Task>, id: int, text: string)
    requires IdsUnique(ts)
    ensures |Edited(ts, id, text)| == |ts|
    ensures forall j :: 0 <= j < |ts| ==>
      Edited(ts, id, text)[j] == (if ts[j].id == id then Task(id, text, ts[j].done) else ts[j])
  {
  }

  lemma TailIncreasing(ts: seq<Task>)
    requires ts != [] && IdsIncreasing(ts)
    ensures IdsIncreasing(ts[1..])
    ensures forall k :: 0 <= k < |ts[1..]| ==> ts[0].id < ts[1..][k].id
  {
    var tail := ts[1..];
    forall i, j | 0 <= i < j < |tail| ensures tail[i].id < tail[j].id {
      assert tail[i] == ts[i + 1] && tail[j] == ts[j + 1];
    }
    forall k | 0 <= k < |tail| ensures ts[0].id < tail[k].id {
      assert tail[k] == ts[k + 1];
    }
  }

  lemma PrependIncreasing(t: Task, rest: seq<Task>)
    requires IdsIncreasing(rest)
    requires forall k :: 0 <= k < |rest| ==> t.id < rest[k].id
    ensures IdsIncreasing([t] + rest)
  {
    var r := [t] + rest;
    forall i, j | 0 <= i < j < |r| ensures r[i].id < r[j].id {
      assert r[j] == rest[j - 1];
      if i > 0 {
        assert r[i] == rest[i - 1];
      }
    }
  }

  /** Deleting keeps the ids increasing. */
  lemma {:induction false} RemovedIncreasing(ts: seq<Task>, id: int)
    requires IdsIncreasing(ts)
    ensures IdsIncreasing(Removed(ts, id))
  {
    if ts != [] {
      var tail := ts[1..];
      TailIncreasing(ts);
      RemovedIncreasing(tail, id);
      var rest := Removed(tail, id);
      if ts[0].id != id {
        assert Removed(ts, id) == [ts[0]] + rest;
        forall k | 0 <= k < |rest| ensures ts[0].id < rest[k].id {
          assert rest[k] in tail;
        }
        PrependIncreasing(ts[0], rest);
      }
    }
  }

  /** Deleting keeps the store invariant: what remains was already stored. */
  lemma RemovedKeepsInvariant(ts: seq<Task>, counter: nat, id: int)
    requires StoreInvariant(ts, counter)
    ensures StoreInvariant(Removed(ts, id), counter)
  {
    RemovedIncreasing(ts, id);
    var r := Removed(ts, id);
    forall i | 0 <= i < |r| ensures 1 <= r[i].id <= counter && StoredText(r[i].text) {
      assert r[i] in ts;
    }
  }

  /** With unique ids, deleting removes one task when the id is present and none otherwise. */
  lemma {:induction false} RemovedCount(ts: seq<Task>, id: int)
    requires IdsUnique(ts)
    ensures |Removed(ts, id)| == |ts| - (if Position(ts, id).Some? then 1 else 0)
  {
    if ts != [] {
      var rest := ts[1..];
      assert IdsUnique(rest) by {
        forall i, j | 0 <= i < |rest| && 0 <= j < |rest| && rest[i].id == rest[j].id
          ensures i == j
        {
          assert ts[i + 1].id == ts[j + 1].id;
        }
      }
      RemovedCount(rest, id);
      if ts[0].id == id {
        assert forall k :: 0 <= k < |rest| ==> rest[k].id != id by {
          forall k | 0 <= k < |rest| ensures rest[k].id != id {
            assert ts[k + 1] == rest[k];
          }
        }
      }
    }
  }

  /** The store: the task list and the id counter of the running server. */
  class Store {
    var tasks: seq<Task>
    var counter: nat

    ghost predicate Valid()
      reads this
    {
      StoreInvariant(tasks, counter)
    }

    constructor ()
      ensures Valid()
      ensures tasks == [] && counter == 0
    {
      tasks := [];
      counter := 0;
    }

    /** `get_next_id`: advance the counter by one and hand out its new value. */
    method NextId() returns (id: nat)
      requires Valid()
      modifies this
      ensures Valid()
      ensures counter == old(counter) + 1 && id == counter
      ensures tasks == old(tasks)
      ensures forall i :: 0 <= i < |tasks| ==> tasks[i].id < id
    {
      counter := counter + 1;
      id := counter;
    }

    /** The append of `add_task`: a not-done task with a fresh id and the given text. */
    method Append(text: string) returns (task: Task)
      requires Valid() && StoredText(text)
      modifies this
      ensures Valid()
      ensures counter == old(counter) + 1
      ensures task == Task(counter, text, false) && tasks == old(tasks) + [task]
      ensures forall i :: 0 <= i < |old(tasks)| ==> old(tasks)[i].id < task.id
    {
      var id := NextId();
      task := Task(id, text, false);
      tasks := tasks + [task];
    }

    /** `add_task`: validate the text, then append a new, not-done task with a fresh id. */
    method AddTask(body: Option<string>) returns (r: Response)
      requires Valid()
      modifies this
      ensures Valid()
      ensures CheckText(body).Rejected? ==>
        r == BadRequest(CheckText(body).reason) && tasks == old(tasks) && counter == old(counter)
      ensures CheckText(body).Accepted? ==>
        && counter == old(counter) + 1
        && r == Created(Task(counter, CheckText(body).text, false))
        && tasks == old(tasks) + [r.task]
      ensures r.Created? ==> forall i :: 0 <= i < |old(tasks)| ==> old(tasks)[i].id < r.task.id
    {
      var checked := CheckText(body);
      if checked.Rejected? {
        return BadRequest(checked.reason);
      }
      var task := Append(checked.text);
      r := Created(task);
    }

    /** `mark_done`: the first task with the id becomes done; 404 when there is none. */
    method MarkDone(id: int) returns (r: Response)
      requires Valid()
      modifies this
      ensures Valid()
      ensures counter == old(counter)
      ensures tasks == MarkedDone(old(tasks), id)
      ensures Position(old(tasks), id).None? ==> r == NotFound && tasks == old(tasks)
      ensures Position(old(tasks), id).Some? ==>
        r == Updated(tasks[Position(old(tasks), id).value]) && r.task.done
    {
      var i := 0;
      while i < |tasks|
        invariant 0 <= i <= |tasks|
        invariant tasks == old(tasks)
        invariant forall j :: 0 <= j < i ==> tasks[j].id != id
      {
        if tasks[i].id == id {
          tasks := tasks[i := tasks[i].(done := true)];
          return Updated(tasks[i]);
        }
        i := i + 1;
      }
      return NotFound;
    }

    /** `edit_task`: validate the text first, then rename the first task with the id; 404 when there is none. */
    method EditTask(id: int, body: Option<string>) returns (r: Response)
      requires Valid()
      modifies this
      ensures Valid()
      ensures counter == old(counter)
      ensures CheckText(body).Rejected? ==>
        r == BadRequest(CheckText(body).reason) && tasks == old(tasks)
      ensures CheckText(body).Accepted? ==>
        && tasks == Edited(old(tasks), id, CheckText(body).text)
        && (Position(old(tasks), id).None? ==> r == NotFound && tasks == old(tasks))
        && (Position(old(tasks), id).Some? ==>
              r == Updated(tasks[Position(old(tasks), id).value]) && r.task.text == CheckText(body).text)
    {
      var checked := CheckText(body);
      if checked.Rejected? {
        return BadRequest(checked.reason);
      }
      var i := 0;
      while i < |tasks|
        invariant 0 <= i <= |tasks|
        invariant tasks == old(tasks)
        invariant forall j :: 0 <= j < i ==> tasks[j].id != id
      {
        if tasks[i].id == id {
          tasks := tasks[i := tasks[i].(text := checked.text)];
          return Updated(tasks[i]);
        }
        i := i + 1;
      }
      return NotFound;
    }

    /** `delete_task`: keep every task with another id; 404 exactly when nothing was dropped. */
    method DeleteTask(id: int) returns (r: Response)
      requires Valid()
      modifies this
      ensures Valid()
      ensures counter == old(counter)
      ensures tasks == Removed(old(tasks), id)
      ensures r == (if Position(old(tasks), id).None? then NotFound else Deleted)
      ensures r == NotFound ==> tasks == old(tasks)
    {
      RemovedKeepsInvariant(tasks, counter, id);
      RemovedCount(tasks, id);
      var originalCount := |tasks|;
      tasks := Removed(tasks, id);
      if |tasks| == originalCount {
        r := NotFound;
      } else {
        r := Deleted;
      }
    }
  }
}
