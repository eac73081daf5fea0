/**
 The sync task that carries out a prepared key rotation: worker tasks over index ranges of one list of files,
 interleaved in any way, sharing the file objects of the list, and breaking off wherever something fails.
 */
module KeyRotation {
  import opened Wrappers
  import opened VaultKeys
  import opened TaskRanges

  const MIN_FILES_PER_TASK := 2

  /** Crashed: the range split divided by zero. FinishFailed: the store did not mark the rotation finished. */
  datatype Ending = NothingToDo | Crashed | RotationFinished | FinishFailed

  /** The files older than the current key version, in the order the query lists them. */
  ghost predicate IsOlderList(v: Vault, list: seq<Path>) {
    && (forall i, j :: 0 <= i < j < |list| ==> list[i] != list[j])
    && (forall p :: p in list <==> p in v.files && v.files[p].version < v.keys.version)
  }

  // ---------------------------------------------------------------- tasks and their turns

  /** The fields of a file object that rotation sets; the tasks share the object of a file. */
  datatype Mark = Mark(iv: Option<Iv>, version: nat)

  /** What a task does next with its file: read the blob, re-seal what it holds, write it, store the row. */
  datatype Phase = Reading | Holding(blob: Blob) | Writing(blob: Blob) | Storing

  /** Broken: a read, a write or a statement failed. Refused: the blob did not open under the old key. */
  datatype Status = Running | Broken | Refused

  datatype Task = Task(at: nat, phase: Phase, status: Status)

  datatype Job = Job(list: seq<Path>, ranges: seq<Range>)

  datatype World = World(vault: Vault, objects: seq<Mark>, tasks: seq<Task>)

  /** One file as the disk, the tables and memory have it. */
  datatype Cell = Cell(row: FileRow, mark: Mark)

  predicate Fits(w: World, job: Job) {
    && |w.objects| == |job.list| && |w.tasks| == |job.ranges|
    && (forall k :: 0 <= k < |job.list| ==> job.list[k] in w.vault.files)
    && (forall t :: 0 <= t < |w.tasks| ==>
          job.ranges[t].begin <= w.tasks[t].at <= job.ranges[t].end <= |job.list|)
  }

  function CellAt(w: World, job: Job, k: nat): Cell
    requires Fits(w, job) && k < |job.list|
  {
    Cell(w.vault.files[job.list[k]], w.objects[k])
  }

  /** One uninterrupted piece of work on one file. */
  function Act(keys: Keys, drawn: nat, c: Cell, task: Task): (Cell, Task) {
    match task.phase
    case Reading => (c, task.(phase := Holding(c.row.blob)))
    case Holding(blob) =>
      (match RotateRow(keys, FileRow(c.mark.iv, c.mark.version, blob), drawn)
       case Err(_) => (c, task.(status := Refused))
       case Ok(row) => (c.(mark := Mark(row.iv, row.version)), task.(phase := Writing(row.blob))))
    case Writing(blob) => (c.(row := c.row.(blob := blob)), task.(phase := Storing))
    case Storing => (c.(row := FileRow(c.mark.iv, c.mark.version, c.row.blob)), Task(task.at + 1, Reading, task.status))
  }

  predicate Active(w: World, job: Job, t: nat)
    requires Fits(w, job)
  {
    t < |w.tasks| && w.tasks[t].status == Running && w.tasks[t].at < job.ranges[t].end
  }

  /** A task gets a turn: it does its next piece of work, or breaks off instead. */
  datatype Turn = Turn(task: nat, breaks: bool)

  function Take(w: World, job: Job, turn: Turn): (u: World)
    requires Fits(w, job)
    ensures Fits(u, job)
  {
    if !Active(w, job, turn.task) then w
    else
      var t := turn.task;
      var task := w.tasks[t];
      if turn.breaks then w.(tasks := w.tasks[t := task.(status := Broken)])
      else
        var k := task.at;
        var (c, next) := Act(w.vault.keys, w.vault.drawn, CellAt(w, job, k), task);
        World(w.vault.(files := w.vault.files[job.list[k] := c.row],
                       drawn := w.vault.drawn + if task.phase.Holding? then 1 else 0),
              w.objects[k := c.mark], w.tasks[t := next])
  }

  function Play(w: World, job: Job, turns: seq<Turn>): (u: World)
    requires Fits(w, job)
    ensures Fits(u, job)
    decreases |turns|
  {
    if turns == [] then w else Take(Play(w, job, turns[..|turns| - 1]), job, turns[|turns| - 1])
  }

  predicate Startable(v: Vault, job: Job) {
    && (forall k :: 0 <= k < |job.list| ==> job.list[k] in v.files)
    && (forall t :: 0 <= t < |job.ranges| ==> job.ranges[t].begin < job.ranges[t].end <= |job.list|)
  }

  /** The tasks as they are pushed, over file objects loaded from the tables. */
  function Begin(v: Vault, job: Job): (w: World)
    requires Startable(v, job)
    ensures Fits(w, job)
  {
    World(v,
          seq(|job.list|, k requires 0 <= k < |job.list| =>
            Mark(v.files[job.list[k]].iv, v.files[job.list[k]].version)),
          seq(|job.ranges|, t requires 0 <= t < |job.ranges| => Task(job.ranges[t].begin, Reading, Running)))
  }

  /** Every task has ended. */
  predicate Quiet(w: World, job: Job)
    requires Fits(w, job)
  {
    forall t :: 0 <= t < |w.tasks| ==> !Active(w, job, t)
  }

  lemma RangesFit(total: nat, tasks: nat)
    requires 0 < tasks <= total
    ensures forall i :: 0 <= i < tasks ==> Ranges(total, tasks)[i].begin < Ranges(total, tasks)[i].end <= total
  {
    forall i | 0 <= i < tasks
      ensures Ranges(total, tasks)[i].begin < Ranges(total, tasks)[i].end <= total
    {
      RangeInBounds(total, tasks, i);
    }
  }

  /** How the handler ends once the rotation is open and the tasks, if any, have left the vault like this. */
  function Conclude(v: Vault, stored: bool): (Vault, Ending) {
    (Apply(v, FinishRotation(stored)), if stored || !v.tables.InProgress() then RotationFinished else FinishFailed)
  }

  /** The handler: tasks that break off are only logged, and the rotation is finished all the same. */
  function HandleRotation(v: Vault, list: seq<Path>, maxThreads: nat, turns: seq<Turn>, stored: bool): (Vault, Ending)
    requires forall k :: 0 <= k < |list| ==> list[k] in v.files
  {
    if !v.keys.rotating then (v, NothingToDo)
    else if list == [] then Conclude(v, stored)
    else match NumTasks(|list|, maxThreads, MIN_FILES_PER_TASK)
      case None => (v, Crashed)
      case Some(tasks) =>
        TasksWithinTotal(|list|, maxThreads, MIN_FILES_PER_TASK);
        RangesFit(|list|, tasks);
        var job := Job(list, Ranges(|list|, tasks));
        Conclude(Play(Begin(v, job), job, turns).vault, stored)
  }

  // ---------------------------------------------------------------- one file under any number of tasks

  /** The manager has both keys of an open rotation; the files may be in any state. */
  ghost predicate Rotating(v: Vault) {
    TablesOk(v.tables, v.drawn) && KeysOk(v.tables, v.keys) && v.keys.rotating
  }

  /** The file can be moved to the new key. */
  predicate Opens(v: Vault, p: Path) {
    p in v.files && RotateRow(v.keys, v.files[p], 0).Ok?
  }

  /** What is under the file's blob. */
  function Plain(v: Vault, p: Path): Bytes
    requires p in v.files
  {
    match v.files[p].blob
    case Sealed(_, _, plain) => plain
    case Raw(bytes) => bytes
  }

  /** An older file, of whatever version, opens exactly if its blob is sealed under the old key with its vector. */
  lemma OpensIff(v: Vault, p: Path, iv: Iv)
    requires Rotating(v) && p in v.files && v.files[p].version != v.keys.version
    ensures var row := v.files[p];
      Opens(v, p) <==> row.blob.Sealed? && v.keys.oldKey == Some(row.blob.key) && row.iv == Some(row.blob.iv)
    ensures Opens(v, p) ==>
      RotateRow(v.keys, v.files[p], iv)
        == Ok(FileRow(Some(iv), v.keys.version, Sealed(v.keys.key.value, iv, Plain(v, p))))
    ensures !Opens(v, p) ==> RotateRow(v.keys, v.files[p], iv).Err?
    ensures v.keys.oldKey != v.keys.key
  {
  }

  /** A rotation is open over a list of older files. */
  ghost predicate Opening(v: Vault, job: Job) {
    && Rotating(v) && Startable(v, job)
    && (forall i, j :: 0 <= i < j < |job.list| ==> job.list[i] != job.list[j])
    && (forall k :: 0 <= k < |job.list| ==> v.files[job.list[k]].version < v.keys.version)
  }

  function OldMark(v: Vault, p: Path): Mark
    requires p in v.files
  {
    Mark(v.files[p].iv, v.files[p].version)
  }

  function RowMark(c: Cell): Mark {
    Mark(c.row.iv, c.row.version)
  }

  /** The blob that belongs to a file's new mark. */
  function Fresh(v: Vault, p: Path, m: Mark): Blob
    requires v.keys.key.Some? && p in v.files && m.iv.Some?
  {
    Sealed(v.keys.key.value, m.iv.value, Plain(v, p))
  }

  ghost predicate Untouched(v: Vault, p: Path, c: Cell)
    requires p in v.files
  {
    c.mark == OldMark(v, p) && c.row == v.files[p]
  }

  /** Some task has re-sealed the file: the object is marked, the disk has either blob, the row either mark. */
  ghost predicate Touched(v: Vault, p: Path, c: Cell)
    requires v.keys.key.Some? && p in v.files
  {
    && Opens(v, p) && c.mark.version == v.keys.version && c.mark.iv.Some?
    && (c.row.blob == v.files[p].blob || c.row.blob == Fresh(v, p, c.mark))
    && (RowMark(c) == OldMark(v, p) || RowMark(c) == c.mark)
  }

  /** What a task that is at the file may hold. */
  ghost predicate PhaseOk(v: Vault, p: Path, c: Cell, task: Task)
    requires v.keys.key.Some? && p in v.files
  {
    && (Untouched(v, p, c) || Touched(v, p, c))
    && (task.phase.Holding? || task.phase.Writing? ==>
          task.phase.blob == v.files[p].blob || (Touched(v, p, c) && task.phase.blob == Fresh(v, p, c.mark)))
    && (task.phase.Writing? || task.phase.Storing? ==> Touched(v, p, c))
    && (task.status == Refused ==> !Opens(v, p))
  }

  /** A file some task is through with: touched, and its row stored. */
  ghost predicate Settled(v: Vault, p: Path, c: Cell)
    requires v.keys.key.Some? && p in v.files
  {
    Touched(v, p, c) && RowMark(c) == c.mark
  }

  /** Nothing a piece of work does to a file takes back what was true of it. */
  ghost predicate Grows(v: Vault, p: Path, c: Cell, d: Cell, storing: bool)
    requires v.keys.key.Some? && p in v.files
  {
    && (Touched(v, p, c) ==> Touched(v, p, d) && d.mark == c.mark)
    && (Settled(v, p, c) ==> Settled(v, p, d))
    && (RowMark(d) == RowMark(c) || storing)
  }

  lemma ActOnCell(v: Vault, p: Path, drawn: nat, c: Cell, task: Task)
    requires Rotating(v) && p in v.files && v.files[p].version < v.keys.version
    requires PhaseOk(v, p, c, task) && task.status == Running
    ensures var (d, next) := Act(v.keys, drawn, c, task);
      && (Untouched(v, p, d) || Touched(v, p, d)) && Grows(v, p, c, d, task.phase.Storing?)
      && (if task.phase.Storing? then next == Task(task.at + 1, Reading, Running) && Settled(v, p, d)
          else next.at == task.at && PhaseOk(v, p, d, next))
      && (next.status == Running <==> !(task.phase.Holding? && !Opens(v, p)))
      && next.status != Broken
  {
    OpensIff(v, p, drawn);
  }

  /** A task that is at the file keeps what it holds in order while another works on it. */
  lemma PhaseKept(v: Vault, p: Path, c: Cell, d: Cell, task: Task, storing: bool)
    requires v.keys.key.Some? && p in v.files
    requires PhaseOk(v, p, c, task) && Grows(v, p, c, d, storing) && (Untouched(v, p, d) || Touched(v, p, d))
    ensures PhaseOk(v, p, d, task)
  {
  }

  /** A file that one task alone works on goes straight through. */
  ghost predicate AloneOk(v: Vault, p: Path, c: Cell, task: Task, k: nat)
    requires v.keys.key.Some? && p in v.files
  {
    if task.at < k || (task.at == k && (task.phase.Reading? || task.phase.Holding?)) then Untouched(v, p, c)
    else if task.at == k && task.phase.Writing? then
      Touched(v, p, c) && c.row == v.files[p] && task.phase.blob == Fresh(v, p, c.mark)
    else if task.at == k then Touched(v, p, c) && c.row.blob == Fresh(v, p, c.mark) && RowMark(c) == OldMark(v, p)
    else Settled(v, p, c) && c.row.blob == Fresh(v, p, c.mark)
  }

  lemma ActAlone(v: Vault, p: Path, drawn: nat, c: Cell, task: Task)
    requires Rotating(v) && p in v.files && v.files[p].version < v.keys.version
    requires PhaseOk(v, p, c, task) && task.status == Running && AloneOk(v, p, c, task, task.at)
    ensures var (d, next) := Act(v.keys, drawn, c, task); AloneOk(v, p, d, next, task.at)
  {
    OpensIff(v, p, drawn);
  }

  // ---------------------------------------------------------------- all files under all tasks

  predicate Covers(job: Job, t: nat, k: nat) {
    t < |job.ranges| && job.ranges[t].begin <= k < job.ranges[t].end
  }

  predicate Alone(job: Job, t: nat, k: nat) {
    Covers(job, t, k) && forall s :: 0 <= s < |job.ranges| && s != t ==> !Covers(job, s, k)
  }

  /** The task is through with the file. */
  predicate Passed(w: World, job: Job, t: nat, k: nat)
    requires Fits(w, job)
  {
    t < |w.tasks| && job.ranges[t].begin <= k < w.tasks[t].at
  }

  ghost predicate Frame(v: Vault, w: World, job: Job) {
    && w.vault.tables == v.tables && w.vault.keys == v.keys && w.vault.written == v.written
    && w.vault.files.Keys == v.files.Keys && v.drawn <= w.vault.drawn
    && forall p :: p in v.files && p !in job.list ==> w.vault.files[p] == v.files[p]
  }

  ghost predicate CellOk(v: Vault, w: World, job: Job, k: nat)
    requires Opening(v, job) && Fits(w, job) && k < |job.list|
  {
    var c := CellAt(w, job, k);
    && (Untouched(v, job.list[k], c) || Touched(v, job.list[k], c))
    && (RowMark(c) == OldMark(v, job.list[k]) || exists t: nat :: Passed(w, job, t, k))
  }

  ghost predicate TaskOk(v: Vault, w: World, job: Job, t: nat)
    requires Opening(v, job) && Fits(w, job) && t < |w.tasks|
  {
    var task := w.tasks[t];
    && (if task.at < job.ranges[t].end then PhaseOk(v, job.list[task.at], CellAt(w, job, task.at), task)
        else task.phase == Reading && task.status != Refused)
    && (forall k :: job.ranges[t].begin <= k < task.at ==> Settled(v, job.list[k], CellAt(w, job, k)))
    && (forall k :: 0 <= k < |job.list| && Alone(job, t, k) ==>
          AloneOk(v, job.list[k], CellAt(w, job, k), task, k))
  }

  ghost predicate WorldOk(v: Vault, w: World, job: Job)
    requires Opening(v, job)
  {
    && Fits(w, job) && Frame(v, w, job)
    && (forall k :: 0 <= k < |job.list| ==> CellOk(v, w, job, k))
    && (forall t :: 0 <= t < |w.tasks| ==> TaskOk(v, w, job, t))
  }

  lemma BeginOk(v: Vault, job: Job)
    requires Opening(v, job)
    ensures WorldOk(v, Begin(v, job), job)
  {
    var w := Begin(v, job);
    forall k | 0 <= k < |job.list|
      ensures CellOk(v, w, job, k)
    {
      assert Untouched(v, job.list[k], CellAt(w, job, k));
    }
    forall t | 0 <= t < |w.tasks|
      ensures TaskOk(v, w, job, t)
    {
      assert w.tasks[t] == Task(job.ranges[t].begin, Reading, Running);
    }
  }

  /** How a turn that does not break off changes the world. */
  lemma TurnShape(w: World, job: Job, t: nat)
    requires Fits(w, job) && Active(w, job, t)
    requires forall i, j :: 0 <= i < j < |job.list| ==> job.list[i] != job.list[j]
    ensures var u := Take(w, job, Turn(t, false)); var at := w.tasks[t].at;
      var (c, next) := Act(w.vault.keys, w.vault.drawn, CellAt(w, job, at), w.tasks[t]);
      && Fits(u, job) && u.tasks == w.tasks[t := next]
      && u.vault.tables == w.vault.tables && u.vault.keys == w.vault.keys && u.vault.written == w.vault.written
      && u.vault.files.Keys == w.vault.files.Keys && w.vault.drawn <= u.vault.drawn
      && (forall p :: p in w.vault.files && p != job.list[at] ==> u.vault.files[p] == w.vault.files[p])
      && (forall k :: 0 <= k < |job.list| ==> CellAt(u, job, k) == if k == at then c else CellAt(w, job, k))
  {
    hide Act;
  }

  lemma TurnKeepsCells(v: Vault, w: World, job: Job, t: nat)
    requires Opening(v, job) && WorldOk(v, w, job) && Active(w, job, t)
    ensures var u := Take(w, job, Turn(t, false));
      Fits(u, job) && Frame(v, u, job) && forall k :: 0 <= k < |job.list| ==> CellOk(v, u, job, k)
  {
    var u := Take(w, job, Turn(t, false));
    var task := w.tasks[t];
    TurnShape(w, job, t);
    assert TaskOk(v, w, job, t);
    ActOnCell(v, job.list[task.at], w.vault.drawn, CellAt(w, job, task.at), task);
    hide Rotating, Act, Take, Untouched, Touched, PhaseOk;
    forall k | 0 <= k < |job.list|
      ensures CellOk(v, u, job, k)
    {
      assert CellOk(v, w, job, k);
      if exists s: nat :: Passed(w, job, s, k) {
        var s: nat :| Passed(w, job, s, k);
        assert Passed(u, job, s, k);
      }
      if k == task.at && task.phase.Storing? {
        assert Passed(u, job, t, k);
      }
    }
  }

  /** A task another one's turn leaves alone. */
  lemma OtherTaskKept(v: Vault, w: World, job: Job, t: nat, s: nat)
    requires Opening(v, job) && WorldOk(v, w, job) && Active(w, job, t) && s < |w.tasks| && s != t
    ensures TaskOk(v, Take(w, job, Turn(t, false)), job, s)
  {
    var u := Take(w, job, Turn(t, false));
    var task, at := w.tasks[t], w.tasks[t].at;
    var p := job.list[at];
    TurnShape(w, job, t);
    assert TaskOk(v, w, job, t) && TaskOk(v, w, job, s);
    ActOnCell(v, p, w.vault.drawn, CellAt(w, job, at), task);
    var mine := w.tasks[s];
    hide Rotating, Act, Take, Touched, Untouched;
    if mine.at == at {
      PhaseKept(v, p, CellAt(w, job, at), CellAt(u, job, at), mine, task.phase.Storing?);
    }
    assert Covers(job, t, at);
    forall k | 0 <= k < |job.list| && Alone(job, s, k)
      ensures AloneOk(v, job.list[k], CellAt(u, job, k), mine, k)
    {
      assert k != at;
      assert AloneOk(v, job.list[k], CellAt(w, job, k), mine, k);
    }
  }

  /** The files the acting task alone works on. */
  lemma ActingAlone(v: Vault, w: World, job: Job, t: nat, k: nat)
    requires Opening(v, job) && WorldOk(v, w, job) && Active(w, job, t) && k < |job.list| && Alone(job, t, k)
    ensures var u := Take(w, job, Turn(t, false)); AloneOk(v, job.list[k], CellAt(u, job, k), u.tasks[t], k)
  {
    var task, at := w.tasks[t], w.tasks[t].at;
    var p := job.list[at];
    TurnShape(w, job, t);
    assert TaskOk(v, w, job, t);
    assert AloneOk(v, job.list[k], CellAt(w, job, k), task, k);
    ActOnCell(v, p, w.vault.drawn, CellAt(w, job, at), task);
    hide Rotating, Take;
    if k == at {
      ActAlone(v, p, w.vault.drawn, CellAt(w, job, at), task);
    } else {
      hide Act, Touched, Untouched;
    }
  }

  /** The task whose turn it is. */
  lemma ActingTaskKept(v: Vault, w: World, job: Job, t: nat)
    requires Opening(v, job) && WorldOk(v, w, job) && Active(w, job, t)
    ensures TaskOk(v, Take(w, job, Turn(t, false)), job, t)
  {
    var u := Take(w, job, Turn(t, false));
    var task, at := w.tasks[t], w.tasks[t].at;
    TurnShape(w, job, t);
    assert TaskOk(v, w, job, t);
    ActOnCell(v, job.list[at], w.vault.drawn, CellAt(w, job, at), task);
    hide Rotating, Act, Take, Touched, Untouched, AloneOk;
    if u.tasks[t].at == at + 1 < job.ranges[t].end {
      assert CellOk(v, w, job, at + 1);
    }
    forall k | 0 <= k < |job.list| && Alone(job, t, k)
      ensures AloneOk(v, job.list[k], CellAt(u, job, k), u.tasks[t], k)
    {
      ActingAlone(v, w, job, t, k);
    }
  }

  lemma TurnKeeps(v: Vault, w: World, job: Job, turn: Turn)
    requires Opening(v, job) && WorldOk(v, w, job)
    ensures WorldOk(v, Take(w, job, turn), job)
  {
    if Active(w, job, turn.task) && !turn.breaks {
      hide Opening, Frame, CellOk, TaskOk, Take;
      TurnKeepsCells(v, w, job, turn.task);
      forall s | 0 <= s < |w.tasks|
        ensures TaskOk(v, Take(w, job, turn), job, s)
      {
        if s == turn.task {
          ActingTaskKept(v, w, job, s);
        } else {
          OtherTaskKept(v, w, job, turn.task, s);
        }
      }
    } else if Active(w, job, turn.task) {
      BreakKeeps(v, w, job, turn.task);
    }
  }

  lemma BreakKeeps(v: Vault, w: World, job: Job, t: nat)
    requires Opening(v, job) && WorldOk(v, w, job) && Active(w, job, t)
    ensures WorldOk(v, Take(w, job, Turn(t, true)), job)
  {
    hide Rotating, Untouched, Touched;
    var u := Take(w, job, Turn(t, true));
    forall k | 0 <= k < |job.list|
      ensures CellOk(v, u, job, k)
    {
      assert CellOk(v, w, job, k) && CellAt(u, job, k) == CellAt(w, job, k);
      if exists s: nat :: Passed(w, job, s, k) {
        var s: nat :| Passed(w, job, s, k);
        assert Passed(u, job, s, k);
      }
    }
    forall s | 0 <= s < |w.tasks|
      ensures TaskOk(v, u, job, s)
    {
      assert TaskOk(v, w, job, s);
      assert forall k :: 0 <= k < |job.list| ==> CellAt(u, job, k) == CellAt(w, job, k);
    }
  }

  lemma {:induction false} PlayKeeps(v: Vault, job: Job, turns: seq<Turn>)
    requires Opening(v, job)
    ensures WorldOk(v, Play(Begin(v, job), job, turns), job)
    decreases |turns|
  {
    hide Rotating, WorldOk, Take;
    if turns == [] {
      BeginOk(v, job);
    } else {
      PlayKeeps(v, job, turns[..|turns| - 1]);
      TurnKeeps(v, Play(Begin(v, job), job, turns[..|turns| - 1]), job, turns[|turns| - 1]);
    }
  }

  // ---------------------------------------------------------------- who gets where

  /** The task broke off at this file. */
  predicate BrokeAt(w: World, t: nat, k: nat) {
    t < |w.tasks| && w.tasks[t].status == Broken && w.tasks[t].at == k
  }

  /** The file is in the task's range, and so far nothing there was unreadable and the task has not broken off. */
  ghost predicate GetsThrough(v: Vault, w: World, job: Job, t: nat, k: nat)
    requires Fits(w, job)
    requires forall j :: 0 <= j < |job.list| ==> job.list[j] in v.files
  {
    && Covers(job, t, k)
    && forall j :: job.ranges[t].begin <= j <= k ==> Opens(v, job.list[j]) && !BrokeAt(w, t, j)
  }

  /**
   Once all tasks have ended, a task is through with exactly the files of its range up to the first that was
   already unreadable, or at which it broke off.
   */
  lemma PassedExactly(v: Vault, w: World, job: Job, t: nat, k: nat)
    requires Opening(v, job) && WorldOk(v, w, job) && Quiet(w, job)
    ensures Passed(w, job, t, k) <==> GetsThrough(v, w, job, t, k)
  {
    if Covers(job, t, k) {
      assert TaskOk(v, w, job, t);
      assert !Active(w, job, t);
    }
  }

  predicate NoneBroken(w: World) {
    forall t :: 0 <= t < |w.tasks| ==> w.tasks[t].status != Broken
  }

  predicate NoBreaks(turns: seq<Turn>) {
    forall i :: 0 <= i < |turns| ==> !turns[i].breaks
  }

  lemma {:induction false} NothingBreaks(w: World, job: Job, turns: seq<Turn>)
    requires Fits(w, job) && NoneBroken(w) && NoBreaks(turns)
    ensures NoneBroken(Play(w, job, turns))
    decreases |turns|
  {
    if turns != [] {
      var last := |turns| - 1;
      NothingBreaks(w, job, turns[..last]);
      var u := Play(w, job, turns[..last]);
      assert Take(u, job, turns[last]).tasks == u.tasks
             || exists next: Task :: next.status != Broken
                  && Take(u, job, turns[last]).tasks == u.tasks[turns[last].task := next];
    }
  }

  // ---------------------------------------------------------------- what can be read afterwards

  /** How a listed file reads once the manager holds the new key alone. */
  lemma ReadCell(v: Vault, p: Path, c: Cell)
    requires Rotating(v) && p in v.files && v.files[p].version < v.keys.version
    requires Untouched(v, p, c) || Touched(v, p, c)
    ensures var read := Decrypt(Keys(v.keys.key, None, v.keys.version, false), c.row.blob, c.row.iv, c.row.version);
      && (RowMark(c) == OldMark(v, p) ==> read == Err(VersionMismatch))
      && (Settled(v, p, c) ==>
            read == if c.row.blob == v.files[p].blob then Err(AuthenticationFailed) else Ok(Plain(v, p)))
      && (Settled(v, p, c) && c.row.blob == Fresh(v, p, c.mark) ==> read == Ok(Plain(v, p)))
  {
    OpensIff(v, p, 0);
  }

  lemma KeysAfterFinish(v: Vault, u: Vault, p: Path)
    requires Rotating(v) && u.tables == v.tables && u.keys == v.keys && p in u.files
    ensures Read(Apply(u, FinishRotation(true)), p) ==
      Decrypt(Keys(v.keys.key, None, v.keys.version, false), u.files[p].blob, u.files[p].iv, u.files[p].version)
  {
  }

  /**
   What is read of a listed file after the rotation: nothing if no task got through with it, what is under its blob if
   one did and no other task had it; and if several had it, it is readable exactly if the blob written last is new.
   */
  ghost predicate ListedRead(v: Vault, w: World, job: Job, k: nat, read: Result<Bytes, CryptoError>)
    requires Fits(w, job) && k < |job.list| && job.list[k] in v.files
  {
    var p := job.list[k];
    && ((forall t: nat :: !Passed(w, job, t, k)) ==> read == Err(VersionMismatch))
    && ((exists t: nat :: Passed(w, job, t, k)) ==>
          read == if w.vault.files[p].blob == v.files[p].blob then Err(AuthenticationFailed) else Ok(Plain(v, p)))
    && ((exists t: nat :: Passed(w, job, t, k) && Alone(job, t, k)) ==> read == Ok(Plain(v, p)))
  }

  lemma ReadAfterFinish(v: Vault, w: World, job: Job, k: nat)
    requires Opening(v, job) && WorldOk(v, w, job) && k < |job.list|
    ensures ListedRead(v, w, job, k, Read(Apply(w.vault, FinishRotation(true)), job.list[k]))
  {
    var p, c := job.list[k], CellAt(w, job, k);
    assert CellOk(v, w, job, k);
    ReadCell(v, p, c);
    KeysAfterFinish(v, w.vault, p);
    hide Rotating, Read, Decrypt, Apply, Touched, Untouched;
    forall t: nat | Passed(w, job, t, k)
      ensures Settled(v, p, c) && (Alone(job, t, k) ==> c.row.blob == Fresh(v, p, c.mark))
    {
      assert TaskOk(v, w, job, t);
      assert Alone(job, t, k) ==> AloneOk(v, p, c, w.tasks[t], k);
    }
  }

  /** A file the tasks do not work on. */
  lemma UnlistedAfterFinish(v: Vault, w: World, job: Job, p: Path)
    requires Opening(v, job) && WorldOk(v, w, job)
    requires p in v.files && p !in job.list
    ensures Read(Apply(w.vault, FinishRotation(true)), p) ==
      if v.files[p].version == v.keys.version then Read(v, p) else Err(VersionMismatch)
    ensures Read(v, p).Ok? ==> Read(v, p) == Ok(Plain(v, p))
  {
    hide CellOk, TaskOk;
    KeysAfterFinish(v, w.vault, p);
  }

  /** The job of a vault's rotation. */
  function JobOf(list: seq<Path>, maxThreads: nat): Job
    requires NumTasks(|list|, maxThreads, MIN_FILES_PER_TASK).Some?
  {
    Job(list, Ranges(|list|, NumTasks(|list|, maxThreads, MIN_FILES_PER_TASK).value))
  }

  lemma JobOpens(v: Vault, list: seq<Path>, maxThreads: nat)
    requires Rotating(v) && IsOlderList(v, list)
    requires |list| >= MIN_FILES_PER_TASK && maxThreads >= 1
    ensures NumTasks(|list|, maxThreads, MIN_FILES_PER_TASK).Some?
    ensures 0 < NumTasks(|list|, maxThreads, MIN_FILES_PER_TASK).value <= |list|
    ensures Opening(v, JobOf(list, maxThreads))
    ensures forall p :: p in v.files && p !in list ==> v.files[p].version >= v.keys.version
  {
    SplitDefined(|list|, maxThreads, MIN_FILES_PER_TASK);
    TasksWithinTotal(|list|, maxThreads, MIN_FILES_PER_TASK);
    RangesFit(|list|, NumTasks(|list|, maxThreads, MIN_FILES_PER_TASK).value);
    forall k | 0 <= k < |list|
      ensures list[k] in v.files && v.files[list[k]].version < v.keys.version
    {
      assert list[k] in list;
    }
  }

  /** The world once the tasks of a rotation have taken these turns. */
  function Outcome(v: Vault, list: seq<Path>, maxThreads: nat, turns: seq<Turn>): World
    requires NumTasks(|list|, maxThreads, MIN_FILES_PER_TASK).Some? && Startable(v, JobOf(list, maxThreads))
  {
    Play(Begin(v, JobOf(list, maxThreads)), JobOf(list, maxThreads), turns)
  }

  /** The turns run all tasks of the rotation to their ends. */
  ghost predicate Ended(v: Vault, list: seq<Path>, maxThreads: nat, turns: seq<Turn>) {
    && NumTasks(|list|, maxThreads, MIN_FILES_PER_TASK).Some? && Startable(v, JobOf(list, maxThreads))
    && Quiet(Outcome(v, list, maxThreads, turns), JobOf(list, maxThreads))
  }

  /**
   What one run of the handler leaves behind if the store marks the rotation finished, file by file, however its tasks
   interleave, wherever they break off, and whatever state the files are in: what is read of a listed file depends on
   who got through with it, and any other file is read as before if it is at the current version, and not otherwise.
   */
  lemma RotationOutcome(v: Vault, list: seq<Path>, maxThreads: nat, turns: seq<Turn>, p: Path)
    requires Rotating(v) && IsOlderList(v, list)
    requires |list| >= MIN_FILES_PER_TASK && maxThreads >= 1
    requires NumTasks(|list|, maxThreads, MIN_FILES_PER_TASK).Some? && Startable(v, JobOf(list, maxThreads))
    requires p in v.files
    ensures var job := JobOf(list, maxThreads); var w := Outcome(v, list, maxThreads, turns);
      var (u, ending) := HandleRotation(v, list, maxThreads, turns, true);
      && ending == RotationFinished && !u.keys.rotating
      && u.written == v.written && u.files.Keys == v.files.Keys
      && (p !in list ==>
            Read(u, p) == if v.files[p].version == v.keys.version then Read(v, p) else Err(VersionMismatch))
      && (forall k :: 0 <= k < |list| && list[k] == p ==> ListedRead(v, w, job, k, Read(u, p)))
    ensures p !in list && Read(v, p).Ok? ==> Read(v, p) == Ok(Plain(v, p))
  {
    JobOpens(v, list, maxThreads);
    var job := JobOf(list, maxThreads);
    var w := Outcome(v, list, maxThreads, turns);
    PlayKeeps(v, job, turns);
    FinishStep(w.vault, true) by {
      KeysOkAreSane(v.tables, v.keys, v.drawn);
    }
    hide CellOk, TaskOk;
    if p !in list {
      UnlistedAfterFinish(v, w, job, p);
    }
    forall k | 0 <= k < |list| && list[k] == p
      ensures ListedRead(v, w, job, k, Read(Apply(w.vault, FinishRotation(true)), p))
    {
      ReadAfterFinish(v, w, job, k);
    }
  }

  /** If the store does not, the handler ends with the rotation open, its old key gone and nothing readable. */
  lemma UnmarkedOutcome(v: Vault, list: seq<Path>, maxThreads: nat, turns: seq<Turn>, p: Path)
    requires Rotating(v) && IsOlderList(v, list)
    requires |list| >= MIN_FILES_PER_TASK && maxThreads >= 1
    requires NumTasks(|list|, maxThreads, MIN_FILES_PER_TASK).Some? && Startable(v, JobOf(list, maxThreads))
    requires p in v.files
    ensures var (u, ending) := HandleRotation(v, list, maxThreads, turns, false);
      && ending == FinishFailed && u.keys.rotating && u.keys.oldKey == None
      && u.tables == v.tables && u.written == v.written && u.files.Keys == v.files.Keys
      && Read(u, p) == Err(NoKey)
  {
    JobOpens(v, list, maxThreads);
    PlayKeeps(v, JobOf(list, maxThreads), turns);
    hide CellOk, TaskOk;
  }

  // ---------------------------------------------------------------- when nothing breaks off

  /** Every listed file can be moved to the new key. */
  ghost predicate AllOpen(v: Vault, list: seq<Path>) {
    forall k :: 0 <= k < |list| ==> Opens(v, list[k])
  }

  /** Every file the rotation leaves alone is at the current version and can be read. */
  ghost predicate RestRead(v: Vault, list: seq<Path>) {
    forall p :: p in v.files && p !in list ==> v.files[p].version == v.keys.version && Read(v, p).Ok?
  }

  /** Where the tasks of a rotation overlap, by index. */
  lemma JobCovers(list: seq<Path>, maxThreads: nat, k: nat)
    requires |list| >= MIN_FILES_PER_TASK && maxThreads >= 1 && k < |list|
    ensures NumTasks(|list|, maxThreads, MIN_FILES_PER_TASK).Some?
    ensures var tasks := NumTasks(|list|, maxThreads, MIN_FILES_PER_TASK).value;
      var job := JobOf(list, maxThreads);
      && 0 < tasks <= |list|
      && (forall t: nat :: Covers(job, t, k) <==> t in CoverAt(|list|, tasks, k))
      && (k < |list| - |list| % tasks <==> CoverAt(|list|, tasks, k) != {})
      && (k < |list| - |list| % tasks && !DoubledBoundary(|list|, tasks, k) ==>
            Alone(job, k / (|list| / tasks), k))
  {
    SplitDefined(|list|, maxThreads, MIN_FILES_PER_TASK);
    TasksWithinTotal(|list|, maxThreads, MIN_FILES_PER_TASK);
    var tasks := NumTasks(|list|, maxThreads, MIN_FILES_PER_TASK).value;
    CoveringAt(|list|, tasks, k);
    DivSplit(|list|, tasks);
    var job := JobOf(list, maxThreads);
    assert forall t: nat :: Covers(job, t, k) <==> t in Covering(job.ranges, k);
  }

  /**
   The rotation theorem. When no task breaks off, then in every interleaving every file can be read afterwards if and
   only if the number of tasks divides the number of listed files, every listed file opens under the old key, and
   every other one can be read before. Whatever is read is what was under the file's blob before.
   */
  lemma RotationCompleteIffEven(v: Vault, list: seq<Path>, maxThreads: nat, turns: seq<Turn>)
    requires Rotating(v) && IsOlderList(v, list)
    requires |list| >= MIN_FILES_PER_TASK && maxThreads >= 1
    requires NoBreaks(turns) && Ended(v, list, maxThreads, turns)
    ensures NumTasks(|list|, maxThreads, MIN_FILES_PER_TASK).value > 0
    ensures var u := HandleRotation(v, list, maxThreads, turns, true).0;
      && u.files.Keys == v.files.Keys
      && ((forall p :: p in v.files ==> Read(u, p).Ok?) <==>
            && |list| % NumTasks(|list|, maxThreads, MIN_FILES_PER_TASK).value == 0
            && AllOpen(v, list) && RestRead(v, list))
      && forall p :: p in v.files && Read(u, p).Ok? ==> Read(u, p) == Ok(Plain(v, p))
  {
    hide Rotating, Startable, NoBreaks, Quiet, Outcome, Opens, Read, HandleRotation, JobOf, NumTasks, Plain;
    AfterUnbroken(v, list, maxThreads, turns);
    forall k | 0 <= k < |list|
      ensures list[k] in v.files
    {
      assert list[k] in list;
    }
  }

  /** Each file's fate, and that an uneven split loses one. */
  lemma AfterUnbroken(v: Vault, list: seq<Path>, maxThreads: nat, turns: seq<Turn>)
    requires Rotating(v) && IsOlderList(v, list)
    requires |list| >= MIN_FILES_PER_TASK && maxThreads >= 1
    requires NoBreaks(turns) && Ended(v, list, maxThreads, turns)
    ensures NumTasks(|list|, maxThreads, MIN_FILES_PER_TASK).value > 0
    ensures var u := HandleRotation(v, list, maxThreads, turns, true).0;
      var even := |list| % NumTasks(|list|, maxThreads, MIN_FILES_PER_TASK).value == 0;
      && u.files.Keys == v.files.Keys
      && (forall p :: p in v.files && p in list && !Opens(v, p) ==> Read(u, p).Err?)
      && (forall p :: p in v.files && p in list && even && AllOpen(v, list) ==> Read(u, p).Ok?)
      && (forall p :: p in v.files && p !in list ==>
            (Read(u, p).Ok? <==> v.files[p].version == v.keys.version && Read(v, p).Ok?))
      && (forall p :: p in v.files && Read(u, p).Ok? ==> Read(u, p) == Ok(Plain(v, p)))
      && (!even ==> exists p :: p in v.files && Read(u, p).Err?)
  {
    var u := HandleRotation(v, list, maxThreads, turns, true).0;
    var tasks := NumTasks(|list|, maxThreads, MIN_FILES_PER_TASK).value;
    assert list[0] in list && list[|list| - 1] in list;
    RotationOutcome(v, list, maxThreads, turns, list[0]);
    hide Rotating, Startable, Outcome, Quiet, NoBreaks, Opens, Read, HandleRotation, JobOf, NumTasks, Plain;
    ListedOutcome(v, list, maxThreads, turns, |list| - 1);
    forall p | p in v.files && p in list
      ensures !Opens(v, p) ==> Read(u, p).Err?
      ensures |list| % tasks == 0 && AllOpen(v, list) ==> Read(u, p).Ok?
      ensures Read(u, p).Ok? ==> Read(u, p) == Ok(Plain(v, p))
    {
      var k: nat :| k < |list| && list[k] == p;
      ListedOutcome(v, list, maxThreads, turns, k);
      if |list| % tasks == 0 {
        EvenHasNoDoubles(|list|, tasks, k);
      }
    }
    forall p | p in v.files && p !in list
      ensures Read(u, p).Ok? <==> v.files[p].version == v.keys.version && Read(v, p).Ok?
      ensures Read(u, p).Ok? ==> Read(u, p) == Ok(Plain(v, p))
    {
      RotationOutcome(v, list, maxThreads, turns, p);
    }
  }

  lemma EvenHasNoDoubles(total: nat, tasks: nat, k: nat)
    requires 0 < tasks <= total && total % tasks == 0
    ensures !DoubledBoundary(total, tasks, k)
  {
  }

  /** Without breaks a task gets through with its files up to the first unreadable one. */
  lemma WhoPasses(v: Vault, list: seq<Path>, maxThreads: nat, turns: seq<Turn>, t: nat, k: nat)
    requires Rotating(v) && IsOlderList(v, list)
    requires |list| >= MIN_FILES_PER_TASK && maxThreads >= 1 && k < |list|
    requires NoBreaks(turns) && Ended(v, list, maxThreads, turns)
    ensures var job := JobOf(list, maxThreads); var w := Outcome(v, list, maxThreads, turns);
      && (Passed(w, job, t, k) ==> Covers(job, t, k) && Opens(v, list[k]))
      && (Covers(job, t, k) && AllOpen(v, list) ==> Passed(w, job, t, k))
  {
    hide Rotating, WorldOk, Opening, HandleRotation, Apply, Read, Opens;
    var job := JobOf(list, maxThreads);
    JobOpens(v, list, maxThreads);
    PlayKeeps(v, job, turns);
    NothingBreaks(Begin(v, job), job, turns);
    PassedExactly(v, Outcome(v, list, maxThreads, turns), job, t, k);
  }

  /**
   The same file by file. A listed file is lost if it does not open or is among the last `n mod tasks`; if all listed
   files open it can be read unless it is one of those or one of the first `n mod tasks` inner boundaries, which two
   tasks rewrite at once.
   */
  lemma ListedOutcome(v: Vault, list: seq<Path>, maxThreads: nat, turns: seq<Turn>, k: nat)
    requires Rotating(v) && IsOlderList(v, list)
    requires |list| >= MIN_FILES_PER_TASK && maxThreads >= 1 && k < |list|
    requires NoBreaks(turns) && Ended(v, list, maxThreads, turns)
    ensures var u := HandleRotation(v, list, maxThreads, turns, true).0;
      var tasks := NumTasks(|list|, maxThreads, MIN_FILES_PER_TASK).value;
      && 0 < tasks <= |list|
      && (!Opens(v, list[k]) || k >= |list| - |list| % tasks ==> Read(u, list[k]) == Err(VersionMismatch))
      && (AllOpen(v, list) && k < |list| - |list| % tasks ==>
            if DoubledBoundary(|list|, tasks, k)
            then Read(u, list[k]) == Ok(Plain(v, list[k])) || Read(u, list[k]) == Err(AuthenticationFailed)
            else Read(u, list[k]) == Ok(Plain(v, list[k])))
      && (Read(u, list[k]).Ok? ==> Read(u, list[k]) == Ok(Plain(v, list[k])))
  {
    hide Rotating, IsOlderList, Quiet, NoBreaks, HandleRotation, Apply, Read, Opens, AllOpen, DoubledBoundary, CoverAt;
    var job := JobOf(list, maxThreads);
    var w := Outcome(v, list, maxThreads, turns);
    assert ListedRead(v, w, job, k, Read(HandleRotation(v, list, maxThreads, turns, true).0, list[k])) by {
      RotationOutcome(v, list, maxThreads, turns, list[k]);
    }
    JobCovers(list, maxThreads, k);
    forall t: nat
      ensures Passed(w, job, t, k) ==> Covers(job, t, k) && Opens(v, list[k])
      ensures Covers(job, t, k) && AllOpen(v, list) ==> Passed(w, job, t, k)
    {
      WhoPasses(v, list, maxThreads, turns, t, k);
    }
    hide Outcome, Passed, Covers;
    var tasks := NumTasks(|list|, maxThreads, MIN_FILES_PER_TASK).value;
    if k < |list| - |list| % tasks {
      var t: nat :| t in CoverAt(|list|, tasks, k);
      assert Covers(job, t, k);
      if !DoubledBoundary(|list|, tasks, k) {
        assert Alone(job, k / (|list| / tasks), k);
      }
    }
  }

  /**
   A listed file that does not open, left behind by an earlier rotation or never encrypted, costs the files after it in
   its range: no task gets past it, so a healthy file that only this task works on is lost too, without any failure.
   */
  lemma StrandedCascade(v: Vault, list: seq<Path>, maxThreads: nat, turns: seq<Turn>, t: nat, j: nat, k: nat)
    requires Rotating(v) && IsOlderList(v, list)
    requires |list| >= MIN_FILES_PER_TASK && maxThreads >= 1 && j <= k < |list|
    requires Ended(v, list, maxThreads, turns)
    requires Covers(JobOf(list, maxThreads), t, j) && Alone(JobOf(list, maxThreads), t, k) && !Opens(v, list[j])
    ensures Read(HandleRotation(v, list, maxThreads, turns, true).0, list[k]) == Err(VersionMismatch)
  {
    hide Rotating, WorldOk, Opening, HandleRotation, Apply, Read, Opens;
    var job := JobOf(list, maxThreads);
    var w := Outcome(v, list, maxThreads, turns);
    JobOpens(v, list, maxThreads);
    PlayKeeps(v, job, turns);
    RotationOutcome(v, list, maxThreads, turns, list[k]);
    assert ListedRead(v, w, job, k, Read(HandleRotation(v, list, maxThreads, turns, true).0, list[k]));
    forall s: nat
      ensures !Passed(w, job, s, k)
    {
      PassedExactly(v, w, job, s, k);
    }
  }

  // ---------------------------------------------------------------- what was last written

  ghost predicate AllReadable(v: Vault) {
    forall p :: p in v.files ==> p in v.written && Read(v, p) == Ok(v.written[p])
  }

  /** What opens or is read in a sound vault is what was last written. */
  lemma PlainIsWritten(v: Vault, damaged: set<Path>, p: Path)
    requires Sound(v, damaged) && Rotating(v) && p in v.files
    requires (v.files[p].version != v.keys.version && Opens(v, p)) || Read(v, p).Ok?
    ensures p in v.written && Plain(v, p) == v.written[p]
  {
    assert VectorOk(v, p);
    if !Read(v, p).Ok? {
      OpensIff(v, p, 0);
    }
  }

  /**
   The rotation theorem for a vault that any run may have left, failures, saves and all: every file is read as it was
   last written under the same condition.
   */
  lemma RotationOfSoundVault(v: Vault, damaged: set<Path>, list: seq<Path>, maxThreads: nat, turns: seq<Turn>)
    requires Sound(v, damaged) && Rotating(v) && IsOlderList(v, list)
    requires |list| >= MIN_FILES_PER_TASK && maxThreads >= 1
    requires NoBreaks(turns) && Ended(v, list, maxThreads, turns)
    ensures NumTasks(|list|, maxThreads, MIN_FILES_PER_TASK).value > 0
    ensures AllReadable(HandleRotation(v, list, maxThreads, turns, true).0) <==>
      && |list| % NumTasks(|list|, maxThreads, MIN_FILES_PER_TASK).value == 0
      && AllOpen(v, list) && RestRead(v, list)
  {
    var u := HandleRotation(v, list, maxThreads, turns, true).0;
    RotationCompleteIffEven(v, list, maxThreads, turns);
    assert list[0] in list;
    RotationOutcome(v, list, maxThreads, turns, list[0]);
    hide Sound, Rotating, Startable, NoBreaks, Quiet, Outcome, Opens, Read, HandleRotation, JobOf, NumTasks, Plain;
    if forall p :: p in v.files ==> Read(u, p).Ok? {
      forall p | p in v.files
        ensures p in v.written && Plain(v, p) == v.written[p]
      {
        if p in list {
          var k: nat :| k < |list| && list[k] == p;
          assert Opens(v, list[k]);
        }
        PlainIsWritten(v, damaged, p);
      }
    }
  }

  /** And for a vault in which every file is in order: the files that do not open are those left behind. */
  lemma RotationOfOrderlyVault(v: Vault, list: seq<Path>, maxThreads: nat, turns: seq<Turn>)
    requires Inv(v) && v.keys.rotating && IsOlderList(v, list)
    requires |list| >= MIN_FILES_PER_TASK && maxThreads >= 1
    requires NoBreaks(turns) && Ended(v, list, maxThreads, turns)
    ensures NumTasks(|list|, maxThreads, MIN_FILES_PER_TASK).value > 0
    ensures AllReadable(HandleRotation(v, list, maxThreads, turns, true).0) <==>
      && |list| % NumTasks(|list|, maxThreads, MIN_FILES_PER_TASK).value == 0
      && forall p :: p in v.files ==> Live(v, p)
  {
    InvIsSound(v);
    RotationOfSoundVault(v, {}, list, maxThreads, turns);
    hide Startable, NoBreaks, Quiet, Outcome, HandleRotation, JobOf, NumTasks;
    forall p | p in v.files
      ensures if p in list then Opens(v, p) <==> Live(v, p)
              else Live(v, p) && v.files[p].version == v.keys.version && Read(v, p).Ok?
    {
      OrderlyFile(v, list, p);
    }
    hide Inv, Opens, Live, Read;
    forall k | 0 <= k < |list|
      ensures list[k] in v.files && list[k] in list
    {
    }
    assert AllOpen(v, list) <==> forall p :: p in v.files && p in list ==> Opens(v, p);
  }

  lemma OrderlyFile(v: Vault, list: seq<Path>, p: Path)
    requires Inv(v) && v.keys.rotating && IsOlderList(v, list) && p in v.files
    ensures if p in list then Opens(v, p) <==> Live(v, p)
            else Live(v, p) && v.files[p].version == v.keys.version && Read(v, p).Ok?
  {
    assert FileOk(v, p);
    RotateRowMeaning(v, p, 0);
    ReadExact(v, p);
    KeyOfVersion(v.tables, v.drawn, v.files[p].version);
  }

  /** A rotation puts right what the file system saved under a row that names another version: it opens. */
  lemma SavedFileOpens(v: Vault, damaged: set<Path>, path: Path, plain: Bytes)
    requires Sound(v, damaged) && KeysOk(v.tables, v.keys) && !v.keys.rotating && plain != []
    ensures var w := Apply(Apply(v, SaveFile(path, plain, true)), PrepareRotation(true));
      Rotating(w) && Opens(w, path) && Plain(w, path) == plain
  {
    var saved := Apply(v, SaveFile(path, plain, true));
    PrepareStep(saved, true);
  }

  /** An empty file is in the list of every rotation from the vault's first on, and opens in none. */
  lemma EmptyFileNeverOpens(v: Vault, list: seq<Path>, path: Path)
    requires Rotating(v) && IsOlderList(v, list)
    requires path in v.files && v.files[path] == FileRow(None, 1, Raw([]))
    ensures path in list && !Opens(v, path)
  {
    OpensIff(v, path, 0);
  }

  /** One file to rotate, or no thread reported, and the handler divides by zero before doing anything. */
  lemma CrashExact(v: Vault, list: seq<Path>, maxThreads: nat, turns: seq<Turn>, stored: bool)
    requires forall k :: 0 <= k < |list| ==> list[k] in v.files
    ensures HandleRotation(v, list, maxThreads, turns, stored).1 == Crashed <==>
      v.keys.rotating && list != [] && (|list| < MIN_FILES_PER_TASK || maxThreads == 0)
    ensures HandleRotation(v, list, maxThreads, turns, stored).1 == Crashed ==>
      HandleRotation(v, list, maxThreads, turns, stored).0 == v
  {
    SplitDefined(|list|, maxThreads, MIN_FILES_PER_TASK);
  }

  // ---------------------------------------------------------------- two tasks at one file

  /**
   The race on a doubled boundary: task `b` reads the old blob, `a` rotates the file, `b` takes the file for rotated,
   because the object they share says so, and writes the old blob back over the new one. The file is unreadable at once.
   */
  lemma BoundaryRace(v: Vault, w: World, job: Job, a: nat, b: nat, k: nat)
    requires Opening(v, job) && WorldOk(v, w, job) && a != b && k < |job.list|
    requires Active(w, job, a) && Active(w, job, b) && w.tasks[a].at == k && w.tasks[b].at == k
    requires w.tasks[a].phase == Reading && w.tasks[b].phase == Reading
    requires Untouched(v, job.list[k], CellAt(w, job, k)) && Opens(v, job.list[k])
    ensures var u := Play(w, job, [Turn(b, false), Turn(a, false), Turn(a, false), Turn(a, false), Turn(a, false),
                                   Turn(b, false), Turn(b, false), Turn(b, false)]);
      && Passed(u, job, a, k) && Passed(u, job, b, k)
      && Read(u.vault, job.list[k]) == Err(AuthenticationFailed)
  {
    assert Fits(w, job);
    hide Rotating, Opening, WorldOk, Untouched, Read, Take, Play, Fits, Active;
    var resealed := BothRead(v, w, job, a, b, k);
    var stale := FirstFinishes(v, resealed, job, a, b, k);
    var u := WriteBack(v, stale, job, a, b, k);
    PlayRace(w, job, Turn(a, false), Turn(b, false));
  }

  lemma PlayRace(w: World, job: Job, x: Turn, y: Turn)
    requires Fits(w, job)
    ensures Play(w, job, [y, x, x, x, x, y, y, y]) ==
      Take(Take(Take(Take(Take(Take(Take(Take(w, job, y), job, x), job, x), job, x), job, x), job, y), job, y), job, y)
  {
    hide Take, Fits;
    PlayNone(w, job);
    PlayOne(w, job, [], y);
    PlayOne(w, job, [y], x);
    PlayOne(w, job, [y, x], x);
    PlayOne(w, job, [y, x, x], x);
    PlayOne(w, job, [y, x, x, x], x);
    PlayOne(w, job, [y, x, x, x, x], y);
    PlayOne(w, job, [y, x, x, x, x, y], y);
    PlayOne(w, job, [y, x, x, x, x, y, y], y);
    hide Play;
    assert [] + [y] == [y] && [y] + [x] == [y, x] && [y, x] + [x] == [y, x, x] && [y, x, x] + [x] == [y, x, x, x];
    assert [y, x, x, x] + [x] == [y, x, x, x, x] && [y, x, x, x, x] + [y] == [y, x, x, x, x, y];
    assert [y, x, x, x, x, y] + [y] == [y, x, x, x, x, y, y];
    assert [y, x, x, x, x, y, y] + [y] == [y, x, x, x, x, y, y, y];
  }

  /** `a` has rotated the file and gone on; `b` still holds the blob from before. */
  ghost predicate HoldsStale(v: Vault, w: World, job: Job, a: nat, b: nat, k: nat)
    requires k < |job.list| && job.list[k] in v.files
  {
    && Fits(w, job) && a < |w.tasks| && b < |w.tasks|
    && w.vault.keys == v.keys
    && w.tasks[b] == Task(k, Holding(v.files[job.list[k]].blob), Running)
    && job.ranges[b].begin <= k < job.ranges[b].end
    && Passed(w, job, a, k)
    && w.objects[k].version == v.keys.version && w.objects[k].iv.Some?
  }

  /** `b` holds the blob from before, and `a` has re-sealed the file and is about to write it. */
  ghost predicate Resealed(v: Vault, w: World, job: Job, a: nat, b: nat, k: nat)
    requires k < |job.list| && job.list[k] in v.files
  {
    && Fits(w, job) && a < |w.tasks| && b < |w.tasks|
    && w.vault.keys == v.keys
    && w.tasks[b] == Task(k, Holding(v.files[job.list[k]].blob), Running)
    && w.tasks[a].at == k && w.tasks[a].phase.Writing? && w.tasks[a].status == Running
    && Covers(job, a, k) && Covers(job, b, k)
    && w.objects[k].version == v.keys.version && w.objects[k].iv.Some?
  }

  lemma BothRead(v: Vault, w: World, job: Job, a: nat, b: nat, k: nat) returns (u: World)
    requires Opening(v, job) && WorldOk(v, w, job) && a != b && k < |job.list|
    requires Active(w, job, a) && Active(w, job, b) && w.tasks[a].at == k && w.tasks[b].at == k
    requires w.tasks[a].phase == Reading && w.tasks[b].phase == Reading
    requires Untouched(v, job.list[k], CellAt(w, job, k)) && Opens(v, job.list[k])
    ensures u == Take(Take(Take(w, job, Turn(b, false)), job, Turn(a, false)), job, Turn(a, false))
    ensures Resealed(v, u, job, a, b, k)
  {
    var p := job.list[k];
    assert w.vault.keys == v.keys && CellAt(w, job, k) == Cell(v.files[p], OldMark(v, p));
    var read := BothHold(w, job, a, b, k);
    OlderRotates(v, p, read.vault.drawn);
    hide Opening, Rotating, Opens, WorldOk, Take, RotateRow, Untouched;
    u := TurnsTo(read, job, a);
  }

  lemma BothHold(w: World, job: Job, a: nat, b: nat, k: nat) returns (u: World)
    requires Fits(w, job) && a != b && k < |job.list|
    requires forall i, j :: 0 <= i < j < |job.list| ==> job.list[i] != job.list[j]
    requires Active(w, job, a) && Active(w, job, b) && w.tasks[a].at == k && w.tasks[b].at == k
    requires w.tasks[a].phase == Reading && w.tasks[b].phase == Reading
    ensures u == Take(Take(w, job, Turn(b, false)), job, Turn(a, false))
    ensures var held := Task(k, Holding(CellAt(w, job, k).row.blob), Running);
      && u.tasks == w.tasks[b := held][a := held]
      && CellAt(u, job, k) == CellAt(w, job, k) && u.vault.keys == w.vault.keys
      && job.ranges[a].begin <= k < job.ranges[a].end && job.ranges[b].begin <= k < job.ranges[b].end
  {
    hide Take, RotateRow;
    var held := TurnsTo(w, job, b);
    u := TurnsTo(held, job, a);
  }

  lemma OlderRotates(v: Vault, p: Path, drawn: nat)
    requires Rotating(v) && p in v.files && v.files[p].version < v.keys.version && Opens(v, p)
    ensures RotateRow(v.keys, v.files[p], drawn).Ok?
    ensures var row := RotateRow(v.keys, v.files[p], drawn).value; row.version == v.keys.version && row.iv.Some?
  {
    OpensIff(v, p, drawn);
  }

  lemma FirstFinishes(v: Vault, w: World, job: Job, a: nat, b: nat, k: nat) returns (u: World)
    requires Opening(v, job) && a != b && k < |job.list| && Resealed(v, w, job, a, b, k)
    ensures u == Take(Take(w, job, Turn(a, false)), job, Turn(a, false))
    ensures HoldsStale(v, u, job, a, b, k)
  {
    hide Rotating, Take, RotateRow;
    var written := TurnsTo(w, job, a);
    u := TurnsTo(written, job, a);
  }

  /** The rest of `b`'s work: the object says the file is current, so the held blob goes back as it is. */
  lemma WriteBack(v: Vault, w: World, job: Job, a: nat, b: nat, k: nat) returns (u: World)
    requires Opening(v, job) && a != b && k < |job.list| && Opens(v, job.list[k]) && HoldsStale(v, w, job, a, b, k)
    ensures var y := Turn(b, false);
      u == Take(Take(Take(w, job, y), job, y), job, y)
    ensures Passed(u, job, a, k) && Passed(u, job, b, k)
    ensures Read(u.vault, job.list[k]) == Err(AuthenticationFailed)
  {
    var p := job.list[k];
    OpensIff(v, p, 0);
    assert v.files[p].blob.Sealed? && v.files[p].blob.key != v.keys.key.value && v.keys.oldKey.Some?;
    hide Rotating, Take;
    var taken := TurnsTo(w, job, b);
    var written := TurnsTo(taken, job, b);
    u := TurnsTo(written, job, b);
  }

  lemma PlayNone(w: World, job: Job)
    requires Fits(w, job)
    ensures Play(w, job, []) == w
  {
  }

  lemma PlayOne(w: World, job: Job, turns: seq<Turn>, turn: Turn)
    requires Fits(w, job)
    ensures Play(w, job, turns + [turn]) == Take(Play(w, job, turns), job, turn)
  {
    assert (turns + [turn])[..|turns|] == turns;
  }

  /** The world after a task's next piece of work, seen from the file it is at. */
  lemma TurnsTo(w: World, job: Job, t: nat) returns (u: World)
    requires Fits(w, job) && Active(w, job, t)
    requires forall i, j :: 0 <= i < j < |job.list| ==> job.list[i] != job.list[j]
    ensures u == Take(w, job, Turn(t, false)) && Fits(u, job)
    ensures var at := w.tasks[t].at; var (c, next) := Act(w.vault.keys, w.vault.drawn, CellAt(w, job, at), w.tasks[t]);
      u.tasks == w.tasks[t := next] && u.vault.keys == w.vault.keys && CellAt(u, job, at) == c
  {
    u := Take(w, job, Turn(t, false));
    TurnShape(w, job, t);
  }

  // ---------------------------------------------------------------- one file undisturbed

  /**
   A task left alone with its file takes the vault's `RotateFile` step in four turns; breaking off before the last it
   takes the step whose row is not stored.
   */
  lemma UndisturbedIsRotateFile(w: World, job: Job, t: nat)
    requires Fits(w, job) && Active(w, job, t) && w.tasks[t].phase == Reading && w.vault.keys.key.Some?
    requires forall i, j :: 0 <= i < j < |job.list| ==> job.list[i] != job.list[j]
    requires RowMark(CellAt(w, job, w.tasks[t].at)) == w.objects[w.tasks[t].at]
    requires RotateRow(w.vault.keys, w.vault.files[job.list[w.tasks[t].at]], w.vault.drawn).Ok?
    ensures var p := job.list[w.tasks[t].at]; var x := Turn(t, false);
      var three := Take(Take(Take(w, job, x), job, x), job, x);
      && three.vault == Apply(w.vault, RotateFile(p, false))
      && Take(three, job, Turn(t, true)).vault == Apply(w.vault, RotateFile(p, false))
      && Take(three, job, x).vault == Apply(w.vault, RotateFile(p, true))
  {
    var k := w.tasks[t].at;
    var p := job.list[k];
    var row := RotateRow(w.vault.keys, w.vault.files[p], w.vault.drawn).value;
    hide RotateRow;
    var x := Turn(t, false);
    var read := Take(w, job, x);
    assert read.vault.files == w.vault.files;
    assert read.tasks[t] == Task(k, Holding(w.vault.files[p].blob), Running) && read.objects == w.objects;
    var sealed := Take(read, job, x);
    assert sealed.tasks[t] == Task(k, Writing(row.blob), Running) && sealed.objects[k] == Mark(row.iv, row.version);
    assert sealed.vault == w.vault.(drawn := w.vault.drawn + 1);
    var written := Take(sealed, job, x);
    assert written.tasks[t] == Task(k, Storing, Running) && written.objects[k] == Mark(row.iv, row.version);
  }
}
