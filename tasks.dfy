/**
 * The top level of the scheduler (platforms/qemu-virt/src/tasks.rs): kernel
 * tasks, each a thread that runs its own coroutine executor, kept in a
 * multi-level feedback queue (MLFQ) of NUM_LEVELS FIFO levels, a transient
 * slot for a task that did not use up its slice, and a rotating level cursor.
 * The global `MLFQ` behind its spin lock is an `Mlfq` object passed
 * explicitly; the two `NEXT_ID` counters are `Counter` objects.
 */
module Tasks {
  import opened Wrappers
  import opened Futures
  import opened Atomic
  import opened Thread
  import opened AsyncExecutor

  /** Number of MLFQ levels. */
  const NUM_LEVELS: nat := 2
  /** The tid of the I/O task, the first task spawned. */
  const IO_TASK_TID: nat := 0

  /**
   * `Task`: a kernel thread and the executor its thread runs. The Rust
   * struct holds both through shared handles, so they are references here.
   */
  datatype Task = Task(tid: nat, tcb: TaskControlBlock, executor: Executor, io: bool)

  /** The level a task is queued on: I/O tasks on level 0, all others on level 1. */
  function LevelOf(t: Task): (l: nat)
    ensures l < NUM_LEVELS
    ensures l == 0 <==> t.io
  {
    if t.io then 0 else 1
  }

  /** The tasks of all levels, as a multiset. */
  function Flatten(q: seq<seq<Task>>): multiset<Task>
  {
    if q == [] then multiset{} else Flatten(q[..|q| - 1]) + multiset(q[|q| - 1])
  }

  /** Replacing one level's contents changes the whole by exactly that difference. */
  lemma {:induction false} FlattenUpdate(q: seq<seq<Task>>, i: nat, s: seq<Task>)
    requires i < |q|
    ensures Flatten(q[i := s]) + multiset(q[i]) == Flatten(q) + multiset(s)
    decreases |q|
  {
    var n := |q| - 1;
    var p: seq<seq<Task>> := q[i := s];
    assert Flatten(q) == Flatten(q[..n]) + multiset(q[n]);
    assert Flatten(p) == Flatten(p[..n]) + multiset(p[n]);
    if i == n {
      assert p[..n] == q[..n];
    } else {
      assert p[..n] == q[..n][i := s];
      assert q[..n][i] == q[i];
      FlattenUpdate(q[..n], i, s);
      calc {
        Flatten(p) + multiset(q[i]);
        Flatten(q[..n][i := s]) + multiset(q[n]) + multiset(q[i]);
        (Flatten(q[..n][i := s]) + multiset(q[..n][i])) + multiset(q[n]);
        Flatten(q[..n]) + multiset(s) + multiset(q[n]);
        Flatten(q) + multiset(s);
      }
    }
  }

  /** Every queued task's thread has a full register file. */
  ghost predicate LevelsValid(q: seq<seq<Task>>)
  {
    forall l, j :: 0 <= l < |q| && 0 <= j < |q[l]| ==> q[l][j].tcb.Valid()
  }

  function OptionSet(t: Option<Task>): multiset<Task>
  {
    if t.Some? then multiset{t.value} else multiset{}
  }

  /** `VecDeque::swap(a, b)`. */
  function Swap(s: seq<Task>, a: nat, b: nat): (r: seq<Task>)
    requires a < |s| && b < |s|
    ensures |r| == |s| && r[a] == s[b] && r[b] == s[a]
    ensures forall k :: 0 <= k < |s| && k != a && k != b ==> r[k] == s[k]
    ensures multiset(r) == multiset(s)
  {
    s[a := s[b]][b := s[a]]
  }

  /**
   * Removing position `j` of a level the way `get_task_by_tid` does: swap it
   * with the front, then pop the front. The old front moves into the vacated
   * position and every other task keeps its place.
   */
  function SwapRemoveFront(s: seq<Task>, j: nat): (r: seq<Task>)
    requires j < |s|
    ensures |r| == |s| - 1
    ensures forall k :: 0 <= k < |r| ==> r[k] == if k + 1 == j then s[0] else s[k + 1]
    ensures j == 0 ==> r == s[1..]
    ensures j > 0 ==> r == s[1..j] + [s[0]] + s[j + 1..]
    ensures multiset(r) + multiset{s[j]} == multiset(s)
  {
    var w := Swap(s, 0, j);
    assert w == [s[j]] + w[1..];
    if j > 0 then
      SwappedTail(s, w, j);
      w[1..]
    else
      w[1..]
  }

  /** The tail of the level after the swap, written out piece by piece. */
  lemma SwappedTail(s: seq<Task>, w: seq<Task>, j: nat)
    requires 0 < j < |s| && |w| == |s| && w[j] == s[0]
    requires forall k :: 0 < k < |s| && k != j ==> w[k] == s[k]
    ensures w[1..] == s[1..j] + [s[0]] + s[j + 1..]
  {
    var v := s[1..j] + [s[0]] + s[j + 1..];
    forall k | 0 <= k < |v|
      ensures w[1..][k] == v[k]
    {
      if k + 1 < j {
        assert v[k] == s[1..j][k];
      } else if k + 1 > j {
        assert v[k] == s[j + 1..][k - j];
      }
    }
  }

  /** As `FlattenRemove`, with the slot's contents added on both sides. */
  lemma ContentsRemove(q: seq<seq<Task>>, slot: multiset<Task>, i: nat, j: nat)
    requires i < |q| && j < |q[i]|
    ensures Flatten(q) + slot == (Flatten(q[i := SwapRemoveFront(q[i], j)]) + slot) + OptionSet(Some(q[i][j]))
  {
    FlattenRemove(q, i, j);
  }

  /** What remains after a removal still has valid threads. */
  lemma LevelsValidRemove(q: seq<seq<Task>>, i: nat, j: nat)
    requires LevelsValid(q) && i < |q| && j < |q[i]|
    ensures LevelsValid(q[i := SwapRemoveFront(q[i], j)])
  {
    var r := SwapRemoveFront(q[i], j);
    var p: seq<seq<Task>> := q[i := r];
    forall l, k | 0 <= l < |p| && 0 <= k < |p[l]|
      ensures p[l][k].tcb.Valid()
    {
      if l == i {
        assert r[k] == if k + 1 == j then q[i][0] else q[i][k + 1];
      }
    }
  }

  /** Popping the front of a level keeps the rest valid; the popped task is valid. */
  lemma LevelsValidPop(q: seq<seq<Task>>, l: nat)
    requires LevelsValid(q) && l < |q| && q[l] != []
    ensures LevelsValid(q[l := q[l][1..]]) && q[l][0].tcb.Valid()
  {
    var p: seq<seq<Task>> := q[l := q[l][1..]];
    forall m, k | 0 <= m < |p| && 0 <= k < |p[m]|
      ensures p[m][k].tcb.Valid()
    {
      if m == l {
        assert q[l][1..][k] == q[l][k + 1];
      }
    }
  }

  /** Pushing a task with a valid thread keeps the levels valid. */
  lemma LevelsValidPush(q: seq<seq<Task>>, l: nat, t: Task)
    requires LevelsValid(q) && l < |q| && t.tcb.Valid()
    ensures LevelsValid(q[l := q[l] + [t]])
  {
    var p: seq<seq<Task>> := q[l := q[l] + [t]];
    forall m, k | 0 <= m < |p| && 0 <= k < |p[m]|
      ensures p[m][k].tcb.Valid()
    {
      if m == l && k < |q[l]| {
        assert (q[l] + [t])[k] == q[l][k];
      }
    }
  }

  lemma MultisetCancel(a: multiset<Task>, b: multiset<Task>, c: multiset<Task>)
    requires a + c == b + c
    ensures a == b
  {
    forall x
      ensures a[x] == b[x]
    {
      assert (a + c)[x] == (b + c)[x];
    }
  }

  /** Removing one task from one level removes exactly that task from the whole. */
  lemma FlattenRemove(q: seq<seq<Task>>, i: nat, j: nat)
    requires i < |q| && j < |q[i]|
    ensures Flatten(q) == Flatten(q[i := SwapRemoveFront(q[i], j)]) + multiset{q[i][j]}
  {
    var r := SwapRemoveFront(q[i], j);
    FlattenUpdate(q, i, r);
    var whole, rest, level, left := Flatten(q), Flatten(q[i := r]), multiset(q[i]), multiset(r);
    assert rest + level == whole + left;
    assert level == left + multiset{q[i][j]};
    assert (rest + multiset{q[i][j]}) + left == whole + left;
    MultisetCancel(rest + multiset{q[i][j]}, whole, left);
  }

  /** No level below `i` holds a task with this tid. */
  ghost predicate NoTid(q: seq<seq<Task>>, tid: nat, i: nat)
    requires i <= |q|
  {
    forall l, j :: 0 <= l < i && 0 <= j < |q[l]| ==> q[l][j].tid != tid
  }

  lemma NoTidNext(q: seq<seq<Task>>, tid: nat, i: nat)
    requires i < |q| && NoTid(q, tid, i)
    requires forall k :: 0 <= k < |q[i]| ==> q[i][k].tid != tid
    ensures NoTid(q, tid, i + 1)
  {
  }

  /** Position j of level i holds the first task with this tid, scanning level 0 first. */
  ghost predicate FirstTid(q: seq<seq<Task>>, tid: nat, i: nat, j: nat)
  {
    i < |q| && j < |q[i]| && q[i][j].tid == tid && NoTid(q, tid, i) &&
    forall k :: 0 <= k < j ==> q[i][k].tid != tid
  }

  /** What `next_task`'s search over the levels returns and leaves behind. */
  datatype Pick = Pick(found: Option<Task>, queue: seq<seq<Task>>, level: nat)

  /**
   * The level search of `next_task`: try up to `tries` levels starting at
   * `level`, moving the cursor on by one (mod NUM_LEVELS) before each
   * try, and pop the front of the first non-empty level.
   */
  function Scan(q: seq<seq<Task>>, level: nat, tries: nat): Pick
    requires |q| == NUM_LEVELS && level < NUM_LEVELS
    decreases tries
  {
    if tries == 0 then Pick(None, q, level)
    else
      var next := (level + 1) % NUM_LEVELS;
      if q[level] != [] then Pick(Some(q[level][0]), q[level := q[level][1..]], next)
      else Scan(q, next, tries - 1)
  }

  /** The search over all NUM_LEVELS levels, unfolded. */
  lemma ScanUnfold(q: seq<seq<Task>>, level: nat)
    requires |q| == NUM_LEVELS && level < NUM_LEVELS
    ensures var other := (level + 1) % NUM_LEVELS;
      Scan(q, level, NUM_LEVELS) ==
        if q[level] != [] then Pick(Some(q[level][0]), q[level := q[level][1..]], other)
        else if q[other] != [] then Pick(Some(q[other][0]), q[other := q[other][1..]], level)
        else Pick(None, q, level)
  {
    var other := (level + 1) % NUM_LEVELS;
    assert Scan(q, other, 1) ==
      if q[other] != [] then Pick(Some(q[other][0]), q[other := q[other][1..]], (other + 1) % NUM_LEVELS)
      else Scan(q, (other + 1) % NUM_LEVELS, 0);
  }

  /**
   * Over its NUM_LEVELS tries the search takes the front of the cursor's
   * level when that level is non-empty, and otherwise the front of the other
   * level; it finds nothing exactly when every level is empty, in which case
   * the cursor ends where it started. What it finds is removed from exactly
   * that level and the cursor stops just past it.
   */
  lemma ScanAllLevels(q: seq<seq<Task>>, level: nat)
    requires |q| == NUM_LEVELS && level < NUM_LEVELS
    ensures var r := Scan(q, level, NUM_LEVELS);
      r.level < NUM_LEVELS && |r.queue| == NUM_LEVELS &&
      (r.found.None? <==> forall i :: 0 <= i < NUM_LEVELS ==> q[i] == []) &&
      (r.found.None? ==> r.queue == q && r.level == level) &&
      (r.found.Some? ==> exists i :: (0 <= i < NUM_LEVELS && q[i] != [] && (i == level || q[level] == []) &&
        r == Pick(Some(q[i][0]), q[i := q[i][1..]], (i + 1) % NUM_LEVELS)))
  {
    ScanUnfold(q, level);
  }

  /** The search loses no task and invents none: what it finds left exactly one level. */
  lemma ScanConserves(q: seq<seq<Task>>, level: nat)
    requires |q| == NUM_LEVELS && level < NUM_LEVELS
    ensures var r := Scan(q, level, NUM_LEVELS);
      Flatten(q) == Flatten(r.queue) + OptionSet(r.found)
  {
    ScanUnfold(q, level);
    var other := (level + 1) % NUM_LEVELS;
    if q[level] != [] {
      FlattenPop(q, level);
    } else if q[other] != [] {
      FlattenPop(q, other);
    }
  }

  /** Popping the front of one level removes exactly that task from the whole. */
  lemma FlattenPop(q: seq<seq<Task>>, l: nat)
    requires l < |q| && q[l] != []
    ensures Flatten(q) == Flatten(q[l := q[l][1..]]) + OptionSet(Some(q[l][0]))
  {
    var r := q[l][1..];
    FlattenUpdate(q, l, r);
    assert q[l] == [q[l][0]] + r;
    MultisetCancel(Flatten(q[l := r]) + multiset{q[l][0]}, Flatten(q), multiset(r));
  }

  /** The executors of a collection of tasks. */
  ghost function ExecutorsIn(m: multiset<Task>): set<Executor>
  {
    set t | t in m :: t.executor
  }

  /** The thread control blocks of a collection of tasks. */
  ghost function TcbsIn(m: multiset<Task>): set<TaskControlBlock>
  {
    set t | t in m :: t.tcb
  }

  /** The register files of a collection of tasks. */
  ghost function RegisterFilesIn(m: multiset<Task>): set<array<bv64>>
  {
    set t | t in m :: t.tcb.ctx.x
  }

  /** Fewer tasks have fewer executors, threads and register files. */
  lemma FootprintSub(a: multiset<Task>, b: multiset<Task>)
    requires a <= b
    ensures ExecutorsIn(a) <= ExecutorsIn(b) && TcbsIn(a) <= TcbsIn(b)
    ensures RegisterFilesIn(a) <= RegisterFilesIn(b)
  {
  }

  /** A task in the whole sits at some position of some level. */
  lemma {:induction false} FlattenMember(q: seq<seq<Task>>, t: Task) returns (l: nat, j: nat)
    requires t in Flatten(q)
    ensures l < |q| && j < |q[l]| && q[l][j] == t
    decreases |q|
  {
    var n := |q| - 1;
    if t in multiset(q[n]) {
      l := n;
      j :| 0 <= j < |q[n]| && q[n][j] == t;
    } else {
      l, j := FlattenMember(q[..n], t);
    }
  }

  /** A task held in the levels or the slot has a valid thread. */
  lemma HeldTask(q: seq<seq<Task>>, slot: Option<Task>, t: Task)
    requires LevelsValid(q) && (slot.Some? ==> slot.value.tcb.Valid())
    requires t in Flatten(q) + OptionSet(slot)
    ensures t.tcb.Valid()
  {
    if t !in OptionSet(slot) {
      var l, j := FlattenMember(q, t);
    }
  }

  /** `MlfqStruct`. */
  class Mlfq {
    var queue: seq<seq<Task>>
    /** The task that did not use up its time slice, run next. */
    var task: Option<Task>
    /** The level the next search starts at. */
    var level: nat

    /** Every task held, in the levels and in the slot. */
    function Contents(): multiset<Task>
      reads this
    {
      Flatten(queue) + OptionSet(task)
    }

    /** The executors of the tasks held. */
    ghost function Executors(): set<Executor>
      reads this
    {
      ExecutorsIn(Contents())
    }

    /** The thread control blocks of the tasks held. */
    ghost function Tcbs(): set<TaskControlBlock>
      reads this
    {
      TcbsIn(Contents())
    }

    /** The register files of the tasks held. */
    ghost function RegisterFiles(): set<array<bv64>>
      reads this
    {
      RegisterFilesIn(Contents())
    }

    ghost predicate Valid()
      reads this
    {
      |queue| == NUM_LEVELS && level < NUM_LEVELS && LevelsValid(queue) &&
      (task.Some? ==> task.value.tcb.Valid())
    }

    /** The lazily built global `MLFQ`: NUM_LEVELS empty levels, an empty slot, the cursor at 0. */
    constructor ()
      ensures Valid() && task == None && level == 0 && Contents() == multiset{}
      ensures |queue| == NUM_LEVELS && forall i :: 0 <= i < NUM_LEVELS ==> queue[i] == []
    {
      var v: seq<seq<Task>> := [];
      var i := 0;
      while i < NUM_LEVELS
        invariant 0 <= i <= NUM_LEVELS && |v| == i
        invariant forall k :: 0 <= k < i ==> v[k] == []
        invariant Flatten(v) == multiset{}
      {
        assert (v + [[]])[..i] == v;
        v := v + [[]];
        i := i + 1;
      }
      queue := v;
      task := None;
      level := 0;
    }

    /**
     * `next_task`: the task in the slot if there is one, emptying the slot;
     * otherwise the front of the first non-empty level in rotation order
     * from the cursor, which moves on once per level tried.
     */
    method NextTask() returns (t: Option<Task>)
      requires Valid()
      modifies this
      ensures Valid() && task == None
      ensures old(task).Some? ==> t == old(task) && queue == old(queue) && level == old(level)
      ensures old(task).None? ==> Pick(t, queue, level) == Scan(old(queue), old(level), NUM_LEVELS)
      ensures t.None? <==> old(task).None? && forall i :: 0 <= i < NUM_LEVELS ==> old(queue)[i] == []
      ensures old(Contents()) == Contents() + OptionSet(t)
    {
      if task.Some? {
        t := task;
        task := None;
        return;
      }
      ghost var q0, l0 := queue, level;
      t := None;
      var i := 0;
      while i < NUM_LEVELS && t.None?
        invariant 0 <= i <= NUM_LEVELS && task == None && level < NUM_LEVELS
        invariant t.None? ==> queue == q0 && Scan(queue, level, NUM_LEVELS - i) == Scan(q0, l0, NUM_LEVELS)
        invariant t.Some? ==> Pick(t, queue, level) == Scan(q0, l0, NUM_LEVELS)
        invariant |queue| == NUM_LEVELS && LevelsValid(queue) && (t.Some? ==> t.value.tcb.Valid())
      {
        var l := level;
        level := (level + 1) % NUM_LEVELS;
        if queue[l] != [] {
          LevelsValidPop(queue, l);
          t := Some(queue[l][0]);
          queue := queue[l := queue[l][1..]];
        }
        i := i + 1;
      }
      ScanAllLevels(q0, l0);
      ScanConserves(q0, l0);
    }

    /**
     * The search loops of `get_task_by_tid`: the position of the first task
     * with this tid, scanning level 0 first and each level front to back.
     */
    method FindTid(tid: nat) returns (found: bool, i: nat, j: nat)
      requires Valid()
      ensures found ==> FirstTid(queue, tid, i, j)
      ensures !found ==> NoTid(queue, tid, NUM_LEVELS)
    {
      i, j := 0, 0;
      found := false;
      while i < NUM_LEVELS && !found
        invariant 0 <= i <= NUM_LEVELS
        invariant !found ==> NoTid(queue, tid, i)
        invariant found ==> FirstTid(queue, tid, i, j)
        decreases NUM_LEVELS - i, if found then 0 else 1
      {
        j := 0;
        while j < |queue[i]| && !found
          invariant 0 <= j <= |queue[i]|
          invariant !found ==> forall k :: 0 <= k < j ==> queue[i][k].tid != tid
          invariant found ==> FirstTid(queue, tid, i, j)
          decreases |queue[i]| - j, if found then 0 else 1
        {
          if queue[i][j].tid == tid {
            found := true;
          } else {
            j := j + 1;
          }
        }
        if !found {
          NoTidNext(queue, tid, i);
          i := i + 1;
        }
      }
    }

    /**
     * `get_task_by_tid`: remove and return the first task with this tid,
     * scanning level 0 first; the front of its level moves into its place.
     */
    method GetTaskByTid(tid: nat) returns (t: Option<Task>, ghost i: nat, ghost j: nat)
      requires Valid()
      modifies this
      ensures Valid() && task == old(task) && level == old(level)
      ensures t.None? ==> queue == old(queue) && NoTid(old(queue), tid, NUM_LEVELS)
      ensures t.Some? ==> FirstTid(old(queue), tid, i, j) && t == Some(old(queue)[i][j])
      ensures t.Some? ==> queue == old(queue)[i := SwapRemoveFront(old(queue)[i], j)]
      ensures old(Contents()) == Contents() + OptionSet(t)
      ensures t.Some? ==> t.value.tcb.Valid() && t.value.executor in old(Executors()) && t.value.tcb in old(Tcbs())
    {
      var found, li, lj := FindTid(tid);
      i, j := li, lj;
      if !found {
        return None, i, j;
      }
      var taken := TakeAt(li, lj);
      t := Some(taken);
    }

    /** The removal of `get_task_by_tid`: `swap(0, j)` then `pop_front` on level i. */
    method TakeAt(i: nat, j: nat) returns (t: Task)
      requires Valid() && i < |queue| && j < |queue[i]|
      modifies this
      ensures Valid() && task == old(task) && level == old(level)
      ensures t == old(queue)[i][j] && queue == old(queue)[i := SwapRemoveFront(old(queue)[i], j)]
      ensures old(Contents()) == Contents() + OptionSet(Some(t))
    {
      ContentsRemove(queue, OptionSet(task), i, j);
      LevelsValidRemove(queue, i, j);
      t := queue[i][j];
      queue := queue[i := SwapRemoveFront(queue[i], j)];
    }

    /** `add_task_to_queue`: I/O tasks to the back of level 0, all others to the back of level 1. */
    method AddTaskToQueue(t: Task)
      requires Valid() && t.tcb.Valid()
      modifies this
      ensures Valid() && task == old(task) && level == old(level)
      ensures queue == old(queue)[LevelOf(t) := old(queue)[LevelOf(t)] + [t]]
      ensures Contents() == old(Contents()) + multiset{t}
    {
      var l := LevelOf(t);
      FlattenUpdate(queue, l, queue[l] + [t]);
      LevelsValidPush(queue, l, t);
      queue := queue[l := queue[l] + [t]];
    }

    /**
     * `add_task_transient`: the task takes the slot; a task already there
     * goes to the back of its level. No task is lost or duplicated.
     */
    method AddTaskTransient(t: Task)
      requires Valid() && t.tcb.Valid()
      modifies this
      ensures Valid() && task == Some(t) && level == old(level)
      ensures old(task).None? ==> queue == old(queue)
      ensures old(task).Some? ==>
        queue == old(queue)[LevelOf(old(task).value) := old(queue)[LevelOf(old(task).value)] + [old(task).value]]
      ensures Contents() == old(Contents()) + multiset{t}
    {
      match task {
        case None =>
          task := Some(t);
        case Some(prev) =>
          task := Some(t);
          AddTaskToQueue(prev);
      }
    }
  }

  /** `Task::new`: the next tid from the task counter. */
  method NewTask(tids: Counter, tcb: TaskControlBlock, executor: Executor, io: bool) returns (t: Task)
    requires tids.Valid()
    modifies tids
    ensures tids.Valid() && tids.issued == old(tids.issued) + [t.tid]
    ensures t.tcb == tcb && t.executor == executor && t.io == io
    ensures |old(tids.issued)| < WORD ==> forall x :: x in old(tids.issued) ==> x < t.tid
  {
    var tid := tids.FetchAdd();
    t := Task(tid, tcb, executor, io);
  }

  /** The free `add_task_to_queue`: mark the thread Blocking, then queue the task on its level. */
  method AddTaskToQueue(mlfq: Mlfq, t: Task)
    requires mlfq.Valid() && t.tcb.Valid()
    modifies mlfq, t.tcb
    ensures mlfq.Valid() && t.tcb.status == Blocking
    ensures mlfq.task == old(mlfq.task) && mlfq.level == old(mlfq.level)
    ensures mlfq.queue == old(mlfq.queue)[LevelOf(t) := old(mlfq.queue)[LevelOf(t)] + [t]]
    ensures mlfq.Contents() == old(mlfq.Contents()) + multiset{t}
  {
    t.tcb.status := Blocking;
    mlfq.AddTaskToQueue(t);
  }

  /**
   * `spawn(f, is_io)`: a new executor holding the coroutine `f`, a thread
   * running that executor (`body`, entering at `entry` with the runner at
   * `runnerAddr`, on a stack at `stackBase`), a new tid, and the task queued
   * Blocking at the back of its level.
   */
  method Spawn(mlfq: Mlfq, f: Future, io: bool, taskIds: Counter, tids: Counter,
               body: Closure, entry: bv64, runnerAddr: bv64, stackBase: bv64) returns (tid: nat)
    requires mlfq.Valid() && taskIds.Valid() && tids.Valid() && taskIds != tids
    modifies mlfq, taskIds, tids
    ensures mlfq.Valid() && taskIds.Valid() && tids.Valid()
    ensures tids.issued == old(tids.issued) + [tid]
    ensures |taskIds.issued| == |old(taskIds.issued)| + 1
    ensures mlfq.task == old(mlfq.task) && mlfq.level == old(mlfq.level)
    ensures var l := if io then 0 else 1;
      mlfq.queue[l] != [] &&
      var t := mlfq.queue[l][|mlfq.queue[l]| - 1];
      mlfq.queue == old(mlfq.queue)[l := old(mlfq.queue)[l] + [t]] &&
      t.tid == tid && t.io == io && fresh(t.executor) && fresh(t.tcb) && t.tcb.status == Blocking &&
      t.executor.tasks == map[taskIds.issued[|taskIds.issued| - 1] := f] &&
      t.executor.taskQueue == [taskIds.issued[|taskIds.issued| - 1]] &&
      t.executor.wakerCache == {} && t.executor.ticks == 0
  {
    var executor := new Executor();
    var id := NewTaskId(taskIds);
    var o := executor.Spawn(id, f);
    assert o == Done;
    var tcb, runner := Thread.Spawn(body, entry, runnerAddr, stackBase);
    var t := NewTask(tids, tcb, executor, io);
    tid := t.tid;
    AddTaskToQueue(mlfq, t);
  }

  /**
   * `Task::steal`: steal the task's executor; on success, wrap the new
   * executor in a new I/O task whose thread runs it.
   */
  method StealTask(t: Task, tids: Counter, body: Closure, entry: bv64, runnerAddr: bv64, stackBase: bv64)
    returns (o: Outcome, stolen: Option<Task>)
    requires tids.Valid()
    modifies t.executor, tids
    ensures tids.Valid() && t.executor.ticks == old(t.executor.ticks)
    ensures |old(t.executor.taskQueue)| <= 1 ==>
      o == Done && stolen == None && t.executor.State() == old(t.executor.State()) &&
      tids.issued == old(tids.issued)
    ensures |old(t.executor.taskQueue)| > 1 && !Stealable(old(t.executor.taskQueue), old(t.executor.tasks)) ==>
      o.Panic?
    ensures |old(t.executor.taskQueue)| > 1 && Stealable(old(t.executor.taskQueue), old(t.executor.tasks)) ==>
      o == Done && stolen.Some? && stolen.value.io &&
      fresh(stolen.value.executor) && fresh(stolen.value.tcb) &&
      (old(t.executor.Valid()) ==> stolen.value.executor.Valid()) && stolen.value.tcb.Valid() && stolen.value.tcb.status == TaskStatus.Ready &&
      tids.issued == old(tids.issued) + [stolen.value.tid] &&
      stolen.value.executor.taskQueue == old(t.executor.taskQueue) &&
      stolen.value.executor.tasks == Split(old(t.executor.tasks), Ids(old(t.executor.taskQueue))).0 &&
      t.executor.tasks == Split(old(t.executor.tasks), Ids(old(t.executor.taskQueue))).1
  {
    var e;
    o, e := t.executor.Steal();
    stolen := None;
    if o.Panic? || e.None? {
      return;
    }
    var tcb, runner := Thread.Spawn(body, entry, runnerAddr, stackBase);
    var nt := NewTask(tids, tcb, e.value, true);
    stolen := Some(nt);
  }

  /** `Task::append`: spawn the future, under a new coroutine id, on the task's executor. */
  method Append(t: Task, fut: Future, taskIds: Counter) returns (o: Outcome, id: TaskId)
    requires taskIds.Valid()
    modifies t.executor, taskIds
    ensures taskIds.Valid() && taskIds.issued == old(taskIds.issued) + [id]
    ensures Spawned(old(t.executor.State()), t.executor.State(), id, fut, o)
  {
    id := NewTaskId(taskIds);
    o := t.executor.Spawn(id, fut);
  }

  /** Whether `handle_append_task` hands the future to the I/O task instead of the caller. */
  predicate Redirects(t: Task)
  {
    t.tid != IO_TASK_TID && t.io
  }

  /** The executor state of `target`, or an empty one when there is none. */
  ghost function StateOf(target: Option<Executor>): ExecState
    reads if target.Some? then {target.value} else {}
  {
    if target.Some? then target.value.State() else ExecState(map[], [], {}, 0)
  }

  /**
   * What `handle_append_task` does, from the levels `q0`, coroutine ids
   * `issued0` and the receiving executor's state `e0` to `q1`, `issued1`
   * and `e1`: the future goes to `target`, the caller's own executor unless
   * the caller redirects, in which case `IoAppended` says what happens. The
   * receiving executor is spawned on under the fresh id `id`.
   */
  ghost predicate AppendEffect(t: Task, fut: Future, o: Outcome, i: nat, j: nat, id: TaskId, target: Option<Executor>,
                               q0: seq<seq<Task>>, q1: seq<seq<Task>>, issued0: seq<nat>, issued1: seq<nat>,
                               e0: ExecState, e1: ExecState)
  {
    (!Redirects(t) ==>
      target == Some(t.executor) && q1 == q0 && issued1 == issued0 + [id] && Spawned(e0, e1, id, fut, o)) &&
    (Redirects(t) ==> IoAppended(fut, o, i, j, id, target, q0, q1, issued0, issued1, e0, e1))
  }

  /**
   * The redirected append: the first queued task with tid IO_TASK_TID
   * (position `j` of level `i`) is taken out of the levels, its executor
   * (`target`) is spawned on under the fresh id `id`, and it is queued again
   * at the back of its level. When there is no such task, nothing changes
   * and the future is dropped.
   */
  ghost predicate IoAppended(fut: Future, o: Outcome, i: nat, j: nat, id: TaskId, target: Option<Executor>,
                             q0: seq<seq<Task>>, q1: seq<seq<Task>>, issued0: seq<nat>, issued1: seq<nat>,
                             e0: ExecState, e1: ExecState)
  {
    |q0| == NUM_LEVELS &&
    (NoTid(q0, IO_TASK_TID, NUM_LEVELS) ==> target == None && o == Done && q1 == q0 && issued1 == issued0) &&
    (!NoTid(q0, IO_TASK_TID, NUM_LEVELS) ==>
      FirstTid(q0, IO_TASK_TID, i, j) && target == Some(q0[i][j].executor) &&
      var io := q0[i][j];
      var rest := q0[i := SwapRemoveFront(q0[i], j)];
      q1 == rest[LevelOf(io) := rest[LevelOf(io)] + [io]]) &&
    (target.Some? ==> issued1 == issued0 + [id] && Spawned(e0, e1, id, fut, o))
  }

  /**
   * `handle_append_task`: when the caller is an I/O task other than the
   * I/O task itself, take the I/O task out of the levels, give it the
   * future and queue it again, and answer IO_TASK_TID; when no queued task
   * has that tid, the future is dropped. Otherwise the caller's own
   * executor gets the future and the answer is the caller's tid.
   */
  method HandleAppendTask(t: Task, fut: Future, mlfq: Mlfq, taskIds: Counter)
    returns (o: Outcome, ret: nat, ghost i: nat, ghost j: nat, ghost id: TaskId, ghost target: Option<Executor>)
    requires mlfq.Valid() && taskIds.Valid()
    modifies mlfq, taskIds, t.executor, mlfq.Executors(), mlfq.Tcbs()
    ensures mlfq.Valid() && taskIds.Valid()
    ensures ret == if Redirects(t) then IO_TASK_TID else t.tid
    ensures mlfq.task == old(mlfq.task) && mlfq.level == old(mlfq.level)
    ensures mlfq.Contents() == old(mlfq.Contents())
    ensures old(allocated(target))
    ensures AppendEffect(t, fut, o, i, j, id, target, old(mlfq.queue), mlfq.queue, old(taskIds.issued), taskIds.issued,
                         old(StateOf(target)), StateOf(target))
    ensures Redirects(t) && target.Some? ==> old(mlfq.queue)[i][j].tcb.status == Blocking
    ensures target.Some? ==> target.value == t.executor || target.value in old(mlfq.Executors())
  {
    i, j := 0, 0;
    if Redirects(t) {
      o, i, j, id, target := AppendToIoTask(fut, mlfq, taskIds);
      ret := IO_TASK_TID;
    } else {
      o, id := Append(t, fut, taskIds);
      target := Some(t.executor);
      ret := t.tid;
    }
  }

  /**
   * The redirecting branch of `handle_append_task`: take the I/O task out
   * of the levels, give it the future and queue it again, Blocking. When no
   * queued task has tid IO_TASK_TID nothing happens and the future is dropped.
   */
  method AppendToIoTask(fut: Future, mlfq: Mlfq, taskIds: Counter)
    returns (o: Outcome, ghost i: nat, ghost j: nat, ghost id: TaskId, ghost target: Option<Executor>)
    requires mlfq.Valid() && taskIds.Valid()
    modifies mlfq, taskIds, mlfq.Executors(), mlfq.Tcbs()
    ensures mlfq.Valid() && taskIds.Valid()
    ensures mlfq.task == old(mlfq.task) && mlfq.level == old(mlfq.level)
    ensures mlfq.Contents() == old(mlfq.Contents())
    ensures old(allocated(target))
    ensures IoAppended(fut, o, i, j, id, target, old(mlfq.queue), mlfq.queue, old(taskIds.issued), taskIds.issued,
                       old(StateOf(target)), StateOf(target))
    ensures target.Some? ==> old(mlfq.queue)[i][j].tcb.status == Blocking
    ensures target.Some? ==> target.value in old(mlfq.Executors())
  {
    ghost var q0, issued0 := mlfq.queue, taskIds.issued;
    var found;
    found, i, j := mlfq.GetTaskByTid(IO_TASK_TID);
    assert taskIds.issued == issued0;
    o, id, target := Done, 0, None;
    if found.Some? {
      ghost var e0 := found.value.executor.State();
      assert e0 == old(found.value.executor.State());
      o, id, target := RequeueFound(q0, i, j, found.value, fut, mlfq, taskIds);
      assert old(StateOf(target)) == e0;
    }
  }

  /** The I/O task found: it gets the future and is queued again; `target` is its executor. */
  method RequeueFound(ghost q0: seq<seq<Task>>, ghost i: nat, ghost j: nat, io: Task, fut: Future, mlfq: Mlfq,
                      taskIds: Counter)
    returns (o: Outcome, ghost id: TaskId, ghost target: Option<Executor>)
    requires |q0| == NUM_LEVELS && FirstTid(q0, IO_TASK_TID, i, j) && io == q0[i][j]
    requires mlfq.queue == q0[i := SwapRemoveFront(q0[i], j)]
    requires mlfq.Valid() && taskIds.Valid() && io.tcb.Valid()
    modifies mlfq, taskIds, io.executor, io.tcb
    ensures mlfq.Valid() && taskIds.Valid()
    ensures mlfq.task == old(mlfq.task) && mlfq.level == old(mlfq.level)
    ensures mlfq.Contents() == old(mlfq.Contents()) + multiset{io}
    ensures io.tcb.status == Blocking
    ensures old(allocated(target))
    ensures IoAppended(fut, o, i, j, id, target, q0, mlfq.queue, old(taskIds.issued), taskIds.issued,
                       old(StateOf(target)), StateOf(target))
  {
    assert !NoTid(q0, IO_TASK_TID, NUM_LEVELS);
    o, id := Requeue(io, fut, mlfq, taskIds);
    target := Some(io.executor);
  }

  method Requeue(io: Task, fut: Future, mlfq: Mlfq, taskIds: Counter) returns (o: Outcome, ghost id: TaskId)
    requires mlfq.Valid() && taskIds.Valid() && io.tcb.Valid()
    modifies mlfq, taskIds, io.executor, io.tcb
    ensures mlfq.Valid() && taskIds.Valid() && taskIds.issued == old(taskIds.issued) + [id]
    ensures Spawned(old(io.executor.State()), io.executor.State(), id, fut, o)
    ensures mlfq.task == old(mlfq.task) && mlfq.level == old(mlfq.level)
    ensures mlfq.queue == old(mlfq.queue)[LevelOf(io) := old(mlfq.queue)[LevelOf(io)] + [io]]
    ensures mlfq.Contents() == old(mlfq.Contents()) + multiset{io}
    ensures io.tcb.status == Blocking
  {
    o, id := Append(io, fut, taskIds);
    AddTaskToQueue(mlfq, io);
  }
}
