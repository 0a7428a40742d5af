/** The ffmpeg child of one source, shared by its worker thread and by controller threads
    that stop it.

    The worker runs `run`, `read_chunk`, `_restart`, `start` and `stop`; each controller
    thread sets the stop flag and then calls `stop`.  `Next` interleaves them one
    shared-memory access, lock operation or child event at a time. */
module AudioSource {
  import opened Util

  type Child = nat

  /** What the worker does once the section it is in returns. */
  datatype After = ToLoop | ToReread | ToFlagCheck | ToEnd

  /** The worker's program counter. */
  datatype WorkerPc =
    | StartWait(after: After)                   // about to take the lock in start()
    | StartSpawn(after: After)                  // lock held, Popen not yet called
    | StartAssign(child: Child, after: After)   // child running, self.process not yet set
    | StartRelease(after: After)
    | LoopCheck                                 // while not stop_event.is_set()
    | ReadProcess                               // process = self.process
    | RereadProcess                             // the same, after start()
    | Reading(child: Child)                     // blocked in stdout.read
    | PollExit(child: Child)                    // short read: process.poll()
    | StopWait(after: After)                    // about to take the lock in stop()
    | StopLook(after: After)                    // lock held, process = self.process
    | StopKill(child: Child, after: After)      // terminate, wait, else kill
    | StopClear(after: After)                   // self.process = None
    | StopRelease(after: After)
    | FlagCheck                                 // _restart: if stop_event.is_set(): return
    | Sleeping                                  // time.sleep(retry_interval)
    | Returned                                  // run() has returned

  /** A controller thread in `_stop_worker`. */
  datatype ControlPc = SetFlag | Wait | Look | Kill(child: Child) | Drop | Release | Finished

  datatype Owner = Nobody | TheWorker | Controller(i: nat)

  datatype State = State(
    lock: Owner, process: Option<Child>, alive: set<Child>, spawned: nat,
    flag: bool, late: nat, worker: WorkerPc, controls: seq<ControlPc>)

  /** `spawned` numbers the children; `late` counts those spawned after the flag was set. */
  predicate Init(s: State) {
    && s.lock == Nobody && s.process == None && s.alive == {} && s.spawned == 0
    && !s.flag && s.late == 0 && s.worker == StartWait(ToLoop)
    && forall i :: 0 <= i < |s.controls| ==> s.controls[i] == SetFlag
  }

  function Then(after: After): WorkerPc {
    match after
    case ToLoop => LoopCheck
    case ToReread => RereadProcess
    case ToFlagCheck => FlagCheck
    case ToEnd => Returned
  }

  // -- steps ----------------------------------------------------------------------------

  predicate WorkerStart(s: State, t: State) {
    match s.worker
    case StartWait(a) => s.lock == Nobody && t == s.(lock := TheWorker, worker := StartSpawn(a))
    case StartSpawn(a) =>
      t == s.(alive := s.alive + {s.spawned}, spawned := s.spawned + 1,
              late := s.late + (if s.flag then 1 else 0), worker := StartAssign(s.spawned, a))
    case StartAssign(c, a) => t == s.(process := Some(c), worker := StartRelease(a))
    case StartRelease(a) => t == s.(lock := Nobody, worker := Then(a))
    case _ => false
  }

  predicate WorkerStop(s: State, t: State) {
    match s.worker
    case StopWait(a) => s.lock == Nobody && t == s.(lock := TheWorker, worker := StopLook(a))
    case StopLook(a) =>
      t == s.(worker := if s.process.None? then StopRelease(a) else StopKill(s.process.value, a))
    case StopKill(c, a) => t == s.(alive := s.alive - {c}, worker := StopClear(a))
    case StopClear(a) => t == s.(process := None, worker := StopRelease(a))
    case StopRelease(a) => t == s.(lock := Nobody, worker := Then(a))
    case _ => false
  }

  predicate WorkerLoop(s: State, t: State) {
    match s.worker
    case LoopCheck => t == s.(worker := if s.flag then StopWait(ToEnd) else ReadProcess)
    case ReadProcess =>
      t == s.(worker := if s.process.None? then StartWait(ToReread) else Reading(s.process.value))
    case RereadProcess =>
      t == s.(worker := if s.process.None? then LoopCheck else Reading(s.process.value))
    // a full chunk (processed before the loop test), a short read, or an exception
    case Reading(c) =>
      t == s.(worker := LoopCheck) || t == s.(worker := PollExit(c)) || t == s.(worker := StopWait(ToFlagCheck))
    case PollExit(c) => t == s.(worker := if c in s.alive then LoopCheck else StopWait(ToFlagCheck))
    case FlagCheck => t == s.(worker := if s.flag then LoopCheck else Sleeping)
    case Sleeping => t == s.(worker := StartWait(ToLoop))
    case _ => false
  }

  predicate ControlStep(s: State, t: State, i: nat)
    requires i < |s.controls|
  {
    match s.controls[i]
    case SetFlag => t == s.(flag := true, controls := s.controls[i := Wait])
    case Wait => s.lock == Nobody && t == s.(lock := Controller(i), controls := s.controls[i := Look])
    case Look =>
      t == s.(controls := s.controls[i := if s.process.None? then Release else Kill(s.process.value)])
    case Kill(c) => t == s.(alive := s.alive - {c}, controls := s.controls[i := Drop])
    case Drop => t == s.(process := None, controls := s.controls[i := Release])
    case Release => t == s.(lock := Nobody, controls := s.controls[i := Finished])
    case Finished => false
  }

  /** A child may exit by itself at any time. */
  predicate ChildExits(s: State, t: State) {
    exists c :: c in s.alive && t == s.(alive := s.alive - {c})
  }

  ghost predicate Next(s: State, t: State) {
    || WorkerStart(s, t) || WorkerStop(s, t) || WorkerLoop(s, t) || ChildExits(s, t)
    || exists i :: 0 <= i < |s.controls| && ControlStep(s, t, i)
  }

  // -- the invariant -------------------------------------------------------------------------

  predicate WorkerHolds(w: WorkerPc) {
    || w.StartSpawn? || w.StartAssign? || w.StartRelease?
    || w.StopLook? || w.StopKill? || w.StopClear? || w.StopRelease?
  }

  predicate ControlHolds(c: ControlPc) {
    c.Look? || c.Kill? || c.Drop? || c.Release?
  }

  /** From here the worker will spawn without looking at the flag again. */
  predicate WillStart(w: WorkerPc) {
    w.StartWait? || w.StartSpawn? || w.ReadProcess? || w.Sleeping?
  }

  /** The lock has one holder, and exactly the holder is inside a locked section. */
  ghost predicate LockInv(s: State) {
    && (WorkerHolds(s.worker) <==> s.lock == TheWorker)
    && (s.lock.Controller? ==> s.lock.i < |s.controls|)
    && (forall i :: 0 <= i < |s.controls| ==> (ControlHolds(s.controls[i]) <==> s.lock == Controller(i)))
  }

  /** Where `self.process` must be None: only the worker sets it, and it has just seen or
      made it None. */
  predicate NoProcess(w: WorkerPc) {
    || w.StartWait? || w.StartSpawn? || w.StartAssign? || w.Sleeping? || w.FlagCheck?
    || w.StopRelease? || w.Returned?
  }

  /** `start` is only ever inside its section while `self.process` is None, and only
      `self.process` (or a child about to become it) can be alive. */
  ghost predicate ChildInv(s: State) {
    && (NoProcess(s.worker) ==> s.process == None)
    && (s.worker.StopKill? ==> s.process == Some(s.worker.child))
    && (forall c :: c in s.alive ==>
          s.process == Some(c) || (s.worker.StartAssign? && s.worker.child == c))
    && (s.worker.StopClear? ==> s.alive == {})
    && (forall i :: 0 <= i < |s.controls| ==> ControlInv(s, s.controls[i]))
  }

  ghost predicate ControlInv(s: State, c: ControlPc) {
    && (c.Kill? ==> s.process == Some(c.child))
    && (c.Drop? ==> s.alive == {})
    && (c.Release? ==> s.alive == {} && s.process == None)
  }

  /** After the flag at most one more child is spawned. */
  ghost predicate LateInv(s: State) {
    && (!s.flag ==> s.late == 0)
    && s.late <= 1
    && (s.late == 1 ==> !WillStart(s.worker))
    && (forall i :: 0 <= i < |s.controls| && s.controls[i] != SetFlag ==> s.flag)
    && (s.flag && s.late == 0 && (exists i :: 0 <= i < |s.controls| && s.controls[i] == Finished) ==>
          s.alive == {})
  }

  ghost predicate AfterInv(s: State) {
    && (s.worker.StartWait? || s.worker.StartSpawn? || s.worker.StartAssign? || s.worker.StartRelease? ==>
          s.worker.after == ToLoop || s.worker.after == ToReread)
    && (s.worker.StopWait? || s.worker.StopLook? || s.worker.StopKill? || s.worker.StopClear? ||
        s.worker.StopRelease? ==>
          s.worker.after == ToFlagCheck || (s.worker.after == ToEnd && s.flag))
    && (s.worker == Returned ==> s.flag)
  }

  ghost predicate Inv(s: State) {
    LockInv(s) && ChildInv(s) && LateInv(s) && AfterInv(s)
  }

  lemma InitHolds(s: State)
    requires Init(s)
    ensures Inv(s)
  {
  }

  lemma WorkerStartKeeps(s: State, t: State)
    requires Inv(s) && WorkerStart(s, t)
    ensures Inv(t)
  {
    assert t.controls == s.controls;
    forall i | 0 <= i < |t.controls| ensures ControlInv(t, t.controls[i]) {
      assert ControlInv(s, s.controls[i]);
    }
  }

  lemma WorkerStopKeeps(s: State, t: State)
    requires Inv(s) && WorkerStop(s, t)
    ensures Inv(t)
  {
    assert t.controls == s.controls;
    forall i | 0 <= i < |t.controls| ensures ControlInv(t, t.controls[i]) {
      assert ControlInv(s, s.controls[i]);
    }
  }

  lemma WorkerLoopKeeps(s: State, t: State)
    requires Inv(s) && WorkerLoop(s, t)
    ensures Inv(t)
  {
    assert t.controls == s.controls;
    forall i | 0 <= i < |t.controls| ensures ControlInv(t, t.controls[i]) {
      assert ControlInv(s, s.controls[i]);
    }
  }

  lemma ChildExitKeeps(s: State, t: State)
    requires Inv(s) && ChildExits(s, t)
    ensures Inv(t)
  {
    forall i | 0 <= i < |t.controls| ensures ControlInv(t, t.controls[i]) {
      assert ControlInv(s, s.controls[i]);
    }
  }

  lemma ControlKeeps(s: State, t: State, i: nat)
    requires Inv(s) && i < |s.controls| && ControlStep(s, t, i)
    ensures Inv(t)
  {
    assert ControlInv(s, s.controls[i]);
    forall j | 0 <= j < |t.controls| ensures ControlInv(t, t.controls[j]) {
      if j != i {
        assert t.controls[j] == s.controls[j];
        assert ControlInv(s, s.controls[j]);
      }
    }
    assert s.controls[i] == Release ==> s.alive == {};
  }

  lemma NextKeeps(s: State, t: State)
    requires Inv(s) && Next(s, t)
    ensures Inv(t)
  {
    if WorkerStart(s, t) {
      WorkerStartKeeps(s, t);
    } else if WorkerStop(s, t) {
      WorkerStopKeeps(s, t);
    } else if WorkerLoop(s, t) {
      WorkerLoopKeeps(s, t);
    } else if ChildExits(s, t) {
      ChildExitKeeps(s, t);
    } else {
      var i :| 0 <= i < |s.controls| && ControlStep(s, t, i);
      ControlKeeps(s, t, i);
    }
  }

  // -- every run ---------------------------------------------------------------------------------

  /** `Next` as a value, so that what holds along any linked sequence is proved once. */
  ghost function NextRel(): (State, State) -> bool {
    (s, t) => Next(s, t)
  }

  ghost predicate Linked(run: seq<State>, next: (State, State) -> bool) {
    forall k, m :: 0 <= k < |run| && m == k + 1 && m < |run| ==> next(run[k], run[m])
  }

  ghost predicate IsRun(run: seq<State>) {
    run != [] && Init(run[0]) && Linked(run, NextRel())
  }

  ghost predicate Keeps(next: (State, State) -> bool, p: State -> bool) {
    forall s, t :: p(s) && next(s, t) ==> p(t)
  }

  lemma {:induction false} KeptAlong(run: seq<State>, next: (State, State) -> bool, p: State -> bool, k: nat, m: nat)
    requires k <= m < |run| && p(run[k]) && Linked(run, next) && Keeps(next, p)
    ensures p(run[m])
    decreases m
  {
    if k < m {
      KeptAlong(run, next, p, k, m - 1);
      assert next(run[m - 1], run[m]);
    }
  }

  lemma RunHolds(run: seq<State>, k: nat)
    requires IsRun(run) && k < |run|
    ensures Inv(run[k])
  {
    var inv := s => Inv(s);
    forall s, t | inv(s) && NextRel()(s, t) ensures inv(t) {
      NextKeeps(s, t);
    }
    InitHolds(run[0]);
    KeptAlong(run, NextRel(), inv, 0, k);
  }

  /** In every state of every interleaving: a spawn only happens while `self.process` is
      None and no child is alive, so at most one child is ever alive; at most one child
      is spawned after the stop flag was set; none is alive once `run` has returned;
      and once a controller's `stop` is over, only such a late child can be alive. */
  lemma OneChildAtATime(run: seq<State>, k: nat)
    requires IsRun(run) && k < |run|
    ensures var s := run[k];
      && (s.worker.StartSpawn? ==> s.process == None && s.alive == {})
      && (forall c, d :: c in s.alive && d in s.alive ==> c == d)
      && s.late <= 1
      && (s.worker == Returned ==> s.alive == {} && s.process == None)
      && ((exists i :: 0 <= i < |s.controls| && s.controls[i] == Finished) && s.alive != {} ==> s.late == 1)
  {
    RunHolds(run, k);
    var s := run[k];
    if s.worker.StartSpawn? && s.alive != {} {
      var c :| c in s.alive;
    }
  }

  // -- conditional progress ------------------------------------------------------------------------

  function StopRank(w: WorkerPc): nat {
    match w
    case StopWait(_) => 5 case StopLook(_) => 4 case StopKill(_, _) => 3 case StopClear(_) => 2 case _ => 1
  }

  function StartRank(w: WorkerPc): nat {
    match w
    case StartWait(_) => 4 case StartSpawn(_) => 3 case StartAssign(_, _) => 2 case _ => 1
  }

  /** How many steps of its own the worker can still take once the flag is set. */
  function Rank(w: WorkerPc): (r: nat)
    ensures r <= 20
  {
    match w
    case Returned => 0
    case LoopCheck => 6
    case FlagCheck => 7
    case Sleeping => 11
    case PollExit(_) => 13
    case Reading(_) => 14
    case RereadProcess => 15
    case ReadProcess => 20
    case StartWait(a) => StartRank(w) + if a == ToReread then 15 else 6
    case StartSpawn(a) => StartRank(w) + if a == ToReread then 15 else 6
    case StartAssign(_, a) => StartRank(w) + if a == ToReread then 15 else 6
    case StartRelease(a) => StartRank(w) + if a == ToReread then 15 else 6
    case StopWait(a) => StopRank(w) + if a == ToEnd then 0 else 7
    case StopLook(a) => StopRank(w) + if a == ToEnd then 0 else 7
    case StopKill(_, a) => StopRank(w) + if a == ToEnd then 0 else 7
    case StopClear(a) => StopRank(w) + if a == ToEnd then 0 else 7
    case StopRelease(a) => StopRank(w) + if a == ToEnd then 0 else 7
  }

  lemma StartLowers(s: State, t: State)
    requires AfterInv(s) && s.flag && WorkerStart(s, t)
    ensures t.flag && Rank(t.worker) < Rank(s.worker)
  {
  }

  lemma StopLowers(s: State, t: State)
    requires AfterInv(s) && s.flag && WorkerStop(s, t)
    ensures t.flag && Rank(t.worker) < Rank(s.worker)
  {
  }

  lemma LoopLowers(s: State, t: State)
    requires s.flag && WorkerLoop(s, t)
    ensures t.flag && Rank(t.worker) < Rank(s.worker)
  {
  }

  /** Once the flag is set the worker never loops: each of its steps lowers the rank, no
      other step changes it, so `run` returns within 20 steps of the worker. */
  lemma FlagEndsTheWorker(s: State, t: State)
    requires Inv(s) && Next(s, t) && s.flag
    ensures t.flag && (t.worker == s.worker || Rank(t.worker) < Rank(s.worker))
    ensures WorkerStart(s, t) || WorkerStop(s, t) || WorkerLoop(s, t) ==> Rank(t.worker) < Rank(s.worker)
  {
    if WorkerStart(s, t) {
      StartLowers(s, t);
    } else if WorkerStop(s, t) {
      StopLowers(s, t);
    } else if WorkerLoop(s, t) {
      LoopLowers(s, t);
    }
  }

  /** The worker's own steps between two points of a run. */
  ghost function WorkerSteps(run: seq<State>, k: nat, m: nat): nat
    requires k <= m < |run|
    decreases m
  {
    if k == m then 0
    else WorkerSteps(run, k, m - 1) + if run[m].worker != run[m - 1].worker then 1 else 0
  }

  ghost predicate Descends(next: (State, State) -> bool, p: State -> bool, rank: WorkerPc -> nat) {
    forall s, t :: p(s) && next(s, t) ==> t.worker == s.worker || rank(t.worker) < rank(s.worker)
  }

  lemma {:induction false} DescentBoundsSteps(
    run: seq<State>, next: (State, State) -> bool, p: State -> bool, rank: WorkerPc -> nat, k: nat, m: nat)
    requires k <= m < |run| && p(run[k]) && Linked(run, next) && Keeps(next, p) && Descends(next, p, rank)
    ensures WorkerSteps(run, k, m) + rank(run[m].worker) <= rank(run[k].worker)
    decreases m
  {
    if k < m {
      DescentBoundsSteps(run, next, p, rank, k, m - 1);
      KeptAlong(run, next, p, k, m - 1);
      assert next(run[m - 1], run[m]);
    }
  }

  /** From the moment the flag is set, the worker takes at most 20 more steps in any run. */
  lemma WorkerReturnsSoon(run: seq<State>, k: nat, m: nat)
    requires IsRun(run) && k <= m < |run| && run[k].flag
    ensures WorkerSteps(run, k, m) <= 20
  {
    var flagged := s => Inv(s) && s.flag;
    var rank := (w: WorkerPc) => Rank(w);
    forall s, t | flagged(s) && NextRel()(s, t)
      ensures flagged(t) && (t.worker == s.worker || rank(t.worker) < rank(s.worker))
    {
      NextKeeps(s, t);
      FlagEndsTheWorker(s, t);
    }
    RunHolds(run, k);
    DescentBoundsSteps(run, NextRel(), flagged, rank, k, m);
  }

  // -- a child that has exited is replaced -------------------------------------------------------

  /** Children are numbered in the order they are started. */
  ghost predicate Numbered(s: State) {
    && (s.process.Some? ==> s.process.value < s.spawned)
    && (forall c :: c in s.alive ==> c < s.spawned)
    && (s.worker.StartAssign? || s.worker.Reading? || s.worker.PollExit? || s.worker.StopKill? ==>
          s.worker.child < s.spawned)
    && forall i :: 0 <= i < |s.controls| && s.controls[i].Kill? ==> s.controls[i].child < s.spawned
  }

  lemma NextNumbers(s: State, t: State)
    requires Numbered(s) && Next(s, t)
    ensures Numbered(t)
  {
    if WorkerStart(s, t) || WorkerStop(s, t) || WorkerLoop(s, t) {
      WorkerNumbers(s, t);
    } else if !ChildExits(s, t) {
      var i :| 0 <= i < |s.controls| && ControlStep(s, t, i);
      ControlNumbers(s, t, i);
    }
  }

  lemma WorkerNumbers(s: State, t: State)
    requires Numbered(s) && (WorkerStart(s, t) || WorkerStop(s, t) || WorkerLoop(s, t))
    ensures Numbered(t)
  {
    assert t.controls == s.controls;
  }

  lemma ControlNumbers(s: State, t: State, i: nat)
    requires Numbered(s) && i < |s.controls| && ControlStep(s, t, i)
    ensures Numbered(t)
  {
    forall j | 0 <= j < |t.controls| && t.controls[j].Kill? ensures t.controls[j].child < t.spawned {
      if j != i { assert t.controls[j] == s.controls[j]; }
    }
  }

  lemma RunNumbers(run: seq<State>, k: nat)
    requires IsRun(run) && k < |run|
    ensures Numbered(run[k])
  {
    var p := s => Numbered(s);
    forall s, t | p(s) && NextRel()(s, t) ensures p(t) {
      NextNumbers(s, t);
    }
    KeptAlong(run, NextRel(), p, 0, k);
  }

  /** The child has exited, and the worker is past it or on the way to drop it. */
  ghost predicate GivenUp(s: State, c: Child) {
    && c < s.spawned && c !in s.alive
    && !(s.worker.Reading? && s.worker.child == c) && !(s.worker.StartAssign? && s.worker.child == c)
    && (s.process == Some(c) ==>
          || (s.worker.PollExit? && s.worker.child == c)
          || s.worker.StopWait? || s.worker.StopLook? || s.worker.StopKill? || s.worker.StopClear?)
  }

  lemma NextGivesUp(s: State, t: State, c: Child)
    requires Inv(s) && GivenUp(s, c) && Next(s, t)
    ensures GivenUp(t, c)
  {
    if !WorkerStart(s, t) && !WorkerStop(s, t) && !WorkerLoop(s, t) && !ChildExits(s, t) {
      var i :| 0 <= i < |s.controls| && ControlStep(s, t, i);
    }
  }

  /** Once the worker polls a child that has exited, it never reads that child again. */
  lemma ExitedChildNotReadAgain(run: seq<State>, k: nat, m: nat, c: Child)
    requires IsRun(run) && k <= m < |run|
    requires run[k].worker == PollExit(c) && c !in run[k].alive
    ensures run[m].worker != Reading(c)
  {
    var p := s => Inv(s) && GivenUp(s, c);
    forall s, t | p(s) && NextRel()(s, t) ensures p(t) {
      NextKeeps(s, t);
      NextGivesUp(s, t, c);
    }
    RunHolds(run, k);
    RunNumbers(run, k);
    KeptAlong(run, NextRel(), p, k, m);
  }

  /** A child that is alive when polled is left alone: the worker goes back to its loop and
      touches neither the child nor `self.process`. */
  lemma LiveChildIsKept(s: State, t: State, c: Child)
    requires Next(s, t) && s.worker == PollExit(c) && c in s.alive && t.worker != s.worker
    ensures t == s.(worker := LoopCheck)
  {
  }

  /** The way from the poll that finds `c` gone to the read of its successor. */
  ghost predicate Replacing(s: State, c: Child) {
    && Inv(s) && Numbered(s) && !s.flag && c < s.spawned && c !in s.alive
    && match s.worker
       case PollExit(d) => d == c
       case StopWait(a) => a == ToFlagCheck
       case StopLook(a) => a == ToFlagCheck
       case StopKill(_, a) => a == ToFlagCheck
       case StopClear(a) => a == ToFlagCheck
       case StopRelease(a) => a == ToFlagCheck
       case FlagCheck => true
       case Sleeping => true
       case StartWait(a) => a == ToLoop
       case StartSpawn(a) => a == ToLoop
       case StartAssign(d, a) => d > c && a == ToLoop
       case StartRelease(a) => a == ToLoop && s.process.Some? && s.process.value > c
       case LoopCheck => s.process.Some? && s.process.value > c
       case ReadProcess => s.process.Some? && s.process.value > c
       case _ => false
  }

  /** Steps of the worker still to come on that way. */
  function ToRead(w: WorkerPc): nat {
    match w
    case PollExit(_) => 14
    case StopWait(_) => 13
    case StopLook(_) => 12
    case StopKill(_, _) => 11
    case StopClear(_) => 10
    case StopRelease(_) => 9
    case FlagCheck => 8
    case Sleeping => 7
    case StartWait(_) => 6
    case StartSpawn(_) => 5
    case StartAssign(_, _) => 4
    case StartRelease(_) => 3
    case LoopCheck => 2
    case ReadProcess => 1
    case _ => 0
  }

  predicate ReadsNewer(w: WorkerPc, c: Child) {
    w.Reading? && w.child > c
  }

  lemma WorkerReplaces(s: State, t: State, c: Child)
    requires Replacing(s, c) && Inv(t) && Numbered(t)
    requires WorkerStart(s, t) || WorkerStop(s, t) || WorkerLoop(s, t)
    ensures (Replacing(t, c) && ToRead(t.worker) < ToRead(s.worker)) || ReadsNewer(t.worker, c)
  {
  }

  /** While no stop is requested, each step on the way goes on with it. */
  lemma NextReplaces(s: State, t: State, c: Child)
    requires Replacing(s, c) && Next(s, t) && !t.flag
    ensures ReadsNewer(t.worker, c) ||
      (Replacing(t, c) && (t.worker == s.worker || ToRead(t.worker) < ToRead(s.worker)))
  {
    NextKeeps(s, t);
    NextNumbers(s, t);
    NoStopRequested(s, t);
    if WorkerStart(s, t) || WorkerStop(s, t) || WorkerLoop(s, t) {
      WorkerReplaces(s, t, c);
    }
  }

  lemma NoStopRequested(s: State, t: State)
    requires Inv(s) && !s.flag && Next(s, t)
    ensures t.flag || WorkerStart(s, t) || WorkerStop(s, t) || WorkerLoop(s, t) || ChildExits(s, t)
  {
    forall i | 0 <= i < |s.controls| && ControlStep(s, t, i) ensures t.flag {
      assert s.controls[i] == SetFlag;
    }
  }

  /** And the worker can always take the next one: nobody else holds the lock. */
  lemma ReplacingNotBlocked(s: State, c: Child) returns (t: State)
    requires Replacing(s, c)
    ensures Next(s, t) && !t.flag && t.worker != s.worker
  {
    assert forall i :: 0 <= i < |s.controls| ==> s.controls[i] == SetFlag;
    assert s.lock == Nobody || s.lock == TheWorker;
    match s.worker {
      case PollExit(_) => t := s.(worker := StopWait(ToFlagCheck));
      case StopWait(a) => t := s.(lock := TheWorker, worker := StopLook(a));
      case StopLook(a) => t := s.(worker := if s.process.None? then StopRelease(a) else StopKill(s.process.value, a));
      case StopKill(d, a) => t := s.(alive := s.alive - {d}, worker := StopClear(a));
      case StopClear(a) => t := s.(process := None, worker := StopRelease(a));
      case StopRelease(a) => t := s.(lock := Nobody, worker := Then(a));
      case FlagCheck => t := s.(worker := Sleeping);
      case Sleeping => t := s.(worker := StartWait(ToLoop));
      case StartWait(a) => t := s.(lock := TheWorker, worker := StartSpawn(a));
      case StartSpawn(a) =>
        t := s.(alive := s.alive + {s.spawned}, spawned := s.spawned + 1, late := s.late,
                worker := StartAssign(s.spawned, a));
      case StartAssign(d, a) => t := s.(process := Some(d), worker := StartRelease(a));
      case StartRelease(a) => t := s.(lock := Nobody, worker := Then(a));
      case LoopCheck => t := s.(worker := ReadProcess);
      case ReadProcess => t := s.(worker := Reading(s.process.value));
    }
  }

  lemma {:induction false} ReplacedWithin(
    run: seq<State>, next: (State, State) -> bool, onWay: State -> bool, there: State -> bool, left: WorkerPc -> nat,
    k: nat, m: nat)
    requires k <= m < |run| && Linked(run, next) && onWay(run[k])
    requires forall j :: k < j <= m ==> !run[j].flag && !there(run[j])
    requires forall s, t :: onWay(s) && next(s, t) && !t.flag ==>
      there(t) || (onWay(t) && (t.worker == s.worker || left(t.worker) < left(s.worker)))
    ensures onWay(run[m]) && WorkerSteps(run, k, m) + left(run[m].worker) <= left(run[k].worker)
    decreases m
  {
    if k < m {
      ReplacedWithin(run, next, onWay, there, left, k, m - 1);
      assert next(run[m - 1], run[m]) && !run[m].flag && !there(run[m]);
    }
  }

  /** After the poll that finds the child gone, and as long as no stop is requested, fewer than 14
      steps of the worker pass before it reads a newer child. */
  lemma ExitedChildIsReplaced(run: seq<State>, k: nat, m: nat, c: Child)
    requires IsRun(run) && k <= m < |run|
    requires run[k].worker == PollExit(c) && c !in run[k].alive
    requires forall j :: k <= j <= m ==> !run[j].flag
    requires WorkerSteps(run, k, m) >= 14
    ensures exists j :: k < j <= m && ReadsNewer(run[j].worker, c)
  {
    if forall j :: k < j <= m ==> !ReadsNewer(run[j].worker, c) {
      var onWay, there := s => Replacing(s, c), (s: State) => ReadsNewer(s.worker, c);
      var left := (w: WorkerPc) => ToRead(w);
      forall s, t | onWay(s) && NextRel()(s, t) && !t.flag
        ensures there(t) || (onWay(t) && (t.worker == s.worker || left(t.worker) < left(s.worker)))
      {
        NextReplaces(s, t, c);
      }
      RunHolds(run, k);
      RunNumbers(run, k);
      ReplacedWithin(run, NextRel(), onWay, there, left, k, m);
      OnWayHasSteps(run[m], c);
    }
  }

  lemma OnWayHasSteps(s: State, c: Child)
    requires Replacing(s, c)
    ensures ToRead(s.worker) >= 1
  {
  }

  // -- when stopping leaves no child ------------------------------------------------------------

  /** Some controller's `stop` is over. */
  ghost predicate Stopped(s: State) {
    exists i :: 0 <= i < |s.controls| && s.controls[i] == Finished
  }

  /** Past the last look at the flag, but not yet holding the lock for the spawn. */
  predicate MayMiss(w: WorkerPc) {
    w.StartWait? || w.ReadProcess? || w.Sleeping?
  }

  predicate Spawning(w: WorkerPc) {
    w.StartSpawn? || w.StartAssign? || w.StartRelease?
  }

  /** The worker will not enter `start` again, and no child is left once a stop is over. */
  ghost predicate StopsForGood(s: State) {
    && s.flag && !MayMiss(s.worker)
    && (Stopped(s) ==> s.alive == {} && !Spawning(s.worker))
  }

  lemma WorkerStopsForGood(s: State, t: State)
    requires Inv(s) && StopsForGood(s) && (WorkerStart(s, t) || WorkerStop(s, t) || WorkerLoop(s, t))
    ensures StopsForGood(t)
  {
    assert t.controls == s.controls;
  }

  lemma ControlStopsForGood(s: State, t: State, i: nat)
    requires Inv(s) && StopsForGood(s) && i < |s.controls| && ControlStep(s, t, i)
    ensures StopsForGood(t)
  {
    assert ControlInv(s, s.controls[i]);
    if Stopped(t) && s.controls[i] != Release {
      var j :| 0 <= j < |t.controls| && t.controls[j] == Finished;
      assert s.controls[j] == Finished;
    }
  }

  lemma NextStopsForGood(s: State, t: State)
    requires Inv(s) && StopsForGood(s) && Next(s, t)
    ensures StopsForGood(t)
  {
    if WorkerStart(s, t) || WorkerStop(s, t) || WorkerLoop(s, t) {
      WorkerStopsForGood(s, t);
    } else if ChildExits(s, t) {
      assert t.controls == s.controls;
    } else {
      var i :| 0 <= i < |s.controls| && ControlStep(s, t, i);
      ControlStopsForGood(s, t, i);
    }
  }

  lemma StaysStopped(run: seq<State>, k: nat, m: nat)
    requires IsRun(run) && k <= m < |run| && StopsForGood(run[k])
    ensures StopsForGood(run[m])
  {
    var p := s => Inv(s) && StopsForGood(s);
    forall s, t | p(s) && NextRel()(s, t) ensures p(t) {
      NextKeeps(s, t);
      NextStopsForGood(s, t);
    }
    RunHolds(run, k);
    KeptAlong(run, NextRel(), p, k, m);
  }

  lemma SettingTheFlag(s: State, t: State)
    requires Inv(s) && Next(s, t) && !s.flag && t.flag
    ensures t.worker == s.worker && !Stopped(t)
  {
    assert forall i :: 0 <= i < |s.controls| ==> s.controls[i] == SetFlag;
    var i :| 0 <= i < |s.controls| && ControlStep(s, t, i);
  }

  /** `more` continues the run, and its first step sets the flag. */
  ghost predicate FlaggedNext(run: seq<State>, more: seq<State>) {
    more != [] && IsRun(run + more) && more[0].flag
  }

  /** Whatever happens from the step that sets the flag on, no child is alive once a stop is
      over, exactly when the worker at that step is not about to take the lock for `start`,
      not about to read `self.process` (which a stop may clear first), and not asleep
      before a restart. */
  lemma StopIsFinalIff(run: seq<State>)
    requires IsRun(run) && !Last(run).flag && Last(run).controls != []
    ensures (forall more :: FlaggedNext(run, more) && Stopped(Last(more)) ==> Last(more).alive == {}) <==>
      !MayMiss(Last(run).worker)
  {
    if MayMiss(Last(run).worker) {
      var more := MissedChild(run, 0);
      assert Last(more).controls[0] == Finished && Stopped(Last(more)) && FlaggedNext(run, more);
    } else {
      forall more | FlaggedNext(run, more) && Stopped(Last(more)) ensures Last(more).alive == {} {
        NoneMissed(run, more);
      }
    }
  }

  lemma NoneMissed(run: seq<State>, more: seq<State>)
    requires IsRun(run) && !Last(run).flag && !MayMiss(Last(run).worker) && FlaggedNext(run, more)
    ensures StopsForGood(Last(more))
  {
    var whole, k := run + more, |run| - 1;
    RunHolds(whole, k);
    assert whole[k] == Last(run) && whole[k + 1] == more[0] && Last(more) == whole[|whole| - 1];
    assert NextRel()(whole[k], whole[k + 1]);
    SettingTheFlag(whole[k], whole[k + 1]);
    StaysStopped(whole, k + 1, |whole| - 1);
  }

  lemma Extend(run: seq<State>, more: seq<State>, t: State) returns (longer: seq<State>)
    requires IsRun(run + more) && Next(Last(run + more), t)
    ensures longer == more + [t] && IsRun(run + longer) && Last(run + longer) == t
  {
    longer := more + [t];
    var before, after := run + more, run + longer;
    assert after == before + [t];
    forall k, m | 0 <= k < |after| && m == k + 1 && m < |after| ensures NextRel()(after[k], after[m]) {
      if m < |before| { assert NextRel()(before[k], before[m]); }
    }
  }

  lemma ControlExtends(run: seq<State>, more: seq<State>, i: nat, t: State) returns (longer: seq<State>)
    requires IsRun(run + more) && i < |Last(run + more).controls| && ControlStep(Last(run + more), t, i)
    ensures longer == more + [t] && IsRun(run + longer) && Last(run + longer) == t
  {
    longer := Extend(run, more, t);
  }

  /** `s` as controller `i` has it at `c`. */
  function At(s: State, i: nat, c: ControlPc): State
    requires i < |s.controls|
  {
    s.(controls := s.controls[i := c])
  }

  /** One controller's `_stop_worker` from beginning to end, with no step of the worker in between. */
  lemma ControllerStops(run: seq<State>, i: nat) returns (more: seq<State>)
    requires IsRun(run) && i < |Last(run).controls| && !Last(run).flag && Last(run).lock == Nobody
    requires Last(run).alive <= if Last(run).process.Some? then {Last(run).process.value} else {}
    requires Last(run).controls[i] == SetFlag
    ensures more != [] && IsRun(run + more) && more[0].flag
    ensures Last(run + more) == At(Last(run).(flag := true, alive := {}, process := None), i, Finished)
  {
    var s := Last(run);
    var flagged := At(s.(flag := true), i, Wait);
    assert run + [] == run;
    more := ControlExtends(run, [], i, flagged);
    var looking := At(s.(flag := true, lock := Controller(i)), i, Look);
    assert flagged.controls[i := Look] == looking.controls;
    more := ControlExtends(run, more, i, looking);
    more := ControllerKills(run, more, i);
    var done := At(s.(flag := true, alive := {}, process := None), i, Finished);
    assert Last(run + more).controls[i := Finished] == done.controls;
    more := ControlExtends(run, more, i, done);
  }

  lemma ControllerKills(run: seq<State>, more: seq<State>, i: nat) returns (longer: seq<State>)
    requires IsRun(run + more) && more != []
    requires i < |Last(run + more).controls| && Last(run + more).controls[i] == Look
    requires var s := Last(run + more);
      s.alive <= if s.process.Some? then {s.process.value} else {}
    ensures longer != [] && longer[0] == more[0] && IsRun(run + longer)
    ensures Last(run + longer) == At(Last(run + more).(alive := {}, process := None), i, Release)
  {
    var s := Last(run + more);
    if s.process.None? {
      longer := ControlExtends(run, more, i, At(s, i, Release));
    } else {
      var c := s.process.value;
      longer := ControlExtends(run, more, i, At(s, i, Kill(c)));
      assert s.alive - {c} == {} && s.controls[i := Kill(c)][i := Drop] == s.controls[i := Drop];
      longer := ControlExtends(run, longer, i, At(s.(alive := {}), i, Drop));
      assert s.controls[i := Drop][i := Release] == s.controls[i := Release];
      longer := ControlExtends(run, longer, i, At(s.(alive := {}, process := None), i, Release));
    }
  }

  /** The worker starts a child, flag or no flag. */
  lemma WorkerSpawns(run: seq<State>, more: seq<State>) returns (longer: seq<State>)
    requires IsRun(run + more) && more != []
    requires var s := Last(run + more); s.worker.StartWait? && s.lock == Nobody && s.alive == {} && s.flag
    ensures longer != [] && longer[0] == more[0] && IsRun(run + longer)
    ensures var s := Last(run + more);
      Last(run + longer) == s.(process := Some(s.spawned), alive := {s.spawned}, spawned := s.spawned + 1,
                               late := s.late + 1, worker := Then(s.worker.after))
  {
    var s := Last(run + more);
    var c, a := s.spawned, s.worker.after;
    var locked := s.(lock := TheWorker, worker := StartSpawn(a));
    longer := Extend(run, more, locked);
    var spawned := locked.(alive := {c}, spawned := c + 1, late := s.late + 1, worker := StartAssign(c, a));
    assert locked.alive + {c} == {c};
    longer := Extend(run, longer, spawned);
    var running := spawned.(process := Some(c), worker := StartRelease(a));
    longer := Extend(run, longer, running);
    longer := Extend(run, longer, running.(lock := Nobody, worker := Then(a)));
  }

  /** The step or two that bring the worker to the lock in `start`. */
  lemma WorkerReachesStart(run: seq<State>, more: seq<State>) returns (longer: seq<State>)
    requires IsRun(run + more) && more != []
    requires MayMiss(Last(run + more).worker) && Last(run + more).process == None
    ensures longer != [] && longer[0] == more[0] && IsRun(run + longer)
    ensures var s := Last(run + more);
      exists after :: Last(run + longer) == s.(worker := StartWait(after)) &&
        after == (match s.worker case StartWait(a) => a case ReadProcess => ToReread case _ => ToLoop)
  {
    var s := Last(run + more);
    match s.worker {
      case ReadProcess => longer := Extend(run, more, s.(worker := StartWait(ToReread)));
      case Sleeping => longer := Extend(run, more, s.(worker := StartWait(ToLoop)));
      case _ => longer := more;
    }
  }

  lemma StopHasRoom(run: seq<State>, i: nat)
    requires IsRun(run) && i < |Last(run).controls| && !Last(run).flag && MayMiss(Last(run).worker)
    ensures var s := Last(run);
      && s.lock == Nobody && s.controls[i] == SetFlag
      && s.alive <= if s.process.Some? then {s.process.value} else {}
  {
    RunHolds(run, |run| - 1);
    var s := Last(run);
    assert forall j :: 0 <= j < |s.controls| ==> s.controls[j] == SetFlag;
  }

  /** From any such state a stop can run to its end and leave a live child.  If the worker
      was about to read `self.process`, or to start a child in its place, it ends up
      blocked reading that child. */
  lemma MissedChild(run: seq<State>, i: nat) returns (more: seq<State>)
    requires IsRun(run) && i < |Last(run).controls| && !Last(run).flag && MayMiss(Last(run).worker)
    ensures FlaggedNext(run, more) && i < |Last(more).controls| && Last(more).controls[i] == Finished
    ensures Last(more).alive == {Last(run).spawned}
    ensures Last(run).worker == ReadProcess || Last(run).worker == StartWait(ToReread) ==>
      Last(more).worker == Reading(Last(run).spawned)
  {
    StopHasRoom(run, i);
    more := ControllerStops(run, i);
    more := WorkerReachesStart(run, more);
    more := WorkerSpawns(run, more);
    var s := Last(run + more);
    if s.worker == RereadProcess {
      more := Extend(run, more, s.(worker := Reading(s.process.value)));
    }
    assert Last(more) == Last(run + more);
  }

  /** The start: the worker has its first child and is about to read from it. */
  lemma FirstChildRuns() returns (run: seq<State>)
    ensures IsRun(run) && Last(run) == State(Nobody, Some(0), {0}, 1, false, 0, ReadProcess, [SetFlag])
  {
    var s := State(Nobody, None, {}, 0, false, 0, StartWait(ToLoop), [SetFlag]);
    run := [s];
    assert IsRun([] + run);
    var a1 := s.(lock := TheWorker, worker := StartSpawn(ToLoop));
    run := Extend([], run, a1);
    var a2 := a1.(alive := {0}, spawned := 1, worker := StartAssign(0, ToLoop));
    assert a1.alive + {0} == {0};
    run := Extend([], run, a2);
    var a3 := a2.(process := Some(0), worker := StartRelease(ToLoop));
    run := Extend([], run, a3);
    var a4 := a3.(lock := Nobody, worker := LoopCheck);
    run := Extend([], run, a4);
    run := Extend([], run, a4.(worker := ReadProcess));
    assert [] + run == run;
  }

  /** Such a state is reached a few steps after the start: the worker has its first child, has
      found the flag clear, and is about to read `self.process`.  A controller can then
      finish stopping the source while the worker blocks on a second, live child. */
  lemma StopCanMissAChild() returns (run: seq<State>, more: seq<State>)
    ensures IsRun(run) && Last(run).worker == ReadProcess && Last(run).alive == {0} && FlaggedNext(run, more)
    ensures Last(more).controls == [Finished] && Last(more).alive == {1} && Last(more).worker == Reading(1)
  {
    run := FirstChildRuns();
    more := MissedChild(run, 0);
    RunControls(run + more, |run| - 1, |run + more| - 1);
    assert Last(more) == (run + more)[|run + more| - 1] && Last(run) == (run + more)[|run| - 1];
  }

  lemma RunControls(run: seq<State>, k: nat, m: nat)
    requires IsRun(run) && k <= m < |run|
    ensures |run[m].controls| == |run[k].controls|
  {
    var n := |run[k].controls|;
    var p := (s: State) => |s.controls| == n;
    assert Keeps(NextRel(), p);
    KeptAlong(run, NextRel(), p, k, m);
  }
}
