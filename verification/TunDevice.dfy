/** The one TUN descriptor shared by a reader and many writers (`tun.cpp`), on one thread with a
    first-in-first-out run queue. A lock guards the descriptor; a writer that finds the reader
    waiting cancels its read and expects to get the lock before the reader gets it back. */
module TunDevice {
  import opened Wrappers

  type Writer = nat

  datatype Owner = Reader | TheWriter(w: Writer)

  /** What can stand in the run queue. */
  datatype Job =
    | ReaderTry                // the reader, after its explicit rescheduling
    | ReadDone | ReaderWake    // completion handler of a read; resumption of the reader
    | WriterStart(w: Writer)   // a session about to call write
    | WriterCancel(w: Writer)  // on the strand: cancel the read, then try the lock
    | WriterTry(w: Writer)     // a failed attempt, rescheduled
    | WriteDone(w: Writer) | WriterWake(w: Writer)
    | Other

  datatype State = State(
    queue: seq<Job>,
    lock: bool,                  // lock_
    entering: bool,              // the reader has taken lock_ and not yet set it_is_read_lock
    isReadLock: bool,            // it_is_read_lock
    reading: bool,               // a read is outstanding on the descriptor
    writing: Option<Writer>,     // a write is outstanding
    owner: Option<Owner>,        // whose Lock token holds lock_
    readerIdle: bool,            // the reader is between two reads
    hit: bool)                   // a cancel has hit a write: the program aborts

  datatype Action =
    | Run                        // the job at the front of the queue
    | NextRead                   // the reader calls read again: it reschedules itself first
    | BeginRead                  // the reader, having taken lock_, sets it_is_read_lock and reads
    | Arrive(job: Job)           // a session becomes ready to write, or something unrelated
    | ReadCompletes              // data, or the timer cancels
    | WriteCompletes

  const INIT := State([], false, false, false, false, None, None, true, false)

  predicate Enabled(st: State, x: Action) {
    && !st.hit
    && match x
       case Run => st.queue != []
       case NextRead => st.readerIdle
       case BeginRead => st.entering
       case Arrive(job) => job.WriterStart? || job.Other?
       case ReadCompletes => st.reading
       case WriteCompletes => st.writing.Some?
  }

  function Push(st: State, j: Job): State { st.(queue := st.queue + [j]) }

  /** A writer's exchange on `lock_`: on failure it reschedules itself. */
  function Attempt(st: State, w: Writer): State {
    if st.lock then Push(st, WriterTry(w))
    else st.(lock := true, owner := Some(TheWriter(w)), writing := Some(w))
  }

  /** `tun.cancel()`: ends whatever operation is outstanding. */
  function Cancel(st: State): State {
    if st.reading then Push(st.(reading := false), ReadDone)
    else if st.writing.Some? then st.(hit := true)
    else st
  }

  function Execute(st: State, j: Job): State {
    match j
    case ReaderTry =>
      if st.lock then Push(st, ReaderTry)
      else st.(lock := true, owner := Some(Reader), entering := true)
    case ReadDone => Push(st, ReaderWake)
    case ReaderWake => st.(isReadLock := false, lock := false, owner := None, readerIdle := true)
    case WriterStart(w) => if st.isReadLock then Push(st, WriterCancel(w)) else Attempt(st, w)
    case WriterCancel(w) => Attempt(Cancel(st), w)
    case WriterTry(w) => Attempt(st, w)
    case WriteDone(w) => Push(st, WriterWake(w))
    case WriterWake(w) => st.(lock := false, owner := None)
    case Other => st
  }

  function Do(st: State, x: Action): State
    requires Enabled(st, x)
  {
    match x
    case Run => Execute(st.(queue := st.queue[1..]), st.queue[0])
    case NextRead => Push(st.(readerIdle := false), ReaderTry)
    case BeginRead => st.(entering := false, isReadLock := true, reading := true)
    case Arrive(j) => Push(st, j)
    case ReadCompletes => Push(st.(reading := false), ReadDone)
    case WriteCompletes => Push(st.(writing := None), WriteDone(st.writing.value))
  }

  /** The state after the run `xs` from `st`, if all its steps are enabled in turn. */
  function After(st: State, xs: seq<Action>): Option<State> {
    if xs == [] then Some(st)
    else
      var before := After(st, xs[..|xs| - 1]);
      var x := xs[|xs| - 1];
      if before.Some? && Enabled(before.value, x) then Some(Do(before.value, x)) else None
  }

  // ----------------------------------------------------------------------------------------
  // Invariant
  // ----------------------------------------------------------------------------------------

  /** The job carries the end of an operation on the descriptor back to the owner of the lock. */
  predicate IsCompletion(j: Job) { j.ReadDone? || j.ReaderWake? || j.WriteDone? || j.WriterWake? }

  predicate IsReaderTry(j: Job) { j.ReaderTry? }

  function Completes(j: Job): Owner
    requires IsCompletion(j)
  {
    if j.ReadDone? || j.ReaderWake? then Reader else TheWriter(j.w)
  }

  ghost predicate AtMostOne(q: seq<Job>, p: Job -> bool) {
    forall i, j :: 0 <= i < |q| && 0 <= j < |q| && p(q[i]) && p(q[j]) ==> i == j
  }

  /** Flags, outstanding operations and the owner agree. */
  predicate FlagsOk(st: State) {
    && (st.lock <==> st.owner.Some?)
    && (st.isReadLock || st.entering <==> st.owner == Some(Reader))
    && !(st.isReadLock && st.entering)
    && (st.reading ==> st.isReadLock)
    && (st.writing.Some? ==> st.owner == Some(TheWriter(st.writing.value)))
  }

  /** A queued completion belongs to the owner of the lock, whose operation is no longer
      outstanding; the reader is idle, or queued, or the owner. */
  ghost predicate QueueOk(st: State) {
    && AtMostOne(st.queue, IsCompletion)
    && (forall i :: 0 <= i < |st.queue| && IsCompletion(st.queue[i]) ==>
          st.owner == Some(Completes(st.queue[i])) && !st.reading && st.writing.None? && !st.entering)
    && AtMostOne(st.queue, IsReaderTry)
    && (forall i :: 0 <= i < |st.queue| && st.queue[i].ReaderTry? ==> !st.readerIdle && st.owner != Some(Reader))
    && (st.owner == Some(Reader) ==> !st.readerIdle)
  }

  ghost predicate Inv(st: State) { FlagsOk(st) && QueueOk(st) }

  /** `st` with the front job taken off the queue. */
  function Popped(st: State): State
    requires st.queue != []
  {
    st.(queue := st.queue[1..])
  }

  /** A job that is appended must be admissible. */
  ghost predicate MayPush(st: State, j: Job) {
    && (IsCompletion(j) ==>
          && st.owner == Some(Completes(j)) && !st.reading && st.writing.None? && !st.entering
          && forall i :: 0 <= i < |st.queue| ==> !IsCompletion(st.queue[i]))
    && (j.ReaderTry? ==>
          && !st.readerIdle && st.owner != Some(Reader)
          && forall i :: 0 <= i < |st.queue| ==> !st.queue[i].ReaderTry?)
  }

  lemma PushKeepsQueue(st: State, j: Job)
    requires QueueOk(st) && MayPush(st, j)
    ensures QueueOk(Push(st, j))
  {
  }

  lemma PopKeepsQueue(st: State)
    requires QueueOk(st) && st.queue != []
    ensures QueueOk(Popped(st))
    ensures var j := st.queue[0];
            && (IsCompletion(j) ==> forall i :: 0 <= i < |st.queue| - 1 ==> !IsCompletion(Popped(st).queue[i]))
            && (j.ReaderTry? ==> forall i :: 0 <= i < |st.queue| - 1 ==> !Popped(st).queue[i].ReaderTry?)
  {
    var q, q' := st.queue, Popped(st).queue;
    assert forall i :: 0 <= i < |q'| ==> q'[i] == q[i + 1];
  }

  lemma AttemptKeepsInv(st: State, w: Writer)
    requires Inv(st)
    ensures Inv(Attempt(st, w))
  {
    if st.lock {
      PushKeepsQueue(st, WriterTry(w));
    }
  }

  lemma CancelKeepsInv(st: State)
    requires Inv(st)
    ensures Inv(Cancel(st))
  {
    if st.reading {
      PushKeepsQueue(st.(reading := false), ReadDone);
    }
  }

  lemma DoKeepsInv(st: State, x: Action)
    requires Inv(st) && Enabled(st, x)
    ensures Inv(Do(st, x))
  {
    match x
    case Run =>
      PopKeepsQueue(st);
      var s, j := Popped(st), st.queue[0];
      match j {
        case ReaderTry => if s.lock { PushKeepsQueue(s, j); }
        case ReadDone => PushKeepsQueue(s, ReaderWake);
        case WriteDone(w) => PushKeepsQueue(s, WriterWake(w));
        case WriterStart(w) => if s.isReadLock { PushKeepsQueue(s, WriterCancel(w)); } else { AttemptKeepsInv(s, w); }
        case WriterCancel(w) => CancelKeepsInv(s); AttemptKeepsInv(Cancel(s), w);
        case WriterTry(w) => AttemptKeepsInv(s, w);
        case _ =>
      }
    case NextRead => PushKeepsQueue(st.(readerIdle := false), ReaderTry);
    case BeginRead =>
    case Arrive(j) => PushKeepsQueue(st, j);
    case ReadCompletes => PushKeepsQueue(st.(reading := false), ReadDone);
    case WriteCompletes => PushKeepsQueue(st.(writing := None), WriteDone(st.writing.value));
  }

  lemma {:induction false} RunKeepsInv(st: State, xs: seq<Action>)
    requires Inv(st)
    ensures After(st, xs).Some? ==> Inv(After(st, xs).value)
  {
    if xs != [] && After(st, xs).Some? {
      RunKeepsInv(st, xs[..|xs| - 1]);
      DoKeepsInv(After(st, xs[..|xs| - 1]).value, xs[|xs| - 1]);
    }
  }

  /** Exclusion, in every run: at most one operation is outstanding on the descriptor, always that
      of the holder of the lock, and the read flag means that the reader holds the lock. */
  lemma OneOperationAtATime(xs: seq<Action>, st: State)
    requires After(INIT, xs) == Some(st)
    ensures !(st.reading && st.writing.Some?)
    ensures st.reading ==> st.lock && st.owner == Some(Reader)
    ensures st.writing.Some? ==> st.lock && st.owner == Some(TheWriter(st.writing.value))
    ensures st.isReadLock ==> st.lock && st.owner == Some(Reader)
    ensures st.lock && st.owner == Some(Reader) && !st.isReadLock ==> st.entering && !st.reading
  {
    RunKeepsInv(INIT, xs);
  }

  // ----------------------------------------------------------------------------------------
  // Writer priority
  // ----------------------------------------------------------------------------------------

  /** The step is an attempt of a writer that fails because the reader holds the lock; a writer that
      comes before the reader has set its flag attempts at once. */
  predicate FailsToReader(st: State, x: Action) {
    && Enabled(st, x) && x.Run? && st.owner == Some(Reader)
    && (st.queue[0].WriterCancel? || st.queue[0].WriterTry? || (st.queue[0].WriterStart? && !st.isReadLock))
  }

  /** The step gives the lock to somebody. */
  predicate Acquires(st: State, x: Action)
    requires Enabled(st, x)
  {
    st.owner.None? && Do(st, x).owner.Some?
  }

  /** A spinning writer stands in the queue, and the reader not before it; while the reader holds
      the lock it does not stand in the queue at all. */
  ghost predicate WriterIsFirst(st: State) {
    && (st.owner.None? || st.owner == Some(Reader))
    && exists i :: 0 <= i < |st.queue| && st.queue[i].WriterTry? && ReaderNotBefore(st.queue, i)
  }

  ghost predicate ReaderNotBefore(q: seq<Job>, i: int) {
    forall k :: 0 <= k < i && k < |q| ==> !q[k].ReaderTry?
  }

  lemma FailurePutsWriterFirst(st: State, x: Action)
    requires Inv(st) && FailsToReader(st, x)
    ensures WriterIsFirst(Do(st, x))
  {
    var st' := Do(st, x);
    DoKeepsInv(st, x);
    var last := |st'.queue| - 1;
    assert st'.queue[last].WriterTry? && ReaderNotBefore(st'.queue, last);
  }

  /** Until the lock is acquired, the writer stays first; when it is, a writer acquires it. */
  lemma WriterStaysFirst(st: State, x: Action)
    requires Inv(st) && WriterIsFirst(st) && Enabled(st, x)
    ensures Acquires(st, x) ==> Do(st, x).owner.value.TheWriter?
    ensures !Acquires(st, x) ==> WriterIsFirst(Do(st, x))
  {
    var st' := Do(st, x);
    DoKeepsInv(st, x);
    var i :| 0 <= i < |st.queue| && st.queue[i].WriterTry? && ReaderNotBefore(st.queue, i);
    if x.Run? {
      if i > 0 {
        assert st'.queue[i - 1] == st.queue[i];
        assert ReaderNotBefore(st'.queue, i - 1);
      } else if st.owner.Some? {
        FailurePutsWriterFirst(st, x);
      }
    } else {
      assert st'.queue[i] == st.queue[i] && ReaderNotBefore(st'.queue, i);
    }
  }

  /** None of the steps `ys` from `st` on gives the lock to anybody. */
  predicate Quiet(st: State, ys: seq<Action>) {
    ys == [] ||
    var before := After(st, ys[..|ys| - 1]);
    && Quiet(st, ys[..|ys| - 1]) && before.Some? && Enabled(before.value, ys[|ys| - 1])
    && !Acquires(before.value, ys[|ys| - 1])
  }

  /** The quiet steps `ys` lead from `st` to `st'`. */
  ghost predicate GoesQuietly(st: State, ys: seq<Action>, st': State) {
    Quiet(st, ys) && After(st, ys) == Some(st')
  }

  ghost predicate Reachable(st: State) { exists xs :: After(INIT, xs) == Some(st) }

  lemma {:induction false} QuietKeepsWriterFirst(st: State, ys: seq<Action>)
    requires Inv(st) && WriterIsFirst(st) && Quiet(st, ys)
    ensures After(st, ys).Some? && WriterIsFirst(After(st, ys).value)
  {
    if ys != [] {
      QuietKeepsWriterFirst(st, ys[..|ys| - 1]);
      RunKeepsInv(st, ys[..|ys| - 1]);
      WriterStaysFirst(After(st, ys[..|ys| - 1]).value, ys[|ys| - 1]);
    }
  }

  /** Writer priority: in every run, after a writer's attempt fails because the reader holds the
      lock, the next to acquire the lock is a writer. */
  lemma WriterGoesFirst(st: State, x: Action, ys: seq<Action>, st': State, y: Action)
    requires Reachable(st) && FailsToReader(st, x) && GoesQuietly(Do(st, x), ys, st')
    requires Enabled(st', y) && Acquires(st', y)
    ensures Do(st', y).owner.value.TheWriter?
  {
    var xs :| After(INIT, xs) == Some(st);
    RunKeepsInv(INIT, xs);
    FailurePutsWriterFirst(st, x);
    DoKeepsInv(st, x);
    QuietKeepsWriterFirst(Do(st, x), ys);
    RunKeepsInv(Do(st, x), ys);
    WriterStaysFirst(st', y);
  }

  // ----------------------------------------------------------------------------------------
  // How long a writer waits
  // ----------------------------------------------------------------------------------------

  /** The state after the next `n` jobs of the queue, nothing else happening. */
  function Turned(st: State, n: nat): Option<State>
    decreases n
  {
    if n == 0 then Some(st)
    else if Enabled(st, Run) then Turned(Do(st, Run), n - 1)
    else None
  }

  lemma {:induction false} TurnedOn(st: State, m: nat, s: State, n: nat, t: State)
    requires Turned(st, m) == Some(s) && Turned(s, n) == Some(t)
    ensures Turned(st, m + n) == Some(t)
    decreases m
  {
    if m > 0 { TurnedOn(Do(st, Run), m - 1, s, n, t); }
  }

  /** The reader's read is over, and right behind its job `j`, at place `p`, a writer stands. */
  ghost predicate Behind(st: State, w: Writer, p: nat, j: Job) {
    && Inv(st) && !st.hit && st.owner == Some(Reader) && !st.reading && (j.ReadDone? || j.ReaderWake?)
    && p + 1 < |st.queue| && st.queue[p] == j && st.queue[p + 1] == WriterTry(w)
  }

  lemma OneTurn(st: State, w: Writer, p: nat, j: Job)
    requires Behind(st, w, p, j) && p > 0
    ensures Behind(Do(st, Run), w, p - 1, j) && |Do(st, Run).queue| <= |st.queue|
  {
    DoKeepsInv(st, Run);
    assert IsCompletion(st.queue[p]);
    assert !IsCompletion(st.queue[0]);
    assert Popped(st).queue[p - 1] == j && Popped(st).queue[p] == WriterTry(w);
  }

  lemma {:induction false} ToTheFront(st: State, w: Writer, p: nat, j: Job) returns (st': State)
    requires Behind(st, w, p, j)
    ensures Turned(st, p) == Some(st') && Behind(st', w, 0, j) && |st'.queue| <= |st.queue|
    decreases p
  {
    st' := st;
    if p > 0 {
      OneTurn(st, w, p, j);
      st' := ToTheFront(Do(st, Run), w, p - 1, j);
    }
  }

  /** The reader's wake-up is at the front: it gives the lock to the writer behind it. */
  lemma AfterTheWakeUp(st: State, w: Writer) returns (st': State)
    requires Behind(st, w, 0, ReaderWake)
    ensures Turned(st, 2) == Some(st') && st'.owner == Some(TheWriter(w))
  {
    var s := Do(st, Run);
    assert s.queue[0] == WriterTry(w) && s.owner.None?;
    DoKeepsInv(st, Run);
    st' := Do(s, Run);
    assert Turned(s, 1) == Turned(st', 0);
  }

  /** The end of the read is at the front: the wake-up goes to the back, the writer behind it. */
  lemma AfterTheRead(st: State, w: Writer) returns (st': State, p: nat)
    requires Behind(st, w, 0, ReadDone)
    ensures Turned(st, 2) == Some(st') && Behind(st', w, p, ReaderWake) && p + 1 < |st'.queue| <= |st.queue|
  {
    var s := Do(st, Run);
    DoKeepsInv(st, Run);
    assert s.queue[0] == WriterTry(w) && s.queue[|s.queue| - 1] == ReaderWake;
    st' := Do(s, Run);
    DoKeepsInv(s, Run);
    assert Turned(s, 1) == Turned(st', 0);
    p := |st'.queue| - 2;
  }

  lemma CancelPutsWriterBehind(st: State, w: Writer) returns (st': State, p: nat)
    requires Inv(st) && Enabled(st, Run) && st.queue[0] == WriterCancel(w) && st.reading
    ensures Turned(st, 1) == Some(st') && Behind(st', w, p, ReadDone) && p + 1 < |st'.queue| <= |st.queue| + 1
  {
    DoKeepsInv(st, Run);
    st' := Do(st, Run);
    p := |st'.queue| - 2;
    assert Turned(st', 0) == Some(st');
  }

  /** One round later the reader's wake-up stands before the writer. */
  lemma FirstRound(st: State, w: Writer) returns (n: nat, st': State, p: nat)
    requires Inv(st) && Enabled(st, Run) && st.queue[0] == WriterCancel(w) && st.reading
    ensures n <= |st.queue| + 2 && p + 1 < |st.queue| + 1
    ensures Turned(st, n) == Some(st') && Behind(st', w, p, ReaderWake)
  {
    hide Turned, Behind, Do, Inv;
    var s0, k := CancelPutsWriterBehind(st, w);
    var s1 := ToTheFront(s0, w, k, ReadDone);
    st', p := AfterTheRead(s1, w);
    TurnedOn(st, 1, s0, k, s1);
    TurnedOn(st, 1 + k, s1, 2, st');
    n := 3 + k;
  }

  lemma SecondRound(st: State, w: Writer, p: nat) returns (st': State)
    requires Behind(st, w, p, ReaderWake)
    ensures Turned(st, p + 2) == Some(st') && st'.owner == Some(TheWriter(w))
  {
    hide Turned, Behind, Do, Inv;
    var s := ToTheFront(st, w, p, ReaderWake);
    st' := AfterTheWakeUp(s, w);
    TurnedOn(st, p, s, 2, st');
  }

  lemma TwoRounds(st: State, w: Writer) returns (n: nat, st': State)
    requires Inv(st) && Enabled(st, Run) && st.queue[0] == WriterCancel(w) && st.reading
    ensures n <= 2 * |st.queue| + 3
    ensures Turned(st, n) == Some(st') && st'.owner == Some(TheWriter(w))
  {
    hide Turned, Behind, Inv;
    var m, s0, p := FirstRound(st, w);
    st' := SecondRound(s0, w, p);
    TurnedOn(st, m, s0, p + 2, st');
    n := m + (p + 2);
  }

  /** The cancel works: in every run, the writer that ends a pending read gets the lock itself within
      two rounds of the queue, if nobody else comes in between. */
  lemma CancellingWriterGetsTheLock(xs: seq<Action>, st: State, w: Writer) returns (n: nat, st': State)
    requires After(INIT, xs) == Some(st) && Enabled(st, Run)
    requires st.queue[0] == WriterCancel(w) && st.reading
    ensures n <= 2 * |st.queue| + 3
    ensures Turned(st, n) == Some(st') && st'.owner == Some(TheWriter(w))
  {
    RunKeepsInv(INIT, xs);
    n, st' := TwoRounds(st, w);
  }

  /** One more step of a run. */
  lemma Go(xs: seq<Action>, st: State, x: Action) returns (xs': seq<Action>, st': State)
    requires After(INIT, xs) == Some(st) && Enabled(st, x)
    ensures After(INIT, xs') == Some(st') && st' == Do(st, x)
  {
    xs', st' := xs + [x], Do(st, x);
    assert xs'[..|xs|] == xs;
  }

  /** The cancel is not always harmless: a writer that saw the reader waiting runs its cancel after
      the read has completed and another writer has begun, and ends that writer's operation. */
  lemma LateCancelCanHitAWrite() returns (xs: seq<Action>, st: State)
    ensures After(INIT, xs) == Some(st) && st.hit
  {
    xs := ReadCompletesFirst();
    st := State([ReadDone, WriterStart(1)], true, false, true, false, None, Some(Reader), false, false);
    xs, st := Go(xs, st, Run);
    xs, st := Go(xs, st, Arrive(WriterStart(2)));
    assert st.queue == [WriterStart(1), ReaderWake, WriterStart(2)];
    xs, st := Go(xs, st, Run);
    assert st.queue == [ReaderWake, WriterStart(2), WriterCancel(1)];
    xs, st := Go(xs, st, Run);
    assert st.queue == [WriterStart(2), WriterCancel(1)];
    xs, st := Go(xs, st, Run);
    assert st.queue == [WriterCancel(1)];
    xs, st := Go(xs, st, Run);
  }

  lemma ReadCompletesFirst() returns (xs: seq<Action>)
    ensures After(INIT, xs) ==
            Some(State([ReadDone, WriterStart(1)], true, false, true, false, None, Some(Reader), false, false))
  {
    var st: State;
    xs, st := Go([], INIT, NextRead);
    xs, st := Go(xs, st, Run);
    xs, st := Go(xs, st, BeginRead);
    xs, st := Go(xs, st, ReadCompletes);
    xs, st := Go(xs, st, Arrive(WriterStart(1)));
    assert st.queue == [ReadDone, WriterStart(1)];
  }

  /** Exactly when that happens: the cancelling job runs while a write is outstanding. */
  lemma CancelHitsIff(xs: seq<Action>, st: State, x: Action)
    requires After(INIT, xs) == Some(st) && Enabled(st, x)
    ensures Do(st, x).hit <==> x.Run? && st.queue[0].WriterCancel? && st.writing.Some?
  {
    RunKeepsInv(INIT, xs);
  }

  // ----------------------------------------------------------------------------------------
  // The Lock token
  // ----------------------------------------------------------------------------------------

  class Flag {
    var value: bool

    constructor (value: bool)
      ensures this.value == value
    {
      this.value := value;
    }
  }

  /** Those of `tokens` that will clear the flag `f` when they are destroyed. */
  ghost function OwnersOf(f: Flag, tokens: set<Lock>): set<Lock>
    reads tokens
  {
    set k | k in tokens && k.l == f
  }

  class Lock {
    var l: Flag?

    constructor ()
      ensures l == null
    {
      l := null;
    }

    /** Owns a flag; does not set it. */
    constructor Of(f: Flag)
      ensures l == f
    {
      l := f;
    }

    constructor MoveFrom(o: Lock)
      modifies o
      ensures l == old(o.l) && o.l == null
      ensures forall f: Flag :: old(o.l) == f ==> OwnersOf(f, {this, o}) == {this}
    {
      l := o.l;
      new;
      o.l := null;
    }

    /** Move assignment. Into an empty token it keeps exactly one releasing owner of every flag;
        into a token that owns another flag it forgets that flag without clearing it. */
    method Assign(o: Lock)
      modifies this, o
      ensures old(l) == old(o.l) ==> l == old(l) && o.l == old(o.l)
      ensures old(l) != old(o.l) ==> l == old(o.l) && o.l == null
      ensures old(l) == null && old(o.l) != null ==> OwnersOf(old(o.l), {this, o}) == {this}
      ensures old(l) != null && old(l) != old(o.l) ==> OwnersOf(old(l), {this, o}) == {} && old(l).value == old(l.value)
    {
      if l == o.l {
        return;
      }
      l := o.l;
      o.l := null;
    }

    /** The destructor clears the flag that the token owns, if any. */
    method Destroy()
      modifies this, l
      ensures l == old(l)
      ensures old(l) != null ==> !old(l).value
    {
      if l != null {
        l.value := false;
      }
    }
  }
}
