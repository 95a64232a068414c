/** The TUN lock is always given back: in every reachable state in which it is held, an operation is
    outstanding or its completion is on the way, and the holder gets to the end of it. */
module TunProgress {
  import opened TunDevice
  import opened Wrappers

  // ----------------------------------------------------------------------------------------
  // Nobody keeps the lock for nothing
  // ----------------------------------------------------------------------------------------

  ghost predicate HasCompletion(st: State) { exists i :: 0 <= i < |st.queue| && IsCompletion(st.queue[i]) }

  ghost predicate HasReaderTry(st: State) { exists i :: 0 <= i < |st.queue| && st.queue[i].ReaderTry? }

  /** The holder of the lock is about to read, or has an operation outstanding, or its completion is
      queued. */
  ghost predicate HolderIsBusy(st: State) {
    st.lock ==> st.entering || st.reading || st.writing.Some? || HasCompletion(st)
  }

  /** The reader is between two reads, or tries to get the lock, or has it. */
  ghost predicate ReaderIsSomewhere(st: State) {
    st.readerIdle || HasReaderTry(st) || st.owner == Some(Reader)
  }

  ghost predicate Live(st: State) { Inv(st) && HolderIsBusy(st) && ReaderIsSomewhere(st) }

  /** A job that is pushed is in the queue, and so are those that were there. */
  lemma PushHas(st: State, j: Job)
    ensures IsCompletion(j) || HasCompletion(st) ==> HasCompletion(Push(st, j))
    ensures j.ReaderTry? || HasReaderTry(st) ==> HasReaderTry(Push(st, j))
  {
    var q := Push(st, j).queue;
    assert q[|st.queue|] == j && forall i :: 0 <= i < |st.queue| ==> q[i] == st.queue[i];
  }

  lemma PopHas(st: State)
    requires st.queue != []
    ensures HasCompletion(st) && !IsCompletion(st.queue[0]) ==> HasCompletion(Popped(st))
    ensures HasReaderTry(st) && !st.queue[0].ReaderTry? ==> HasReaderTry(Popped(st))
  {
    if i :| 0 <= i < |st.queue| && IsCompletion(st.queue[i]) && i > 0 { assert Popped(st).queue[i - 1] == st.queue[i]; }
    if i :| 0 <= i < |st.queue| && st.queue[i].ReaderTry? && i > 0 { assert Popped(st).queue[i - 1] == st.queue[i]; }
  }

  lemma AttemptKeepsBusy(st: State, w: Writer)
    requires HolderIsBusy(st) && ReaderIsSomewhere(st) && FlagsOk(st)
    ensures HolderIsBusy(Attempt(st, w)) && ReaderIsSomewhere(Attempt(st, w))
  {
    if st.lock { PushHas(st, WriterTry(w)); }
  }

  lemma CancelKeepsBusy(st: State)
    requires HolderIsBusy(st) && ReaderIsSomewhere(st)
    ensures HolderIsBusy(Cancel(st)) && ReaderIsSomewhere(Cancel(st))
  {
    if st.reading { PushHas(st.(reading := false), ReadDone); }
  }

  lemma RunKeepsBusy(st: State)
    requires Live(st) && Enabled(st, Run)
    ensures HolderIsBusy(Do(st, Run)) && ReaderIsSomewhere(Do(st, Run))
  {
    var s, j := Popped(st), st.queue[0];
    PopHas(st);
    PopKeepsQueue(st);
    match j {
      case ReaderTry => PushHas(s, ReaderTry);
      case ReadDone => PushHas(s, ReaderWake);
      case WriteDone(w) => PushHas(s, WriterWake(w));
      case WriterStart(w) => if s.isReadLock { PushHas(s, WriterCancel(w)); } else { AttemptKeepsBusy(s, w); }
      case WriterCancel(w) => CancelKeepsInv(s); CancelKeepsBusy(s); AttemptKeepsBusy(Cancel(s), w);
      case WriterTry(w) => AttemptKeepsBusy(s, w);
      case _ =>
    }
  }

  lemma DoKeepsLive(st: State, x: Action)
    requires Live(st) && Enabled(st, x)
    ensures Live(Do(st, x))
  {
    DoKeepsInv(st, x);
    match x
    case Run => RunKeepsBusy(st);
    case NextRead => PushHas(st.(readerIdle := false), ReaderTry);
    case BeginRead =>
    case Arrive(j) => PushHas(st, j);
    case ReadCompletes => PushHas(st.(reading := false), ReadDone);
    case WriteCompletes => PushHas(st.(writing := None), WriteDone(st.writing.value));
  }

  lemma {:induction false} RunKeepsLive(st: State, xs: seq<Action>)
    requires Live(st)
    ensures After(st, xs).Some? ==> Live(After(st, xs).value)
  {
    if xs != [] && After(st, xs).Some? {
      hide Live, Do, Enabled;
      RunKeepsLive(st, xs[..|xs| - 1]);
      DoKeepsLive(After(st, xs[..|xs| - 1]).value, xs[|xs| - 1]);
    }
  }

  lemma ReachableIsLive(st: State)
    requires Reachable(st)
    ensures Live(st)
  {
    var xs :| After(INIT, xs) == Some(st);
    RunKeepsLive(INIT, xs);
  }

  /** In every reachable state, a lock that is held without any operation outstanding or about to
      begin is about to be given back: the completion is in the queue. */
  lemma HeldLockIsOnItsWay(st: State)
    requires Reachable(st)
    ensures st.lock && !st.entering && !st.reading && st.writing.None? ==>
              exists i :: 0 <= i < |st.queue| && IsCompletion(st.queue[i])
    ensures st.readerIdle || st.owner == Some(Reader) || exists i :: 0 <= i < |st.queue| && st.queue[i].ReaderTry?
  {
    ReachableIsLive(st);
  }

  // ----------------------------------------------------------------------------------------
  // The lock is given back
  // ----------------------------------------------------------------------------------------

  /** One more step of a run. */
  lemma GoOn(st: State, ys: seq<Action>, st1: State, x: Action) returns (zs: seq<Action>, st2: State)
    requires After(st, ys) == Some(st1) && Enabled(st1, x)
    ensures After(st, zs) == Some(st2) && st2 == Do(st1, x) && |zs| == |ys| + 1
  {
    zs, st2 := ys + [x], Do(st1, x);
    assert zs[..|ys|] == ys;
  }

  /** The operation of the holder is over, and its completion stands at place `p`. */
  ghost predicate Ending(st: State, p: nat) {
    Inv(st) && !st.hit && p < |st.queue| && IsCompletion(st.queue[p])
  }

  lemma EndingTurn(st: State, p: nat)
    requires Ending(st, p) && p > 0
    ensures Ending(Do(st, Run), p - 1) && |Do(st, Run).queue| <= |st.queue|
    ensures Do(st, Run).queue[p - 1] == st.queue[p]
  {
    DoKeepsInv(st, Run);
    assert !IsCompletion(st.queue[0]);
    assert Popped(st).queue[p - 1] == st.queue[p];
  }

  /** The completion comes to the front of the queue. */
  lemma {:induction false} EndingComes(st: State, ys: seq<Action>, st1: State, p: nat)
    returns (zs: seq<Action>, st': State)
    requires After(st, ys) == Some(st1) && Ending(st1, p)
    ensures After(st, zs) == Some(st') && |zs| == |ys| + p && Ending(st', 0) && |st'.queue| <= |st1.queue|
    ensures st'.queue[0] == st1.queue[p]
    decreases p
  {
    zs, st' := ys, st1;
    if p > 0 {
      hide After;
      EndingTurn(st1, p);
      zs, st' := GoOn(st, ys, st1, Run);
      hide Ending, Do, Enabled;
      zs, st' := EndingComes(st, zs, st', p - 1);
    }
  }

  /** The wake-up of the holder gives the lock back. */
  lemma WakeUpFrees(st: State)
    requires Ending(st, 0) && (st.queue[0].ReaderWake? || st.queue[0].WriterWake?)
    ensures Enabled(st, Run) && !Do(st, Run).lock && Do(st, Run).owner.None?
  {
  }

  lemma DoneWakes(st: State)
    requires Ending(st, 0) && (st.queue[0].ReadDone? || st.queue[0].WriteDone?)
    ensures Enabled(st, Run)
    ensures var s := Do(st, Run); var last := |s.queue| - 1;
            Ending(s, last) && |s.queue| == |st.queue| && (s.queue[last].ReaderWake? || s.queue[last].WriterWake?)
  {
    DoKeepsInv(st, Run);
  }

  lemma EndingEnds(st: State, ys: seq<Action>, st1: State, p: nat) returns (zs: seq<Action>, st': State)
    requires After(st, ys) == Some(st1) && Ending(st1, p)
    ensures After(st, zs) == Some(st') && |zs| <= |ys| + 2 * |st1.queue| && !st'.lock && st'.owner.None?
  {
    hide After, Do, Enabled, Inv;
    zs, st' := EndingComes(st, ys, st1, p);
    if st'.queue[0].ReadDone? || st'.queue[0].WriteDone? {
      DoneWakes(st');
      zs, st' := GoOn(st, zs, st', Run);
      zs, st' := EndingComes(st, zs, st', |st'.queue| - 1);
    }
    WakeUpFrees(st');
    zs, st' := GoOn(st, zs, st', Run);
  }

  /** The operation of the holder ends. */
  lemma OperationEnds(st: State) returns (ys: seq<Action>, st': State, p: nat)
    requires Live(st) && st.lock && !st.hit
    ensures After(st, ys) == Some(st') && |ys| <= 2 && Ending(st', p) && |st'.queue| <= |st.queue| + 1
  {
    ys, st' := [], st;
    if st.entering {
      DoKeepsInv(st', BeginRead);
      ys, st' := GoOn(st, ys, st', BeginRead);
    }
    if st'.reading {
      DoKeepsInv(st', ReadCompletes);
      ys, st' := GoOn(st, ys, st', ReadCompletes);
      p := |st'.queue| - 1;
    } else if st'.writing.Some? {
      DoKeepsInv(st', WriteCompletes);
      ys, st' := GoOn(st, ys, st', WriteCompletes);
      p := |st'.queue| - 1;
    } else {
      var i :| 0 <= i < |st'.queue| && IsCompletion(st'.queue[i]);
      p := i;
    }
  }

  /** The lock is never kept for ever: from every reachable state in which it is held, the holder's
      own operation and at most two rounds of the queue lead to a state in which it is free. */
  lemma HeldLockIsGivenBack(st: State) returns (ys: seq<Action>, st': State)
    requires Reachable(st) && st.lock && !st.hit
    ensures After(st, ys) == Some(st') && |ys| <= 2 * |st.queue| + 4
    ensures !st'.lock && st'.owner.None?
  {
    ReachableIsLive(st);
    hide Live, Ending, After;
    var zs, st1, p := OperationEnds(st);
    ys, st' := EndingEnds(st, zs, st1, p);
  }

  // ----------------------------------------------------------------------------------------
  // No writer is forgotten
  // ----------------------------------------------------------------------------------------

  function One(yes: bool): nat { if yes then 1 else 0 }

  /** The job belongs to a call of write by `w`. */
  predicate IsOf(j: Job, w: Writer) {
    (j.WriterStart? || j.WriterCancel? || j.WriterTry? || j.WriteDone? || j.WriterWake?) && j.w == w
  }

  function JobsOf(q: seq<Job>, w: Writer): nat {
    if q == [] then 0 else One(IsOf(q[0], w)) + JobsOf(q[1..], w)
  }

  lemma {:induction false} JobsOfPush(q: seq<Job>, j: Job, w: Writer)
    ensures JobsOf(q + [j], w) == JobsOf(q, w) + One(IsOf(j, w))
  {
    if q == [] {
      assert q + [j] == [j] && [j][1..] == [];
    } else {
      JobsOfPush(q[1..], j, w);
      assert (q + [j])[1..] == q[1..] + [j];
    }
  }

  /** The calls of write by `w` that have not returned. */
  function Pending(st: State, w: Writer): nat { JobsOf(st.queue, w) + One(st.writing == Some(w)) }

  predicate Comes(x: Action, w: Writer) { x == Arrive(WriterStart(w)) }

  predicate Returns(st: State, x: Action, w: Writer)
    requires Enabled(st, x)
  {
    x.Run? && st.queue[0] == WriterWake(w)
  }

  lemma AttemptKeepsPending(st: State, v: Writer, w: Writer)
    requires FlagsOk(st)
    ensures Pending(Attempt(st, v), w) == Pending(st, w) + One(v == w)
  {
    JobsOfPush(st.queue, WriterTry(v), w);
  }

  lemma CancelKeepsPending(st: State, w: Writer)
    ensures Pending(Cancel(st), w) == Pending(st, w)
  {
    JobsOfPush(st.queue, ReadDone, w);
  }

  lemma ExecuteKeepsPending(st: State, j: Job, w: Writer)
    requires Inv(st)
    ensures Pending(Execute(st, j), w) == Pending(st, w) + One(IsOf(j, w) && j != WriterWake(w))
  {
    match j {
      case ReaderTry => JobsOfPush(st.queue, j, w);
      case ReadDone => JobsOfPush(st.queue, ReaderWake, w);
      case WriteDone(v) => JobsOfPush(st.queue, WriterWake(v), w);
      case WriterStart(v) => JobsOfPush(st.queue, WriterCancel(v), w); AttemptKeepsPending(st, v, w);
      case WriterCancel(v) => CancelKeepsPending(st, w); CancelKeepsInv(st); AttemptKeepsPending(Cancel(st), v, w);
      case WriterTry(v) => AttemptKeepsPending(st, v, w);
      case _ =>
    }
  }

  lemma DoKeepsPending(st: State, x: Action, w: Writer)
    requires Inv(st) && Enabled(st, x)
    ensures Pending(Do(st, x), w) + One(Returns(st, x, w)) == Pending(st, w) + One(Comes(x, w))
  {
    match x
    case Run =>
      PopKeepsQueue(st);
      ExecuteKeepsPending(Popped(st), st.queue[0], w);
    case NextRead => JobsOfPush(st.queue, ReaderTry, w);
    case BeginRead =>
    case Arrive(j) => JobsOfPush(st.queue, j, w);
    case ReadCompletes => JobsOfPush(st.queue, ReadDone, w);
    case WriteCompletes => JobsOfPush(st.queue, WriteDone(st.writing.value), w);
  }

  function AllComing(xs: seq<Action>, w: Writer): nat {
    if xs == [] then 0 else AllComing(xs[..|xs| - 1], w) + One(Comes(xs[|xs| - 1], w))
  }

  function AllReturned(xs: seq<Action>, w: Writer): nat
    requires After(INIT, xs).Some?
  {
    if xs == [] then 0
    else
      var init, x := xs[..|xs| - 1], xs[|xs| - 1];
      AllReturned(init, w) + One(Returns(After(INIT, init).value, x, w))
  }

  /** In every run, each call of write that has begun has returned, or is in the queue or outstanding on
      the descriptor, exactly once. */
  lemma {:induction false} NoWriterIsForgotten(xs: seq<Action>, w: Writer)
    requires After(INIT, xs).Some?
    ensures AllComing(xs, w) == AllReturned(xs, w) + Pending(After(INIT, xs).value, w)
  {
    if xs != [] {
      hide Do, Enabled, Inv, Pending, Returns, Comes;
      var init := xs[..|xs| - 1];
      NoWriterIsForgotten(init, w);
      InvHere(init);
      DoKeepsPending(After(INIT, init).value, xs[|xs| - 1], w);
    }
  }

  lemma InvHere(xs: seq<Action>)
    requires After(INIT, xs).Some?
    ensures Inv(After(INIT, xs).value)
  {
    RunKeepsInv(INIT, xs);
  }
}
