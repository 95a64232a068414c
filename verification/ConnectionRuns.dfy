/** What runs of a connection come to: which packets are sent, and that sends and closes end. */
module ConnectionRuns {
  import opened Cipher
  import opened ConnectionLocks
  import opened Frames
  import opened Wrappers

  // ----------------------------------------------------------------------------------------
  // Packets are neither lost, changed nor duplicated
  // ----------------------------------------------------------------------------------------

  function One(yes: bool): nat { if yes then 1 else 0 }

  /** How often the router has taken the packet `p` from the TUN device for this connection. */
  function Taken(xs: seq<Action>, p: Packet): nat {
    if xs == [] then 0 else Taken(xs[..|xs| - 1], p) + One(Brings(xs[|xs| - 1], p))
  }

  predicate Brings(x: Action, p: Packet) { x.Run? && x.op == Take(p) }

  /** The task holds `p` and has not begun to send it. */
  predicate InHand(t: Task, p: Packet) { (t.Wants? || t.Holds? || t.Encrypted?) && t.packet == p }

  function AllInHand(ts: seq<Task>, p: Packet): nat {
    if ts == [] then 0 else AllInHand(ts[..|ts| - 1], p) + One(InHand(ts[|ts| - 1], p))
  }

  function TimesSent(w: World, p: Packet): nat { multiset(w.sent)[p] }

  lemma {:induction false} AllInHandUpdate(ts: seq<Task>, i: nat, t: Task, p: Packet)
    requires i < |ts|
    ensures AllInHand(ts[i := t], p) + One(InHand(ts[i], p)) == AllInHand(ts, p) + One(InHand(t, p))
  {
    hide InHand;
    var init := ts[..|ts| - 1];
    if i == |ts| - 1 {
      assert ts[i := t][..i] == init;
    } else {
      AllInHandUpdate(init, i, t, p);
      assert ts[i := t][..|ts| - 1] == init[i := t];
    }
  }

  lemma OnlyCheckOpenSends(w: World, t: Task, op: Op)
    requires CanStep(w, t, op) && !op.CheckOpen?
    ensures Step(w, t, op).0.sent == w.sent
  {
    hide Xor, Frame, Notice;
    match op
    case TryRead | DropRead | ProbeStart | ProbeEnd | CtxFirst | CtxSecond | CtxGiveBack | DropWrite =>
    case Take(_) | TryWrite | Encrypt | Chunk(_) | GiveUp | Unlock =>
    case CallClose(_) | CloseOnce | CloseTry | CloseCheck | Shutdown | CloseUnlock =>
  }

  lemma OnlyCheckOpenLetsGo(w: World, t: Task, op: Op, p: Packet)
    requires CanStep(w, t, op) && !op.CheckOpen?
    ensures One(InHand(Step(w, t, op).1, p)) == One(InHand(t, p)) + One(op == Take(p))
  {
    hide Xor, Frame, Notice;
    match op
    case TryRead | DropRead | ProbeStart | ProbeEnd | CtxFirst | CtxSecond | CtxGiveBack | DropWrite =>
    case Take(_) | TryWrite | Encrypt | Chunk(_) | GiveUp | Unlock =>
    case CallClose(_) | CloseOnce | CloseTry | CloseCheck | Shutdown | CloseUnlock =>
  }

  /** A step passes on the packet in hand as it is, unless it finds the connection closed. */
  lemma StepMovesPackets(w: World, t: Task, op: Op, p: Packet)
    requires CanStep(w, t, op)
    ensures var (w', t') := Step(w, t, op);
            if op.CheckOpen? && !Open(w) then TimesSent(w', p) == TimesSent(w, p) && !InHand(t', p)
            else TimesSent(w', p) + One(InHand(t', p)) == TimesSent(w, p) + One(InHand(t, p)) + One(op == Take(p))
  {
    if !op.CheckOpen? {
      hide Step, InHand;
      OnlyCheckOpenSends(w, t, op);
      OnlyCheckOpenLetsGo(w, t, op, p);
    }
  }

  lemma StaysClosed(w: World, t: Task, op: Op)
    requires CanStep(w, t, op)
    ensures Open(Step(w, t, op).0) ==> Open(w)
  {
    hide Xor, Frame, Notice;
  }

  /** Sent, in hand, and taken. */
  predicate Accounted(st: State, taken: nat, p: Packet) {
    && TimesSent(st.w, p) + AllInHand(st.tasks, p) <= taken
    && (Open(st.w) ==> TimesSent(st.w, p) + AllInHand(st.tasks, p) == taken)
  }

  lemma DoKeepsAccount(st: State, x: Action, taken: nat, p: Packet)
    requires Accounted(st, taken, p) && Enabled(st, x)
    ensures Accounted(Do(st, x), taken + One(Brings(x, p)), p)
  {
    match x
    case Spawn => assert (st.tasks + [Idle])[..|st.tasks|] == st.tasks;
    case Lose =>
    case Run(i, op) =>
      StepMovesPackets(st.w, st.tasks[i], op, p);
      StaysClosed(st.w, st.tasks[i], op);
      hide Step, CanStep, InHand, TimesSent;
      AllInHandUpdate(st.tasks, i, Step(st.w, st.tasks[i], op).1, p);
  }

  /** In every run, each packet has been begun to be sent, or is still in hand, at most as often as it
      was taken from the TUN device, byte for byte; while the connection is open, just as often. */
  lemma {:induction false} SentAsTaken(st: State, xs: seq<Action>, st': State, p: Packet)
    requires Fresh(st) && After(st, xs) == Some(st')
    ensures TimesSent(st'.w, p) + AllInHand(st'.tasks, p) <= Taken(xs, p)
    ensures Open(st'.w) ==> TimesSent(st'.w, p) + AllInHand(st'.tasks, p) == Taken(xs, p)
  {
    if xs != [] {
      hide Do, Enabled, TimesSent, AllInHand;
      var init := xs[..|xs| - 1];
      SentAsTaken(st, init, After(st, init).value, p);
      DoKeepsAccount(After(st, init).value, xs[|xs| - 1], Taken(init, p), p);
    }
  }

  // ----------------------------------------------------------------------------------------
  // Locks are taken when they are free
  // ----------------------------------------------------------------------------------------

  /** Task `t` may make the attempt `op` on one side of the lock. */
  predicate MayAttempt(t: Task, op: Op) {
    || (t.Idle? && op in {TryRead, ProbeStart, CtxFirst})
    || (t.CtxHalf? && op == CtxSecond) || (t.Wants? && op == TryWrite) || (t.CloseSpins? && op == CloseTry)
  }

  /** An attempt gives the task its side of the lock if and only if no task has it. */
  lemma AttemptSucceedsIffFree(st0: State, xs: seq<Action>, st: State, i: nat, op: Op)
    requires Fresh(st0) && After(st0, xs) == Some(st) && i < |st.tasks| && MayAttempt(st.tasks[i], op)
    ensures Enabled(st, Run(i, op)) && i < |Do(st, Run(i, op)).tasks|
    ensures op in {TryRead, ProbeStart, CtxFirst} ==>
              (OwnsRead(Do(st, Run(i, op)).tasks[i]) <==> forall j :: 0 <= j < |st.tasks| ==> !OwnsRead(st.tasks[j]))
    ensures op in {CtxSecond, TryWrite, CloseTry} ==>
              (OwnsWrite(Do(st, Run(i, op)).tasks[i]) <==> forall j :: 0 <= j < |st.tasks| ==> !OwnsWrite(st.tasks[j]))
  {
    LocksAreExclusive(st0, xs, st);
    hide After, Xor, Frame, Notice;
  }

  // ----------------------------------------------------------------------------------------
  // At most one close is under way
  // ----------------------------------------------------------------------------------------

  predicate IsClosing(t: Task) {
    t.CloseSpins? || t.CloseHolds? || t.Notifying? || t.Shutting? || t.CloseEnds?
  }

  /** The close that has taken effect has neither sent its notice nor shut the socket down. */
  predicate IsEarly(t: Task) { t.CloseSpins? || t.CloseHolds? }

  ghost predicate OneClose(st: State) {
    && (forall i :: 0 <= i < |st.tasks| && IsClosing(st.tasks[i]) ==> st.w.closed)
    && (forall i, j :: 0 <= i < |st.tasks| && 0 <= j < |st.tasks| ==>
          IsClosing(st.tasks[i]) && IsClosing(st.tasks[j]) ==> i == j)
    && (st.w.shut || st.w.notice != [] ==> st.w.closed)
    && (forall i :: 0 <= i < |st.tasks| && IsEarly(st.tasks[i]) ==> !st.w.shut && st.w.notice == [])
  }

  /** What a step does to the close of its task. */
  lemma StepCloses(w: World, t: Task, op: Op)
    requires CanStep(w, t, op)
    ensures var (w', t') := Step(w, t, op);
            && (w.closed ==> w'.closed)
            && (IsClosing(t') ==> IsClosing(t) || (op.CloseOnce? && !w.closed && w'.closed))
            && (IsEarly(t') ==> (IsEarly(t) || op.CloseOnce?) && w'.shut == w.shut && w'.notice == w.notice)
            && (w'.shut != w.shut || w'.notice != w.notice ==> IsClosing(t) && !IsEarly(t'))
  {
    hide Xor, Frame, Notice;
    match op
    case TryRead | DropRead | ProbeStart | ProbeEnd | CtxFirst | CtxSecond | CtxGiveBack | DropWrite =>
    case Take(_) | TryWrite | Encrypt | CheckOpen | Chunk(_) | GiveUp | Unlock =>
    case CallClose(_) | CloseOnce | CloseTry | CloseCheck | Shutdown | CloseUnlock =>
  }

  lemma DoKeepsOneClose(st: State, x: Action)
    requires OneClose(st) && Enabled(st, x)
    ensures OneClose(Do(st, x))
  {
    if x.Run? {
      StepCloses(st.w, st.tasks[x.i], x.op);
      hide Step, IsClosing, IsEarly, CanStep;
      EarlyIsClosing(st.tasks[x.i]);
      forall j | 0 <= j < |st.tasks| ensures IsEarly(st.tasks[j]) ==> IsClosing(st.tasks[j]) {
        EarlyIsClosing(st.tasks[j]);
      }
    }
  }

  lemma EarlyIsClosing(t: Task)
    ensures IsEarly(t) ==> IsClosing(t)
  {
  }

  lemma {:induction false} RunKeepsOneClose(st: State, xs: seq<Action>, st': State)
    requires Fresh(st) && After(st, xs) == Some(st')
    ensures OneClose(st')
  {
    if xs != [] {
      hide Do, Enabled, OneClose;
      RunKeepsOneClose(st, xs[..|xs| - 1], After(st, xs[..|xs| - 1]).value);
      DoKeepsOneClose(After(st, xs[..|xs| - 1]).value, xs[|xs| - 1]);
    }
  }

  /** In every run, at most one close is under way, and until it has the write lock the socket is not
      shut down and no notice has been begun. */
  lemma OneCloseUnderWay(st0: State, xs: seq<Action>, st: State, i: nat, j: nat)
    requires Fresh(st0) && After(st0, xs) == Some(st) && i < |st.tasks| && j < |st.tasks|
    ensures IsClosing(st.tasks[i]) && IsClosing(st.tasks[j]) ==> i == j && st.w.closed
    ensures IsEarly(st.tasks[i]) ==> !st.w.shut && st.w.notice == []
  {
    RunKeepsOneClose(st0, xs, st);
  }

  // ----------------------------------------------------------------------------------------
  // Sends and closes end
  // ----------------------------------------------------------------------------------------

  /** One more step of a run. */
  lemma Go(st: State, ys: seq<Action>, st1: State, i: nat, op: Op) returns (zs: seq<Action>, st2: State)
    requires After(st, ys) == Some(st1) && Enabled(st1, Run(i, op))
    ensures zs == ys + [Run(i, op)] && After(st, zs) == Some(st2) && st2 == Do(st1, Run(i, op))
  {
    zs, st2 := ys + [Run(i, op)], Do(st1, Run(i, op));
    assert zs[..|ys|] == ys;
  }

  /** Steps of other tasks leave a task alone, and the peer too. */
  lemma {:induction false} OthersLeaveAlone(st: State, ys: seq<Action>, st': State, i: nat, j: nat)
    requires After(st, ys) == Some(st') && i < |st.tasks| && i != j
    requires forall k :: 0 <= k < |ys| ==> ys[k].Run? && ys[k].i == j
    ensures |st'.tasks| == |st.tasks| && st'.tasks[i] == st.tasks[i] && st'.w.lost == st.w.lost
    ensures st.w.shut ==> st'.w.shut
    ensures st.w.closed ==> st'.w.closed
    ensures multiset(st.w.sent) <= multiset(st'.w.sent)
  {
    if ys != [] {
      var init, x := ys[..|ys| - 1], ys[|ys| - 1];
      var before := After(st, init).value;
      OthersLeaveAlone(st, init, before, i, j);
      StepOnlyAdds(before.w, before.tasks[j], x.op);
      hide Step;
    }
  }

  lemma StepOnlyAdds(w: World, t: Task, op: Op)
    requires CanStep(w, t, op)
    ensures var w' := Step(w, t, op).0;
            && w'.lost == w.lost && (w.shut ==> w'.shut) && (w.closed ==> w'.closed)
            && multiset(w.sent) <= multiset(w'.sent)
  {
    hide Xor, Frame, Notice;
    if !op.CheckOpen? { OnlyCheckOpenSends(w, t, op); }
    match op
    case TryRead | DropRead | ProbeStart | ProbeEnd | CtxFirst | CtxSecond | CtxGiveBack | DropWrite =>
    case Take(_) | TryWrite | Encrypt | CheckOpen | Chunk(_) | GiveUp | Unlock =>
    case CallClose(_) | CloseOnce | CloseTry | CloseCheck | Shutdown | CloseUnlock =>
  }

  /** From any reachable state, the owner of the write lock, if any, can be made to give it up, while
      task `i`, which does not own it, stays where it is. */
  lemma Unlocked(st0: State, xs: seq<Action>, st: State, i: nat) returns (ys: seq<Action>, st': State)
    requires Fresh(st0) && After(st0, xs) == Some(st) && i < |st.tasks| && !OwnsWrite(st.tasks[i])
    ensures After(st, ys) == Some(st') && |ys| <= 4 && !st'.w.writeLock
    ensures |st'.tasks| == |st.tasks| && st'.tasks[i] == st.tasks[i] && st'.w.lost == st.w.lost
    ensures st.w.shut ==> st'.w.shut
    ensures st'.w.closed == st.w.closed
    ensures Open(st.w) && !st.w.closed ==> Open(st'.w)
    ensures multiset(st.w.sent) <= multiset(st'.w.sent)
  {
    ys, st' := [], st;
    if st.w.writeLock {
      var j;
      j, ys, st' := OwnerCanRelease(st0, xs, st);
      OthersLeaveAlone(st, ys, st', i, j);
      var all := RunsOn(st0, xs, st, ys, st');
      RunKeepsOneClose(st0, all, st');
    }
  }

  /** A close that has the lock to itself sends its notice if the connection is open, shuts the socket
      down and ends. */
  lemma CloseRuns(st: State, ys: seq<Action>, st1: State, i: nat) returns (zs: seq<Action>, st': State)
    requires After(st, ys) == Some(st1) && i < |st1.tasks| && st1.tasks[i].CloseSpins? && !st1.w.writeLock
    ensures After(st, zs) == Some(st') && |zs| <= |ys| + 5 && i < |st'.tasks| && st'.tasks[i].Idle?
    ensures st'.w.lost == st1.w.lost && st'.w.closed == st1.w.closed && !st'.w.writeLock
    ensures if Open(st1.w) then st'.w.shut && st'.w.notice == Notice(st1.tasks[i].reason)
                                && st'.w.wire == st1.w.wire + Notice(st1.tasks[i].reason)
            else st'.w == st1.w
  {
    hide After, Notice, Xor, Frame;
    var reason := st1.tasks[i].reason;
    zs, st' := Go(st, ys, st1, i, CloseTry);
    zs, st' := Go(st, zs, st', i, CloseCheck);
    if Open(st1.w) {
      var notice := Notice(reason);
      assert st'.tasks[i] == Notifying(notice) && notice[|notice|..] == [] && notice[..|notice|] == notice;
      zs, st' := Go(st, zs, st', i, Chunk(|notice|));
      assert st'.tasks[i] == Shutting;
      zs, st' := Go(st, zs, st', i, Shutdown);
    }
    assert st'.tasks[i] == CloseEnds;
    zs, st' := Go(st, zs, st', i, CloseUnlock);
  }

  /** A spinning close ends: from every reachable state it can be brought to its end within nine steps,
      its own and the lock owner's; if the connection is open it has then sent its notice and shut the
      socket down. */
  lemma SpinningCloseEnds(st0: State, xs: seq<Action>, st: State, i: nat) returns (ys: seq<Action>, st': State)
    requires Fresh(st0) && After(st0, xs) == Some(st) && i < |st.tasks| && st.tasks[i].CloseSpins?
    ensures After(st, ys) == Some(st') && |ys| <= 9 && i < |st'.tasks| && st'.tasks[i].Idle?
    ensures Open(st.w) ==> st'.w.shut && st'.w.notice == Notice(st.tasks[i].reason)
    ensures st.w.closed ==> st'.w.closed
  {
    hide After, Step, Notice;
    var zs, st1 := Unlocked(st0, xs, st, i);
    var all := RunsOn(st0, xs, st, zs, st1);
    OneCloseUnderWay(st0, all, st1, i, i);
    ys, st' := CloseRuns(st, zs, st1, i);
  }

  lemma {:induction false} RunsOn(st0: State, xs: seq<Action>, st: State, ys: seq<Action>, st': State)
    returns (all: seq<Action>)
    requires After(st0, xs) == Some(st) && After(st, ys) == Some(st')
    ensures After(st0, all) == Some(st')
  {
    all := xs;
    if ys != [] {
      var init, x := ys[..|ys| - 1], ys[|ys| - 1];
      var before := After(st, init).value;
      var zs := RunsOn(st0, xs, st, init, before);
      all := zs + [x];
      assert all[..|zs|] == zs;
    }
  }

  /** A close takes effect: called by an idle task on a connection not closed yet, it closes it and can
      be brought to its end, with the notice of its reason sent and the socket shut down if it was open.
      Called once more, it ends at once and changes nothing. */
  lemma CloseTakesEffect(st0: State, xs: seq<Action>, st: State, i: nat, why: Bytes)
    returns (ys: seq<Action>, st': State)
    requires Fresh(st0) && After(st0, xs) == Some(st) && i < |st.tasks|
    requires st.tasks[i].Idle? || st.tasks[i] == CloseCalled(why)
    ensures After(st, ys) == Some(st') && |ys| <= 11 && i < |st'.tasks| && st'.tasks[i].Idle? && st'.w.closed
    ensures !st.w.closed && Open(st.w) ==> st'.w.shut && st'.w.notice == Notice(why)
    ensures st.w.closed ==> st'.w == st.w
  {
    hide Xor, Frame, Notice;
    var zs, st1 := [], st;
    if st.tasks[i].Idle? {
      zs, st1 := Go(st, [], st, i, CallClose(why));
    }
    var st2;
    zs, st2 := Go(st, zs, st1, i, CloseOnce);
    hide After, Do, Step;
    if st.w.closed {
      ys, st' := zs, st2;
    } else {
      assert st2.tasks[i] == CloseSpins(why) && st2.w.closed && Open(st2.w) == Open(st.w);
      var all := RunsOn(st0, xs, st, zs, st2);
      var ws;
      ws, st' := SpinningCloseEnds(st0, all, st2, i);
      ys := Joined(st, zs, st2, ws, st');
    }
  }

  lemma {:induction false} Joined(st: State, ys: seq<Action>, st1: State, zs: seq<Action>, st2: State)
    returns (all: seq<Action>)
    requires After(st, ys) == Some(st1) && After(st1, zs) == Some(st2)
    ensures After(st, all) == Some(st2) && |all| == |ys| + |zs|
  {
    all := ys;
    if zs != [] {
      var init, x := zs[..|zs| - 1], zs[|zs| - 1];
      var ws := Joined(st, ys, st1, init, After(st1, init).value);
      all := ws + [x];
      assert all[..|ws|] == ws;
    }
  }

  /** A close whose peer is gone shuts the socket down all the same. */
  lemma LostCloseEnds(st: State, i: nat) returns (ys: seq<Action>, st': State)
    requires i < |st.tasks| && st.tasks[i].Notifying? && st.w.lost
    ensures After(st, ys) == Some(st') && |ys| == 3 && i < |st'.tasks| && st'.tasks[i].Idle?
    ensures st'.w.shut && !st'.w.writeLock && st'.w.wire == st.w.wire
  {
    hide After, Notice, Xor, Frame;
    NoSteps(st);
    ys, st' := Go(st, [], st, i, GiveUp);
    assert st'.tasks[i] == Shutting;
    ys, st' := Go(st, ys, st', i, Shutdown);
    assert st'.tasks[i] == CloseEnds;
    ys, st' := Go(st, ys, st', i, CloseUnlock);
  }

  lemma NoSteps(st: State)
    ensures After(st, []) == Some(st)
  {
  }

  /** A send during which the peer goes away fails, frees the lock and calls close with that reason; what
      it had not sent is dropped. */
  lemma LostSendCloses(st: State, i: nat) returns (ys: seq<Action>, st': State)
    requires i < |st.tasks| && st.tasks[i].Sending?
    ensures ys == [Lose, Run(i, GiveUp), Run(i, Unlock)] && After(st, ys) == Some(st')
    ensures i < |st'.tasks| && st'.tasks[i] == CloseCalled(SEND_FAILED)
    ensures !st'.w.writeLock && st'.w.lost && st'.w.wire == st.w.wire && st'.w.dropped == st.tasks[i].rest
  {
    var x: Action := Lose;
    st' := Do(st, x);
    assert After(st, [x]) == Some(st') by { assert [x][..0] == []; }
    hide After, Notice, Xor, Frame;
    ys, st' := Go(st, [x], st', i, GiveUp);
    assert st'.tasks[i] == Failed;
    ys, st' := Go(st, ys, st', i, Unlock);
  }

  /** Whoever has the read side can give it back by at most three steps of its own. */
  lemma ReaderCanRelease(st: State, i: nat) returns (ys: seq<Action>, st': State)
    requires i < |st.tasks| && OwnsRead(st.tasks[i])
    ensures After(st, ys) == Some(st') && |ys| <= 3 && i < |st'.tasks|
    ensures !OwnsRead(st'.tasks[i]) && !st'.w.readLock
    ensures forall k :: 0 <= k < |ys| ==> ys[k].Run? && ys[k].i == i
  {
    hide After, Notice, Xor, Frame;
    NoSteps(st);
    ys, st' := [], st;
    if st.tasks[i].Probing? {
      ys, st' := Go(st, ys, st', i, ProbeEnd);
    } else {
      if st.tasks[i].CtxHalf? {
        ys, st' := Go(st, ys, st', i, CtxSecond);
      }
      if st'.tasks[i].CtxUndo? {
        ys, st' := Go(st, ys, st', i, CtxGiveBack);
      } else {
        ys, st' := Go(st, ys, st', i, DropRead);
      }
    }
  }

  /** A sender that has the lock to itself sends its packet if the connection is open; else it calls
      close. */
  lemma SendRuns(st: State, ys: seq<Action>, st1: State, i: nat) returns (zs: seq<Action>, st': State)
    requires After(st, ys) == Some(st1) && i < |st1.tasks| && st1.tasks[i].Wants? && IsPacket(st1.tasks[i].packet)
    requires !st1.w.writeLock
    ensures After(st, zs) == Some(st') && |zs| <= |ys| + 5 && |st'.tasks| == |st1.tasks| && !st'.w.writeLock
    ensures Open(st1.w) ==> && st'.tasks[i].Idle? && st'.w.sent == st1.w.sent + [st1.tasks[i].packet]
                            && st'.w.wire == st1.w.wire + Xor(st1.w.ks, st1.w.pos, Frame(st1.tasks[i].packet))
    ensures !Open(st1.w) ==> st'.tasks[i] == CloseCalled(SEND_FAILED) && st'.w.wire == st1.w.wire && !Open(st'.w)
  {
    hide After, Notice, Xor;
    var p := st1.tasks[i].packet;
    zs, st' := Go(st, ys, st1, i, TryWrite);
    assert st'.tasks[i] == Holds(p);
    zs, st' := Go(st, zs, st', i, Encrypt);
    var bytes := Xor(st1.w.ks, st1.w.pos, Frame(p));
    assert st'.tasks[i] == Encrypted(p, bytes);
    zs, st' := Go(st, zs, st', i, CheckOpen);
    if Open(st1.w) {
      assert st'.tasks[i] == Sending(bytes) && bytes[|bytes|..] == [] && bytes[..|bytes|] == bytes;
      zs, st' := Go(st, zs, st', i, Chunk(|bytes|));
      assert st'.tasks[i] == Sent;
    } else {
      assert st'.tasks[i] == Failed;
    }
    zs, st' := Go(st, zs, st', i, Unlock);
  }

  /** A waiting packet can be sent: from every reachable state, within nine steps, the owner's of the
      write lock and its sender's, it is sent and the sender free, if the connection is open and no
      close has taken effect. Otherwise it is sent too, or the sender finds the connection closed and
      calls close. */
  lemma WaitingPacketIsSent(st0: State, xs: seq<Action>, st: State, i: nat) returns (ys: seq<Action>, st': State)
    requires Fresh(st0) && After(st0, xs) == Some(st) && i < |st.tasks| && st.tasks[i].Wants?
    ensures After(st, ys) == Some(st') && |ys| <= 9 && i < |st'.tasks|
    ensures || (st'.tasks[i].Idle? && multiset(st.w.sent) + multiset{st.tasks[i].packet} <= multiset(st'.w.sent))
            || (st'.tasks[i] == CloseCalled(SEND_FAILED) && !Open(st'.w))
    ensures Open(st.w) && !st.w.closed ==> st'.tasks[i].Idle?
  {
    hide After, Inv, Fresh;
    FreshInv(st0);
    RunKeepsInv(st0, xs);
    WaitingIsPacket(st, i);
    var zs, st1 := Unlocked(st0, xs, st, i);
    ys, st' := SendRuns(st, zs, st1, i);
    var sent, p := st1.w.sent, st1.tasks[i].packet;
    assert multiset(sent + [p]) == multiset(sent) + multiset{p};
  }

  lemma WaitingIsPacket(st: State, i: nat)
    requires Inv(st) && i < |st.tasks| && st.tasks[i].Wants?
    ensures IsPacket(st.tasks[i].packet) && !OwnsWrite(st.tasks[i])
  {
  }

  /** Every packet for an idle router is sent if the connection is open and no close has taken effect. */
  lemma RoutedPacketIsSent(st0: State, xs: seq<Action>, st: State, i: nat, p: Packet)
    returns (ys: seq<Action>, st': State)
    requires Fresh(st0) && After(st0, xs) == Some(st) && i < |st.tasks| && st.tasks[i].Idle? && IsPacket(p)
    ensures After(st, ys) == Some(st') && |ys| <= 10 && i < |st'.tasks|
    ensures || (st'.tasks[i].Idle? && multiset(st.w.sent) + multiset{p} <= multiset(st'.w.sent))
            || (st'.tasks[i] == CloseCalled(SEND_FAILED) && !Open(st'.w))
    ensures Open(st.w) && !st.w.closed ==> st'.tasks[i].Idle?
  {
    NoSteps(st);
    hide After;
    var zs, st1 := Go(st, [], st, i, Take(p));
    var all := RunsOn(st0, xs, st, zs, st1);
    var ws;
    ws, st' := WaitingPacketIsSent(st0, all, st1, i);
    ys := Joined(st, zs, st1, ws, st');
  }

  /** From the registration on: the first packet routed to a connection goes out as one frame at the
      beginning of its keystream. */
  lemma FirstPacketGoesOut(st0: State, p: Packet) returns (xs: seq<Action>, st: State)
    requires Fresh(st0) && IsPacket(p)
    ensures After(st0, xs) == Some(st) && st.tasks == [Idle] && !st.w.writeLock
    ensures st.w.sent == [p] && st.w.wire == Xor(st0.w.ks, st0.w.start, Frame(p))
  {
    var x: Action := Spawn;
    st := Do(st0, x);
    assert After(st0, [x]) == Some(st) by { assert [x][..0] == []; }
    hide After, Notice, Xor;
    xs, st := Go(st0, [x], st, 0, Take(p));
    assert st.tasks == [Wants(p)];
    var st1 := st;
    xs, st := SendAlone(st0, xs, st1, p);
  }

  lemma SendAlone(st0: State, xs: seq<Action>, st1: State, p: Packet) returns (ys: seq<Action>, st: State)
    requires After(st0, xs) == Some(st1) && st1.tasks == [Wants(p)] && IsPacket(p) && !st1.w.writeLock && Open(st1.w)
    ensures After(st0, ys) == Some(st) && st.tasks == [Idle] && !st.w.writeLock
    ensures st.w.sent == st1.w.sent + [p] && st.w.wire == st1.w.wire + Xor(st1.w.ks, st1.w.pos, Frame(p))
  {
    hide After;
    ys, st := SendRuns(st0, xs, st1, 0);
  }
}
