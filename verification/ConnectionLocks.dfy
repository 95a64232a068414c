/** One registered connection of the server (`connection.cpp`) as every coroutine that touches it
    sees it: two try-locks, the one-shot close, and the bytes on the wire. Each atomic exchange,
    load or store and each partial transfer is one step; the steps of all tasks interleave freely. */
module ConnectionLocks {
  import opened Cipher
  import opened Frames
  import opened Wrappers

  /** Where a task stands. A lock token that a coroutine holds is a task of its own. */
  datatype Task =
    | Idle
    | ReadHeld                           // a Socket_lock on the read side
    | WriteHeld                          // ... on the write side, left over from a context_lock
    | Probing                            // is_active, between its exchange and its store
    | CtxHalf                            // context_lock owns the read side and tries the write side
    | CtxUndo                            // ... failed, and is about to give the read side back
    | BothHeld                           // ... succeeded
    | Wants(packet: Packet)              // the router holds an unsent packet and no lock
    | Holds(packet: Packet)
    | Encrypted(packet: Packet, bytes: Bytes)
    | Sending(rest: Bytes)
    | Sent
    | Failed                             // the send failed; the lock is still held
    | CloseCalled(reason: Bytes)
    | CloseSpins(reason: Bytes)          // `closed` is ours; trying for the write lock
    | CloseHolds(reason: Bytes)
    | Notifying(rest: Bytes)
    | Shutting
    | CloseEnds

  /** What the tasks share. */
  datatype World = World(
    ks: Keystream, start: nat,   // the server's keystream, and its position when the route is registered
    readLock: bool, writeLock: bool, closed: bool,
    shut: bool,                  // this side has shut the socket down
    lost: bool,                  // the peer is gone: from now on transfers may fail
    pos: nat,                    // position of the cipher session
    wire: Bytes,
    sent: seq<Packet>,           // packets whose transmission was begun, in that order
    notice: Bytes,               // the close notice whose transmission was begun
    dropped: Bytes,              // bytes of the last message given up when the peer was gone
    closes: nat)                 // how often a close has taken effect

  datatype State = State(w: World, tasks: seq<Task>)

  datatype Op =
    | TryRead | DropRead | ProbeStart | ProbeEnd
    | CtxFirst | CtxSecond | CtxGiveBack | DropWrite
    | Take(p: Packet) | TryWrite | Encrypt | CheckOpen
    | Chunk(n: nat) | GiveUp | Unlock
    | CallClose(why: Bytes) | CloseOnce | CloseTry | CloseCheck | Shutdown | CloseUnlock

  /** A new task appears, the peer goes away, or task `i` makes one step. */
  datatype Action = Spawn | Lose | Run(i: nat, op: Op)

  const ERROR_TEXT: Bytes := [0x5F, 0x45, 0x72, 0x72, 0x6F, 0x72, 0x3A, 0x20]  // "_Error: "

  const SEND_FAILED: Bytes :=   // "server failed to send"
    [0x73, 0x65, 0x72, 0x76, 0x65, 0x72, 0x20, 0x66, 0x61, 0x69, 0x6C,
     0x65, 0x64, 0x20, 0x74, 0x6F, 0x20, 0x73, 0x65, 0x6E, 0x64]

  /** The plain close notice: an impossible length, a marker, the reason, a terminating zero. */
  function Notice(reason: Bytes): Bytes { Encode32(UINT32_MAX) + ERROR_TEXT + reason + [0] }

  const ERROR_STRING: string := "_Error: "
  const SEND_FAILED_STRING: string := "server failed to send"

  /** The constants are these texts, byte by byte. */
  lemma TextsOfConstants()
    ensures |ERROR_TEXT| == |ERROR_STRING| && |SEND_FAILED| == |SEND_FAILED_STRING|
    ensures forall i :: 0 <= i < |ERROR_TEXT| ==> ERROR_TEXT[i] as int == ERROR_STRING[i] as int
    ensures forall i :: 0 <= i < |SEND_FAILED| ==> SEND_FAILED[i] as int == SEND_FAILED_STRING[i] as int
  {
  }

  /** A receiver can tell a notice from a frame: its header is the largest number there is, which is
      refused as a length. Behind it stand the marker, the reason and a zero. */
  lemma NoticeIsRefused(reason: Bytes)
    ensures |Notice(reason)| == HEADER + |ERROR_TEXT| + |reason| + 1
    ensures Decode32(Notice(reason)[..HEADER]) == UINT32_MAX > MAX_PACKET
    ensures Notice(reason)[HEADER..HEADER + |ERROR_TEXT|] == ERROR_TEXT
    ensures Notice(reason)[HEADER + |ERROR_TEXT|..] == reason + [0]
  {
    RoundTrip32(UINT32_MAX);
    assert Notice(reason)[..HEADER] == Encode32(UINT32_MAX);
  }

  predicate OwnsRead(t: Task) { t.ReadHeld? || t.Probing? || t.CtxHalf? || t.CtxUndo? || t.BothHeld? }

  predicate OwnsWrite(t: Task) {
    || t.WriteHeld? || t.BothHeld? || t.Holds? || t.Encrypted? || t.Sending? || t.Sent? || t.Failed?
    || t.CloseHolds? || t.Notifying? || t.Shutting? || t.CloseEnds?
  }

  predicate Open(w: World) { !w.shut && !w.lost }

  predicate CanStep(w: World, t: Task, op: Op) {
    match op
    case TryRead | ProbeStart | CtxFirst | CallClose(_) => t.Idle?
    case Take(p) => t.Idle? && IsPacket(p)
    case DropRead => t.ReadHeld? || t.BothHeld?
    case ProbeEnd => t.Probing?
    case CtxSecond => t.CtxHalf?
    case CtxGiveBack => t.CtxUndo?
    case DropWrite => t.WriteHeld? || t.BothHeld?
    case TryWrite => t.Wants?
    case Encrypt => t.Holds? && IsPacket(t.packet)
    case CheckOpen => t.Encrypted?
    case Chunk(n) => (t.Sending? || t.Notifying?) && n <= |t.rest|
    case GiveUp => (t.Sending? || t.Notifying?) && w.lost
    case Unlock => t.Sent? || t.Failed?
    case CloseOnce => t.CloseCalled?
    case CloseTry => t.CloseSpins?
    case CloseCheck => t.CloseHolds?
    case Shutdown => t.Shutting?
    case CloseUnlock => t.CloseEnds?
  }

  /** One step of one task: the new shared state and the new task. */
  function Step(w: World, t: Task, op: Op): (World, Task)
    requires CanStep(w, t, op)
  {
    match op
    case TryRead => if w.readLock then (w, Idle) else (w.(readLock := true), ReadHeld)
    case DropRead => (w.(readLock := false), if t.BothHeld? then WriteHeld else Idle)
    case ProbeStart => if w.readLock then (w, Idle) else (w.(readLock := true), Probing)
    case ProbeEnd => (w.(readLock := false), Idle)
    case CtxFirst => if w.readLock then (w, Idle) else (w.(readLock := true), CtxHalf)
    case CtxSecond => if w.writeLock then (w, CtxUndo) else (w.(writeLock := true), BothHeld)
    case CtxGiveBack => (w.(readLock := false), Idle)
    case DropWrite => (w.(writeLock := false), if t.BothHeld? then ReadHeld else Idle)
    case Take(p) => (w, Wants(p))
    case TryWrite => if w.writeLock then (w, t) else (w.(writeLock := true), Holds(t.packet))
    case Encrypt =>
      (w.(pos := w.pos + |Frame(t.packet)|), Encrypted(t.packet, Xor(w.ks, w.pos, Frame(t.packet))))
    case CheckOpen =>
      if Open(w) then (w.(sent := w.sent + [t.packet]), Sending(t.bytes)) else (w, Failed)
    case Chunk(n) =>
      var left := t.rest[n..];
      (w.(wire := w.wire + t.rest[..n]),
       if t.Sending? then (if left == [] then Sent else Sending(left))
       else (if left == [] then Shutting else Notifying(left)))
    case GiveUp => (w.(dropped := t.rest), if t.Sending? then Failed else Shutting)
    case Unlock => (w.(writeLock := false), if t.Sent? then Idle else CloseCalled(SEND_FAILED))
    case CallClose(why) => (w, CloseCalled(why))
    case CloseOnce =>
      if w.closed then (w, Idle) else (w.(closed := true, closes := w.closes + 1), CloseSpins(t.reason))
    case CloseTry => if w.writeLock then (w, t) else (w.(writeLock := true), CloseHolds(t.reason))
    case CloseCheck =>
      if Open(w) then (w.(notice := Notice(t.reason)), Notifying(Notice(t.reason))) else (w, CloseEnds)
    case Shutdown => (w.(shut := true), CloseEnds)
    case CloseUnlock => (w.(writeLock := false), Idle)
  }

  predicate Enabled(st: State, x: Action) {
    x.Run? ==> x.i < |st.tasks| && CanStep(st.w, st.tasks[x.i], x.op)
  }

  function Do(st: State, x: Action): State
    requires Enabled(st, x)
  {
    match x
    case Spawn => st.(tasks := st.tasks + [Idle])
    case Lose => st.(w := st.w.(lost := true))
    case Run(i, op) =>
      var (w, t) := Step(st.w, st.tasks[i], op);
      State(w, st.tasks[i := t])
  }

  /** A connection as it is registered: open, unlocked, untouched. */
  ghost predicate Fresh(st: State) {
    && !st.w.readLock && !st.w.writeLock && !st.w.closed && !st.w.shut && !st.w.lost
    && st.w.pos == st.w.start && st.w.wire == [] && st.w.sent == [] && st.w.notice == [] && st.w.dropped == []
    && st.w.closes == 0 && st.tasks == []
  }

  /** The state after the run `xs` from `st`, if all its steps are enabled in turn. */
  ghost function After(st: State, xs: seq<Action>): Option<State> {
    if xs == [] then Some(st)
    else
      var before := After(st, xs[..|xs| - 1]);
      var x := xs[|xs| - 1];
      if before.Some? && Enabled(before.value, x) then Some(Do(before.value, x)) else None
  }

  // ----------------------------------------------------------------------------------------
  // Lock ownership
  // ----------------------------------------------------------------------------------------

  /** The flag is set exactly when some task owns the lock, and no two tasks own it. */
  ghost predicate Exclusive(flag: bool, ts: seq<Task>, owns: Task -> bool) {
    && (flag <==> exists i :: 0 <= i < |ts| && owns(ts[i]))
    && forall i, j :: 0 <= i < |ts| && 0 <= j < |ts| && owns(ts[i]) && owns(ts[j]) ==> i == j
  }

  /** A task changes without touching the lock, takes it while it is free, or gives up its own. */
  predicate LockMove(flag: bool, flag': bool, had: bool, has: bool) {
    (had == has && flag == flag') || (!flag && flag' && has) || (had && !has && !flag')
  }

  lemma MoveKeepsExclusive(flag: bool, flag': bool, ts: seq<Task>, i: nat, t: Task, owns: Task -> bool)
    requires Exclusive(flag, ts, owns) && i < |ts|
    requires LockMove(flag, flag', owns(ts[i]), owns(t))
    ensures Exclusive(flag', ts[i := t], owns)
  {
    var ts' := ts[i := t];
    if j :| 0 <= j < |ts| && owns(ts[j]) && j != i { assert ts'[j] == ts[j]; }
    if owns(t) { assert owns(ts'[i]); }
  }

  ghost predicate LocksOk(st: State) {
    && Exclusive(st.w.readLock, st.tasks, OwnsRead)
    && Exclusive(st.w.writeLock, st.tasks, OwnsWrite)
  }

  /** A step changes each lock flag only as ownership changes. */
  lemma StepMovesLocks(w: World, t: Task, op: Op)
    requires CanStep(w, t, op)
    requires (OwnsRead(t) ==> w.readLock) && (OwnsWrite(t) ==> w.writeLock)
    ensures var (w', t') := Step(w, t, op);
            && LockMove(w.readLock, w'.readLock, OwnsRead(t), OwnsRead(t'))
            && LockMove(w.writeLock, w'.writeLock, OwnsWrite(t), OwnsWrite(t'))
  {
    StepMovesReadLock(w, t, op);
    StepMovesWriteLock(w, t, op);
    hide Step, LockMove;
  }

  lemma StepMovesReadLock(w: World, t: Task, op: Op)
    requires CanStep(w, t, op) && (OwnsRead(t) ==> w.readLock)
    ensures LockMove(w.readLock, Step(w, t, op).0.readLock, OwnsRead(t), OwnsRead(Step(w, t, op).1))
  {
    hide Xor, Frame, Notice;
    match op
    case TryRead | DropRead | ProbeStart | ProbeEnd | CtxFirst | CtxSecond | CtxGiveBack | DropWrite =>
    case Take(_) | TryWrite | Encrypt | CheckOpen | Chunk(_) | GiveUp | Unlock =>
    case CallClose(_) | CloseOnce | CloseTry | CloseCheck | Shutdown | CloseUnlock =>
  }

  lemma StepMovesWriteLock(w: World, t: Task, op: Op)
    requires CanStep(w, t, op) && (OwnsWrite(t) ==> w.writeLock)
    ensures LockMove(w.writeLock, Step(w, t, op).0.writeLock, OwnsWrite(t), OwnsWrite(Step(w, t, op).1))
  {
    hide Xor, Frame, Notice;
    match op
    case TryRead | DropRead | ProbeStart | ProbeEnd | CtxFirst | CtxSecond | CtxGiveBack | DropWrite =>
    case Take(_) | TryWrite | Encrypt | CheckOpen | Chunk(_) | GiveUp | Unlock =>
    case CallClose(_) | CloseOnce | CloseTry | CloseCheck | Shutdown | CloseUnlock =>
  }

  lemma DoKeepsLocks(st: State, x: Action)
    requires LocksOk(st) && Enabled(st, x)
    ensures LocksOk(Do(st, x))
  {
    match x
    case Spawn =>
      SpawnKeepsExclusive(st.w.readLock, st.tasks, OwnsRead);
      SpawnKeepsExclusive(st.w.writeLock, st.tasks, OwnsWrite);
    case Lose =>
    case Run(i, op) =>
      var t := st.tasks[i];
      assert (OwnsRead(t) ==> st.w.readLock) && (OwnsWrite(t) ==> st.w.writeLock);
      StepMovesLocks(st.w, t, op);
      hide Step;
      var (w', t') := Step(st.w, t, op);
      MoveKeepsExclusive(st.w.readLock, w'.readLock, st.tasks, i, t', OwnsRead);
      MoveKeepsExclusive(st.w.writeLock, w'.writeLock, st.tasks, i, t', OwnsWrite);
  }

  lemma SpawnKeepsExclusive(flag: bool, ts: seq<Task>, owns: Task -> bool)
    requires Exclusive(flag, ts, owns) && !owns(Idle)
    ensures Exclusive(flag, ts + [Idle], owns)
  {
    var ts' := ts + [Idle];
    if i :| 0 <= i < |ts| && owns(ts[i]) { assert owns(ts'[i]); }
  }

  // ----------------------------------------------------------------------------------------
  // The bytes on the wire
  // ----------------------------------------------------------------------------------------

  /** What the owner of the write lock still has to send of the message it has begun. */
  function Unsent(t: Task): Bytes { if t.Sending? || t.Notifying? then t.rest else [] }

  /** Keystream position behind the frames of all packets begun. */
  function Behind(w: World): nat
    requires ArePackets(w.sent)
  {
    w.start + |Framed(w.sent)|
  }

  ghost predicate IsNotice(bs: Bytes) { bs == [] || exists why :: bs == Notice(why) }

  /** The wire while `t` owns the write lock (`Idle` if nobody does): the frames of the packets
      begun, then possibly a notice, and of this only the rest of the last message is missing. */
  ghost predicate WireOk(w: World, t: Task) {
    && ArePackets(w.sent) && IsNotice(w.notice)
    && w.wire + Unsent(t) + w.dropped == Stream(w.ks, w.start, w.sent) + w.notice
    && (w.dropped != [] ==> w.lost && !t.Sending? && !t.Notifying?)
    && (w.notice != [] && Open(w) ==> t.Notifying? || t.Shutting?)
    && (w.shut ==> !t.Sending? && !t.Notifying?)
    && (t.Holds? ==> IsPacket(t.packet))
    && (t.Encrypted? ==> IsPacket(t.packet))
    && (Open(w) ==>
          if t.Encrypted?
          then t.bytes == Xor(w.ks, Behind(w), Frame(t.packet)) && w.pos == Behind(w) + |Frame(t.packet)|
          else w.pos == Behind(w))
  }

  /** Writing tasks as the wire sees them. */
  function Writing(t: Task): Task { if OwnsWrite(t) then t else Idle }

  lemma AllSent(wire: Bytes, unsent: Bytes, dropped: Bytes, stream: Bytes, notice: Bytes)
    requires wire + unsent + dropped == stream + notice && unsent == dropped == notice == []
    ensures wire == stream
  {
    assert wire == wire + unsent + dropped && stream == stream + notice;
  }

  lemma EncryptKeepsWire(w: World, t: Task)
    requires WireOk(w, t) && t.Holds?
    ensures WireOk(Step(w, t, Encrypt).0, Step(w, t, Encrypt).1)
  {
    hide Xor, Frame, Stream, Notice;
  }

  lemma CheckOpenKeepsWire(w: World, t: Task)
    requires WireOk(w, t) && t.Encrypted?
    ensures WireOk(Step(w, t, CheckOpen).0, Step(w, t, CheckOpen).1)
  {
    hide Xor, Frame, Stream, Notice, Framed;
    if Open(w) {
      assert w.dropped == [] && w.notice == [];
      AllSent(w.wire, Unsent(t), w.dropped, Stream(w.ks, w.start, w.sent), w.notice);
      StreamAppend(w.ks, w.start, w.sent, t.packet);
      assert w.wire + t.bytes == Stream(w.ks, w.start, w.sent + [t.packet]);
      assert Behind(w.(sent := w.sent + [t.packet])) == Behind(w) + |Frame(t.packet)|;
    }
  }

  lemma SplitRest(wire: Bytes, rest: Bytes, n: nat, dropped: Bytes)
    requires n <= |rest|
    ensures wire + rest + dropped == wire + rest[..n] + rest[n..] + dropped
  {
    assert rest == rest[..n] + rest[n..];
    assert wire + rest == wire + rest[..n] + rest[n..];
  }

  lemma ChunkKeepsWire(w: World, t: Task, n: nat)
    requires WireOk(w, t) && (t.Sending? || t.Notifying?) && n <= |t.rest|
    ensures WireOk(Step(w, t, Chunk(n)).0, Step(w, t, Chunk(n)).1)
  {
    hide Xor, Frame, Stream, Notice;
    var t' := Step(w, t, Chunk(n)).1;
    SplitRest(w.wire, t.rest, n, w.dropped);
    assert Unsent(t') == t.rest[n..];
  }

  lemma GiveUpKeepsWire(w: World, t: Task)
    requires WireOk(w, t) && (t.Sending? || t.Notifying?) && w.lost
    ensures WireOk(Step(w, t, GiveUp).0, Step(w, t, GiveUp).1)
  {
    hide Xor, Frame, Stream, Notice;
    assert w.dropped == [];
  }

  lemma CloseCheckKeepsWire(w: World, t: Task)
    requires WireOk(w, t) && t.CloseHolds?
    ensures WireOk(Step(w, t, CloseCheck).0, Step(w, t, CloseCheck).1)
  {
    hide Xor, Frame, Stream;
    if Open(w) {
      assert w.dropped == [] && w.notice == [];
      AllSent(w.wire, Unsent(t), w.dropped, Stream(w.ks, w.start, w.sent), w.notice);
    }
  }

  lemma TakingKeepsWire(w: World, t: Task, op: Op)
    requires CanStep(w, t, op) && op in {CtxSecond, TryWrite, CloseTry} && WireOk(w, Idle)
    requires t.Wants? ==> IsPacket(t.packet)
    ensures OwnsWrite(Step(w, t, op).1) ==> WireOk(Step(w, t, op).0, Step(w, t, op).1)
  {
    hide Xor, Frame, Stream, Notice;
  }

  lemma DroppingKeepsWire(w: World, t: Task, op: Op)
    requires CanStep(w, t, op) && op in {DropWrite, Unlock, CloseUnlock} && WireOk(w, t)
    ensures WireOk(Step(w, t, op).0, Idle)
  {
    hide Xor, Frame, Stream, Notice;
  }

  lemma DropReadKeepsWire(w: World, t: Task)
    requires WireOk(w, t) && t.BothHeld?
    ensures WireOk(Step(w, t, DropRead).0, Step(w, t, DropRead).1)
  {
    hide Xor, Frame, Stream, Notice;
  }

  lemma ShutdownKeepsWire(w: World, t: Task)
    requires WireOk(w, t) && t.Shutting?
    ensures WireOk(Step(w, t, Shutdown).0, Step(w, t, Shutdown).1)
  {
    hide Xor, Frame, Stream, Notice;
  }

  /** A step of the owner of the write lock, or one that takes it, keeps the account of the wire. */
  lemma StepKeepsWire(w: World, t: Task, op: Op)
    requires CanStep(w, t, op) && WireOk(w, Writing(t))
    requires t.Wants? ==> IsPacket(t.packet)
    requires OwnsWrite(t) || OwnsWrite(Step(w, t, op).1)
    ensures WireOk(Step(w, t, op).0, Writing(Step(w, t, op).1))
  {
    hide Xor, Frame, Stream, Notice, WireOk;
    match op
    case Encrypt => EncryptKeepsWire(w, t);
    case CheckOpen => CheckOpenKeepsWire(w, t);
    case Chunk(n) => ChunkKeepsWire(w, t, n);
    case GiveUp => GiveUpKeepsWire(w, t);
    case CloseCheck => CloseCheckKeepsWire(w, t);
    case CtxSecond | TryWrite | CloseTry => TakingKeepsWire(w, t, op);
    case DropWrite | Unlock | CloseUnlock => DroppingKeepsWire(w, t, op);
    case DropRead => DropReadKeepsWire(w, t);
    case _ => ShutdownKeepsWire(w, t);
  }

  /** A task that neither owns nor takes the write lock does not touch the wire. */
  lemma OtherStepsKeepWire(w: World, t: Task, op: Op, writer: Task)
    requires CanStep(w, t, op) && WireOk(w, writer)
    requires !OwnsWrite(t) && !OwnsWrite(Step(w, t, op).1)
    ensures WireOk(Step(w, t, op).0, writer)
  {
    hide Xor, Frame, Stream, Notice;
  }

  // ----------------------------------------------------------------------------------------
  // Runs
  // ----------------------------------------------------------------------------------------

  ghost predicate Inv(st: State) {
    && LocksOk(st)
    && (forall i :: 0 <= i < |st.tasks| && OwnsWrite(st.tasks[i]) ==> WireOk(st.w, st.tasks[i]))
    && (!st.w.writeLock ==> WireOk(st.w, Idle))
    && (forall i :: 0 <= i < |st.tasks| && st.tasks[i].Wants? ==> IsPacket(st.tasks[i].packet))
    && st.w.closes == (if st.w.closed then 1 else 0)
  }

  lemma LoseKeepsWire(w: World, t: Task)
    requires WireOk(w, t)
    ensures WireOk(w.(lost := true), t)
  {
    hide Xor, Frame, Stream, Notice;
  }

  /** In every run, the client that has received any part of the frames on the wire has delivered a
      prefix of the packets sent to it; all of them once all their frames have arrived. */
  lemma ClientDeliversWhatWasSent(st0: State, xs: seq<Action>, st: State, c: Bytes)
    requires Fresh(st0) && After(st0, xs) == Some(st) && c <= st.w.wire
    requires ArePackets(st.w.sent) && |c| <= |Stream(st.w.ks, st.w.start, st.w.sent)|
    ensures Receive(st.w.ks, st.w.start, c) <= st.w.sent
    ensures |c| == |Stream(st.w.ks, st.w.start, st.w.sent)| ==> Receive(st.w.ks, st.w.start, c) == st.w.sent
  {
    WireIsFramesThenNotice(st0, xs, st);
    var frames := Stream(st.w.ks, st.w.start, st.w.sent);
    hide Stream, Receive, After, Notice;
    assert c == (frames + st.w.notice)[..|c|] == frames[..|c|];
    RoundTrip(st.w.ks, st.w.start, st.w.sent, c);
  }

  lemma StepCountsCloses(w: World, t: Task, op: Op)
    requires CanStep(w, t, op) && w.closes == (if w.closed then 1 else 0)
    ensures Step(w, t, op).0.closes == (if Step(w, t, op).0.closed then 1 else 0)
  {
    hide Xor, Frame, Notice;
  }

  lemma StepWantsPackets(w: World, t: Task, op: Op)
    requires CanStep(w, t, op) && (t.Wants? ==> IsPacket(t.packet))
    ensures Step(w, t, op).1.Wants? ==> IsPacket(Step(w, t, op).1.packet)
  {
    hide Xor, Frame, Notice, IsPacket;
    if !op.Take? && !op.TryWrite? {
      assert !Step(w, t, op).1.Wants?;
    }
  }

  lemma RunKeepsWire(st: State, i: nat, op: Op)
    requires Inv(st) && Enabled(st, Run(i, op))
    ensures var st' := Do(st, Run(i, op));
            && (forall j :: 0 <= j < |st'.tasks| && OwnsWrite(st'.tasks[j]) ==> WireOk(st'.w, st'.tasks[j]))
            && (!st'.w.writeLock ==> WireOk(st'.w, Idle))
  {
    var t := st.tasks[i];
    var st' := Do(st, Run(i, op));
    DoKeepsLocks(st, Run(i, op));
    StepMovesLocks(st.w, t, op);
    var t' := Step(st.w, t, op).1;
    hide Step, WireOk;
    assert st'.tasks[i] == t';
    if OwnsWrite(t) || OwnsWrite(t') {
      assert WireOk(st.w, Writing(t));
      StepKeepsWire(st.w, t, op);
      forall j | 0 <= j < |st'.tasks| && OwnsWrite(st'.tasks[j]) ensures WireOk(st'.w, st'.tasks[j]) {
        if OwnsWrite(t') { assert j == i; }
      }
      if !st'.w.writeLock { assert !OwnsWrite(st'.tasks[i]); }
    } else {
      forall j | 0 <= j < |st'.tasks| && OwnsWrite(st'.tasks[j]) ensures WireOk(st'.w, st'.tasks[j]) {
        assert st.tasks[j] == st'.tasks[j];
        OtherStepsKeepWire(st.w, t, op, st.tasks[j]);
      }
      if !st'.w.writeLock { OtherStepsKeepWire(st.w, t, op, Idle); }
    }
  }

  lemma DoKeepsInv(st: State, x: Action)
    requires Inv(st) && Enabled(st, x)
    ensures Inv(Do(st, x))
  {
    DoKeepsLocks(st, x);
    match x
    case Spawn =>
      hide WireOk;
    case Lose =>
      forall i | 0 <= i < |st.tasks| && OwnsWrite(st.tasks[i]) { LoseKeepsWire(st.w, st.tasks[i]); }
      if !st.w.writeLock { LoseKeepsWire(st.w, Idle); }
      hide WireOk;
    case Run(i, op) =>
      RunKeepsWire(st, i, op);
      StepCountsCloses(st.w, st.tasks[i], op);
      StepWantsPackets(st.w, st.tasks[i], op);
      hide WireOk, Step;
  }

  lemma {:induction false} RunKeepsInv(st: State, xs: seq<Action>)
    requires Inv(st)
    ensures After(st, xs).Some? ==> Inv(After(st, xs).value)
  {
    if xs != [] && After(st, xs).Some? {
      RunKeepsInv(st, xs[..|xs| - 1]);
      DoKeepsInv(After(st, xs[..|xs| - 1]).value, xs[|xs| - 1]);
    }
  }

  lemma FreshInv(st: State)
    requires Fresh(st)
    ensures Inv(st)
  {
    assert Stream(st.w.ks, st.w.start, []) == [];
  }

  /** Lock safety, in every run: each lock flag is set exactly when there is an owner, never two. */
  lemma LocksAreExclusive(st0: State, xs: seq<Action>, st: State)
    requires Fresh(st0) && After(st0, xs) == Some(st)
    ensures Exclusive(st.w.readLock, st.tasks, OwnsRead)
    ensures Exclusive(st.w.writeLock, st.tasks, OwnsWrite)
  {
    FreshInv(st0);
    RunKeepsInv(st0, xs);
  }

  /** A close takes effect at most once, in every run. */
  lemma CloseIsOneShot(st0: State, xs: seq<Action>, st: State)
    requires Fresh(st0) && After(st0, xs) == Some(st)
    ensures st.w.closes <= 1 && (st.w.closes == 1 <==> st.w.closed)
  {
    FreshInv(st0);
    RunKeepsInv(st0, xs);
  }

  lemma WireOfWriter(w: World, t: Task)
    requires WireOk(w, t)
    ensures w.wire <= Stream(w.ks, w.start, w.sent) + w.notice
    ensures Unsent(t) == [] && !w.lost ==> w.wire == Stream(w.ks, w.start, w.sent) + w.notice
  {
    hide Stream, Frame, Notice;
    assert w.wire + Unsent(t) + w.dropped == w.wire + (Unsent(t) + w.dropped);
  }

  /** The wire, in every run: the bytes sent are a prefix of the frames of the packets, under one
      continuous keystream in the order their transmission began, followed by at most one close
      notice; all of it whenever nobody is sending and the peer is still there. */
  lemma WireIsFramesThenNotice(st0: State, xs: seq<Action>, st: State)
    requires Fresh(st0) && After(st0, xs) == Some(st)
    ensures ArePackets(st.w.sent) && IsNotice(st.w.notice)
    ensures st.w.wire <= Stream(st.w.ks, st.w.start, st.w.sent) + st.w.notice
    ensures !st.w.writeLock && !st.w.lost ==> st.w.wire == Stream(st.w.ks, st.w.start, st.w.sent) + st.w.notice
  {
    FreshInv(st0);
    RunKeepsInv(st0, xs);
    hide Stream, After, Notice;
    if st.w.writeLock {
      var i :| 0 <= i < |st.tasks| && OwnsWrite(st.tasks[i]);
      WireOfWriter(st.w, st.tasks[i]);
    } else {
      WireOfWriter(st.w, Idle);
    }
  }

  /** Once the notice has begun no further packet is begun, and once the socket is shut down the
      wire does not change any more. */
  lemma NothingAfterTheNotice(st0: State, xs: seq<Action>, st: State, ys: seq<Action>, st': State)
    requires Fresh(st0) && After(st0, xs) == Some(st) && After(st, ys) == Some(st')
    ensures Silent(st.w, st'.w)
  {
    FreshInv(st0);
    RunKeepsInv(st0, xs);
    StaysSilent(st, ys);
  }

  ghost predicate Silent(w: World, w': World) {
    && (w.notice != [] ==> w'.sent == w.sent && w'.notice == w.notice)
    && (w.shut ==> w'.shut && w'.wire == w.wire)
  }

  lemma {:induction false} StaysSilent(st: State, ys: seq<Action>)
    requires Inv(st)
    ensures After(st, ys).Some? ==> Silent(st.w, After(st, ys).value.w)
  {
    if ys != [] && After(st, ys).Some? {
      var init, x := ys[..|ys| - 1], ys[|ys| - 1];
      StaysSilent(st, init);
      RunKeepsInv(st, init);
      DoIsSilent(After(st, init).value, x);
      hide Do, Inv;
    }
  }

  lemma DoIsSilent(st: State, x: Action)
    requires Inv(st) && Enabled(st, x)
    ensures Silent(st.w, Do(st, x).w)
  {
    if x.Run? {
      var t := st.tasks[x.i];
      if OwnsWrite(t) {
        FinishedStepsAreSilent(st.w, t, x.op);
      } else {
        OtherStepsAreSilent(st.w, t, x.op);
      }
      hide Step, WireOk;
    }
  }

  lemma FewStepsTouchTheWire(w: World, t: Task, op: Op)
    requires CanStep(w, t, op) && !op.CheckOpen? && !op.Chunk? && !op.CloseCheck?
    ensures Step(w, t, op).0.sent == w.sent && Step(w, t, op).0.notice == w.notice && Step(w, t, op).0.wire == w.wire
    ensures op.Shutdown? || Step(w, t, op).0.shut == w.shut
  {
    hide Xor, Frame, Notice;
    match op
    case TryRead | DropRead | ProbeStart | ProbeEnd | CtxFirst | CtxSecond | CtxGiveBack | DropWrite =>
    case Take(_) | TryWrite | Encrypt | GiveUp | Unlock =>
    case CallClose(_) | CloseOnce | CloseTry | Shutdown | CloseUnlock =>
  }

  lemma FinishedStepsAreSilent(w: World, t: Task, op: Op)
    requires CanStep(w, t, op) && WireOk(w, t)
    ensures w.notice != [] ==> Step(w, t, op).0.sent == w.sent && Step(w, t, op).0.notice == w.notice
    ensures w.shut ==> Step(w, t, op).0.shut && Step(w, t, op).0.wire == w.wire
  {
    hide Stream, Xor, Frame, Notice;
    if op.CheckOpen? || op.Chunk? || op.CloseCheck? || op.Shutdown? {
    } else {
      hide Step, WireOk;
      FewStepsTouchTheWire(w, t, op);
    }
  }

  lemma OtherStepsAreSilent(w: World, t: Task, op: Op)
    requires CanStep(w, t, op) && !OwnsWrite(t)
    ensures Step(w, t, op).0.sent == w.sent && Step(w, t, op).0.notice == w.notice
    ensures Step(w, t, op).0.shut == w.shut && Step(w, t, op).0.wire == w.wire
  {
    hide Step;
    FewStepsTouchTheWire(w, t, op);
  }

  // ----------------------------------------------------------------------------------------
  // Progress
  // ----------------------------------------------------------------------------------------

  /** The next step on the way of an owner of the write lock to giving it up. */
  function Onward(t: Task): Op
    requires OwnsWrite(t)
  {
    match t
    case BothHeld | WriteHeld => DropWrite
    case Holds(_) => Encrypt
    case Encrypted(_, _) => CheckOpen
    case Sending(rest) => Chunk(|rest|)
    case Notifying(rest) => Chunk(|rest|)
    case Sent | Failed => Unlock
    case CloseHolds(_) => CloseCheck
    case Shutting => Shutdown
    case CloseEnds => CloseUnlock
  }

  /** How many such steps the owner is away from having given it up. */
  function Away(t: Task): nat {
    if !OwnsWrite(t) then 0
    else match t
         case Holds(_) => 4
         case Encrypted(_, _) => 3
         case Sending(_) => 2
         case CloseHolds(_) => 4
         case Notifying(_) => 3
         case Shutting => 2
         case _ => 1
  }

  /** Nobody ever waits for the write lock with the write lock in hand: in every reachable state
      where it is taken, its owner can go on, and frees it within four steps of its own. So a close
      that spins is never stuck. */
  lemma OwnerCanRelease(st0: State, xs: seq<Action>, st: State) returns (i: nat, ys: seq<Action>, st': State)
    requires Fresh(st0) && After(st0, xs) == Some(st) && st.w.writeLock
    ensures i < |st.tasks| && OwnsWrite(st.tasks[i])
    ensures |ys| <= 4 && forall k :: 0 <= k < |ys| ==> ys[k].Run? && ys[k].i == i
    ensures After(st, ys) == Some(st') && !st'.w.writeLock && st'.w.closed == st.w.closed
  {
    FreshInv(st0);
    RunKeepsInv(st0, xs);
    var j :| 0 <= j < |st.tasks| && OwnsWrite(st.tasks[j]);
    i := j;
    ys, st' := Release(st, i);
  }

  lemma OnwardIsEnabled(w: World, t: Task)
    requires OwnsWrite(t) && WireOk(w, t)
    ensures CanStep(w, t, Onward(t))
  {
    hide Stream, Xor, Frame, Notice;
  }

  lemma OnwardGetsNearer(w: World, t: Task)
    requires OwnsWrite(t) && CanStep(w, t, Onward(t))
    ensures var (w', t') := Step(w, t, Onward(t));
            Away(t') < Away(t) && (!OwnsWrite(t') ==> !w'.writeLock) && w'.closed == w.closed
  {
    hide Stream, Xor, Frame, Notice;
  }

  lemma OnwardWorks(w: World, t: Task)
    requires OwnsWrite(t) && WireOk(w, t)
    ensures CanStep(w, t, Onward(t))
    ensures var (w', t') := Step(w, t, Onward(t));
            && Away(t') < Away(t) && (OwnsWrite(t') ==> WireOk(w', t')) && (!OwnsWrite(t') ==> !w'.writeLock)
            && w'.closed == w.closed
  {
    hide WireOk, Step, Onward, Away;
    OnwardIsEnabled(w, t);
    OnwardGetsNearer(w, t);
    assert !t.Wants?;
    StepKeepsWire(w, t, Onward(t));
  }

  lemma {:induction false} Release(st: State, i: nat) returns (ys: seq<Action>, st': State)
    requires i < |st.tasks| && OwnsWrite(st.tasks[i]) && WireOk(st.w, st.tasks[i])
    ensures |ys| <= Away(st.tasks[i]) && forall k :: 0 <= k < |ys| ==> ys[k].Run? && ys[k].i == i
    ensures After(st, ys) == Some(st') && !st'.w.writeLock && st'.w.closed == st.w.closed
    decreases Away(st.tasks[i])
  {
    var t := st.tasks[i];
    OnwardWorks(st.w, t);
    var x := Run(i, Onward(t));
    var next := Do(st, x);
    hide Step, WireOk, Onward;
    if OwnsWrite(next.tasks[i]) {
      ys, st' := Release(next, i);
      AfterCons(st, x, ys);
      ys := [x] + ys;
    } else {
      ys, st' := [x], next;
      AfterCons(st, x, []);
      assert [x] + [] == [x];
    }
  }

  lemma {:induction false} AfterCons(st: State, x: Action, ys: seq<Action>)
    requires Enabled(st, x)
    ensures After(st, [x] + ys) == After(Do(st, x), ys)
  {
    if ys == [] {
      assert [x] + ys == [x] && [x][..0] == [];
    } else {
      AfterCons(st, x, ys[..|ys| - 1]);
      assert ([x] + ys)[..|ys|] == [x] + ys[..|ys| - 1];
    }
  }

  // ----------------------------------------------------------------------------------------
  // context_lock
  // ----------------------------------------------------------------------------------------

  /** The task is inside context_lock and has taken the read side. */
  predicate InContextLock(t: Task) { t.CtxHalf? || t.CtxUndo? }

  /** The state before step `k` of the run `ys` from `st`. */
  ghost function Before(st: State, ys: seq<Action>, k: nat): State
    requires k <= |ys| && After(st, ys[..k]).Some?
  {
    After(st, ys[..k]).value
  }

  lemma {:induction false} PrefixRuns(st: State, ys: seq<Action>, k: nat)
    requires After(st, ys).Some? && k <= |ys|
    ensures After(st, ys[..k]).Some?
    ensures k < |ys| ==> && Enabled(Before(st, ys, k), ys[k])
                         && After(st, ys[..k + 1]) == Some(Do(Before(st, ys, k), ys[k]))
    decreases |ys|
  {
    assert ys[..|ys|] == ys;
    if k < |ys| {
      var init := ys[..|ys| - 1];
      if k < |init| { PrefixRuns(st, init, k); }
      assert init[..k] == ys[..k];
      if k + 1 <= |init| { assert init[..k + 1] == ys[..k + 1] && init[k] == ys[k]; }
    }
  }

  /** `ys` leads from `st`, where task `i` is inside context_lock, to the end of that call. */
  ghost predicate CallEnds(st: State, i: nat, ys: seq<Action>, st': State) {
    && After(st, ys) == Some(st') && i < |st.tasks|
    && (forall k :: 0 <= k < |ys| ==>
          After(st, ys[..k]).Some? && i < |Before(st, ys, k).tasks| && InContextLock(Before(st, ys, k).tasks[i]))
    && InContextLock(st.tasks[i]) && i < |st'.tasks| && !InContextLock(st'.tasks[i])
  }

  /** What one step can do to a task inside context_lock. */
  lemma ContextStep(st: State, x: Action, i: nat)
    requires Enabled(st, x) && i < |st.tasks| && InContextLock(st.tasks[i])
    ensures i < |Do(st, x).tasks|
    ensures var t' := Do(st, x).tasks[i];
            if x == Run(i, CtxSecond) && !st.w.writeLock then t' == BothHeld
            else if x == Run(i, CtxGiveBack) then t' == Idle && Do(st, x).w == st.w.(readLock := false)
            else InContextLock(t') && (x.Run? && x.i == i ==> Do(st, x).w == st.w)
  {
    hide Xor, Frame, Notice;
    if x.Run? && x.i == i {
      assert x.op.CtxSecond? || x.op.CtxGiveBack?;
    } else {
      hide Step;
    }
  }

  /** The failing path: the call gives the read side back, and never changes the write flag. */
  ghost predicate GaveUp(st: State, i: nat, ys: seq<Action>, st': State)
    requires i < |st'.tasks| && forall k :: 0 <= k <= |ys| ==> After(st, ys[..k]).Some?
  {
    && ys != [] && ys[|ys| - 1] == Run(i, CtxGiveBack)
    && st'.tasks[i].Idle? && !st'.w.readLock && (forall j :: 0 <= j < |st'.tasks| ==> !OwnsRead(st'.tasks[j]))
    && forall k :: 0 <= k < |ys| && ys[k].Run? && ys[k].i == i ==>
         Before(st, ys, k + 1).w.writeLock == Before(st, ys, k).w.writeLock
  }

  /** The successful path: both flags are set, and the task is the one owner of both sides. */
  ghost predicate GotBoth(st': State, i: nat)
    requires i < |st'.tasks|
  {
    && st'.tasks[i].BothHeld? && st'.w.readLock && st'.w.writeLock
    && forall j :: 0 <= j < |st'.tasks| && (OwnsRead(st'.tasks[j]) || OwnsWrite(st'.tasks[j])) ==> j == i
  }

  /** context_lock is all or nothing, in every interleaving: from any reachable state in which a task
      is inside the call, however the others step in between, the call ends owning both sides alone,
      or having given back all it took; the former exactly if its second exchange met a free lock. */
  lemma ContextLockIsAllOrNothing(st0: State, xs: seq<Action>, st: State, i: nat, ys: seq<Action>, st': State)
    requires Fresh(st0) && After(st0, xs) == Some(st) && CallEnds(st, i, ys, st')
    ensures forall k :: 0 <= k <= |ys| ==> After(st, ys[..k]).Some?
    ensures GotBoth(st', i) || GaveUp(st, i, ys, st')
    ensures GotBoth(st', i) <==>
              exists k :: 0 <= k < |ys| && ys[k] == Run(i, CtxSecond) && !Before(st, ys, k).w.writeLock
  {
    hide Step, Inv, After, Do, Enabled;
    FreshInv(st0);
    RunKeepsInv(st0, xs);
    RunKeepsInv(st, ys);
    LocksOfInv(st');
    CallIsNotEmpty(st, i, ys, st');
    var last := |ys| - 1;
    forall k | 0 <= k < |ys| ensures After(st, ys[..k]).Some? { PrefixRuns(st, ys, k); }
    forall k | 0 <= k < last ensures LeavesWriteLock(st, i, ys, k) {
      PrefixRuns(st, ys, k);
      ContextStep(Before(st, ys, k), ys[k], i);
      assert InContextLock(Before(st, ys, k + 1).tasks[i]);
    }
    PrefixRuns(st, ys, last);
    ContextStep(Before(st, ys, last), ys[last], i);
    assert ys[..|ys|] == ys;
    if ys[last] == Run(i, CtxGiveBack) {
      forall k | 0 <= k < |ys| && ys[k].Run? && ys[k].i == i
        ensures Before(st, ys, k + 1).w.writeLock == Before(st, ys, k).w.writeLock
      {
        assert k < last ==> LeavesWriteLock(st, i, ys, k);
      }
      assert GaveUp(st, i, ys, st');
    } else {
      assert GotBoth(st', i);
    }
    if k :| 0 <= k < |ys| && ys[k] == Run(i, CtxSecond) && !Before(st, ys, k).w.writeLock {
      assert k < last ==> LeavesWriteLock(st, i, ys, k);
    }
  }

  /** Step `k` does not give task `i` the write lock, and if it is the task's own, does not touch it. */
  ghost predicate LeavesWriteLock(st: State, i: nat, ys: seq<Action>, k: nat) {
    && k < |ys| && After(st, ys[..k]).Some? && After(st, ys[..k + 1]).Some?
    && !(ys[k] == Run(i, CtxSecond) && !Before(st, ys, k).w.writeLock)
    && (ys[k].Run? && ys[k].i == i ==> Before(st, ys, k + 1).w.writeLock == Before(st, ys, k).w.writeLock)
  }

  lemma LocksOfInv(st: State)
    requires Inv(st)
    ensures LocksOk(st)
  {
  }

  lemma CallIsNotEmpty(st: State, i: nat, ys: seq<Action>, st': State)
    requires CallEnds(st, i, ys, st')
    ensures ys != []
  {
  }
}
