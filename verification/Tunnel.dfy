/** Moving frames over a socket that transfers as much as it likes per call: the transfer loops of
    `asioapi.cpp`, the client's TUN-to-socket loop and the server's socket-to-TUN loop. */
module Tunnel {
  import opened Cipher
  import opened Frames
  import opened Wrappers

  datatype Error = MessageSize | InvalidArgument | NoBufferSpace | ConnectionReset | Transfer

  /** What the outside world does at one call: move up to `n` bytes, or fail. */
  datatype Event = Moves(n: nat) | Fails

  /** The program's 32-bit sizes. */
  type U32 = n: nat | n <= UINT32_MAX

  function Min(a: nat, b: nat): nat { if a <= b then a else b }

  /** How many bytes `read_some` fetches into a buffer of `length` bytes when asked for `amount`:
      zero means all of the buffer, whose length is cut to 32 bits. */
  function Wanted(length: nat, amount: U32): U32 {
    if amount == 0 then length % (UINT32_MAX + 1) else amount
  }

  /** `read_some` refuses its arguments. */
  predicate Refuses(length: nat, amount: U32) {
    amount > length || (Wanted(length, amount) > 0 && length > UINT32_MAX)
  }

  lemma RefusesMeans(length: nat, amount: U32)
    ensures Refuses(length, amount) <==> amount > length || (Wanted(length, amount) > 0 && length > UINT32_MAX)
    ensures amount > length ==> Wanted(length, amount) > 0
    ensures amount <= length ==> Wanted(length, amount) <= length
  {
  }

  /** What has been taken off the front of `c` when `c'` is left. */
  function Took(c: Bytes, c': Bytes): (r: Bytes)
    requires |c'| <= |c|
    ensures |r| == |c| - |c'|
  {
    c[..|c| - |c'|]
  }

  /** One end of a connection. `script` is what will happen at each call; behind its end the
      connection is dead. */
  class Socket {
    const script: seq<Event>
    var calls: nat         // calls made so far
    var sent: Bytes        // everything handed to the network so far
    var arriving: Bytes    // everything still to be read

    constructor (script: seq<Event>, arriving: Bytes)
      ensures this.script == script && this.arriving == arriving && sent == [] && calls == 0
    {
      this.script, this.arriving, sent, calls := script, arriving, [], 0;
    }

    function At(k: nat): Event { if k < |script| then script[k] else Fails }

    /** One of the calls `from..to` fails. */
    predicate Failed(from: nat, to: nat) { exists k :: from <= k < to && At(k).Fails? }

    /** The next `n` calls from `from` on all get something done. */
    predicate Lively(from: nat, n: nat) { forall k :: from <= k < from + n ==> At(k).Moves? && At(k).n >= 1 }

    lemma FailedWithin(from: nat, a: nat, b: nat, to: nat)
      requires from <= a && b <= to
      ensures Failed(a, b) ==> Failed(from, to)
    {
    }

    lemma LivelyWithin(from: nat, n: nat, a: nat, m: nat)
      requires Lively(from, n) && from <= a && a + m <= from + n
      ensures Lively(a, m) && !Failed(a, a + m)
    {
    }

    lemma NothingFails(k: nat)
      ensures !Failed(k, k)
    {
    }

    lemma FailedSplit(a: nat, b: nat, c: nat)
      requires a <= b <= c
      ensures Failed(a, c) <==> Failed(a, b) || Failed(b, c)
    {
    }

    lemma TwoCalls(k: nat)
      ensures Failed(k, k + 1) <==> At(k).Fails?
      ensures Failed(k, k + 2) <==> At(k).Fails? || At(k + 1).Fails?
      ensures Lively(k, 2) ==> At(k).Moves? && At(k + 1).Moves? && At(k + 1).n >= 1
      ensures At(k + 1).Moves? ==> k + 2 <= |script|
    {
    }

    method Next() returns (e: Event)
      modifies this`calls
      ensures calls == old(calls) + 1 && e == At(old(calls))
    {
      e := At(calls);
      calls := calls + 1;
    }

    /** One asynchronous write: some prefix of `bs` goes out. */
    method WriteSome(bs: Bytes) returns (r: Result<nat, Error>)
      modifies this`calls, this`sent
      ensures calls == old(calls) + 1
      ensures r == match At(old(calls)) case Fails => Err(Transfer) case Moves(n) => Ok(Min(n, |bs|))
      ensures sent == old(sent) + (if r.Ok? then bs[..r.value] else [])
    {
      var e := Next();
      if e.Fails? {
        return Err(Transfer);
      }
      sent := sent + bs[..Min(e.n, |bs|)];
      r := Ok(Min(e.n, |bs|));
    }

    /** `cvk_asio::send`. It fails exactly if it refuses the buffer or a call fails, and then has not
        sent all of it. */
    method Send(bs: Bytes) returns (r: Result<Unit, Error>)
      modifies this`calls, this`sent
      ensures calls >= old(calls)
      ensures old(sent) <= sent <= old(sent) + bs
      ensures |bs| == 0 || |bs| > UINT32_MAX ==> r == Err(MessageSize) && calls == old(calls) && sent == old(sent)
      ensures 0 < |bs| <= UINT32_MAX ==> (r.Err? <==> Failed(old(calls), calls))
      ensures 0 < |bs| <= UINT32_MAX ==> (r.Ok? <==> sent == old(sent) + bs)
      ensures 0 < |bs| <= UINT32_MAX && Lively(old(calls), 1 + |bs|) ==> r.Ok? && calls <= old(calls) + 1 + |bs|
    {
      if |bs| == 0 || |bs| > UINT32_MAX {
        return Err(MessageSize);
      }
      var open := Next();   // reliable_is_open
      if open.Fails? {
        return Err(ConnectionReset);
      }
      var offset := 0;
      ghost var live := Lively(old(calls), 1 + |bs|);
      while offset != |bs|
        invariant 0 <= offset <= |bs| && sent == old(sent) + bs[..offset]
        invariant old(calls) < calls <= |script| && !Failed(old(calls), calls)
        invariant live ==> calls <= old(calls) + 1 + offset
        decreases |script| - calls
      {
        var res := WriteSome(bs[offset..]);
        if res.Err? {
          assert At(calls - 1).Fails?;
          return Err(res.error);
        }
        assert bs[..offset] + bs[offset..][..res.value] == bs[..offset + res.value];
        offset := offset + res.value;
      }
      r := Ok(Unit);
    }

    /** One asynchronous read: up to `room` bytes of what has arrived come into `out[from..]`. */
    method ReadOnce(out: array<Byte>, from: nat, room: nat) returns (r: Result<nat, Error>)
      requires from + room <= out.Length
      modifies this`calls, this`arriving, out
      ensures calls == old(calls) + 1
      ensures r == match At(old(calls)) case Fails => Err(Transfer)
                                        case Moves(n) => Ok(Min(Min(n, room), |old(arriving)|))
      ensures |arriving| <= |old(arriving)| && old(arriving) == Took(old(arriving), arriving) + arriving
      ensures r.Ok? ==> && out[from..from + r.value] == Took(old(arriving), arriving) && out[..from] == old(out[..from])
      ensures r.Err? ==> arriving == old(arriving) && out[..] == old(out[..])
    {
      hide At, Took;
      NothingTaken(arriving);
      var e := Next();
      if e.Fails? {
        return Err(Transfer);
      }
      var n := Min(Min(e.n, room), |arriving|);
      forall i | 0 <= i < n {
        out[from + i] := arriving[i];
      }
      assert out[from..from + n] == arriving[..n] && arriving == arriving[..n] + arriving[n..];
      TookFront(arriving, arriving[..n], arriving[n..]);
      assert out[..from] == old(out[..from]);
      arriving := arriving[n..];
      r := Ok(n);
    }

    /** `read_some_unreliable` into `out[from..]`: at most `amount` bytes, zero meaning all there is
        room for. */
    method ReadSomeUnreliable(out: array<Byte>, from: nat, amount: U32) returns (r: Result<nat, Error>)
      requires from <= out.Length
      modifies this`calls, this`arriving, out
      ensures |arriving| <= |old(arriving)| && old(arriving) == Took(old(arriving), arriving) + arriving
      ensures out.Length - from == 0 || out.Length - from > UINT32_MAX ==> r == Err(MessageSize) && calls == old(calls)
      ensures 0 < out.Length - from <= UINT32_MAX && amount > out.Length - from ==>
                r == Err(InvalidArgument) && calls == old(calls)
      ensures 0 < out.Length - from <= UINT32_MAX && amount <= out.Length - from ==>
                && old(calls) < calls <= old(calls) + 2
                && (r.Err? <==> Failed(old(calls), calls))
                && (r.Ok? ==> && calls == old(calls) + 2
                              && var room := if amount == 0 then out.Length - from else amount;
                                 r.value == Min(Min(At(old(calls) + 1).n, room), |old(arriving)|))
      ensures r.Ok? ==> calls <= |script|
      ensures 0 < out.Length - from <= UINT32_MAX && amount <= out.Length - from
              && Lively(old(calls), 2) && old(arriving) != [] ==>
                r.Ok? && r.value >= 1
      ensures r.Ok? ==> && from + r.value <= out.Length && out[from..from + r.value] == Took(old(arriving), arriving)
                        && out[..from] == old(out[..from])
      ensures r.Err? ==> arriving == old(arriving) && out[..] == old(out[..])
    {
      hide Failed, Lively, At, Took;
      NothingTaken(arriving);
      if out.Length - from == 0 || out.Length - from > UINT32_MAX {
        return Err(MessageSize);
      }
      if amount > out.Length - from {
        return Err(InvalidArgument);
      }
      TwoCalls(calls);
      var open := Next();
      if open.Fails? {
        return Err(ConnectionReset);
      }
      var room := if amount == 0 then out.Length - from else amount;
      r := ReadOnce(out, from, room);
    }

    /** `read_some`: exactly the bytes asked for into the front of `out`, never a byte more. It fails
        exactly if it refuses its arguments or a call fails, and then has taken fewer. */
    method ReadSome(out: array<Byte>, amount: U32) returns (r: Result<Unit, Error>)
      modifies this`calls, this`arriving, out
      ensures calls >= old(calls)
      ensures |arriving| <= |old(arriving)| && old(arriving) == Took(old(arriving), arriving) + arriving
      ensures Refuses(out.Length, amount) ==> r.Err? && calls == old(calls)
      ensures !Refuses(out.Length, amount) ==> (r.Err? <==> Failed(old(calls), calls))
      ensures r.Ok? ==> Wanted(out.Length, amount) <= out.Length
                        && Took(old(arriving), arriving) == out[..Wanted(out.Length, amount)]
      ensures r.Err? ==> |old(arriving)| - |arriving| < Wanted(out.Length, amount)
      ensures !Refuses(out.Length, amount) && |old(arriving)| >= Wanted(out.Length, amount)
              && Lively(old(calls), 2 * Wanted(out.Length, amount)) ==>
                r.Ok? && calls <= old(calls) + 2 * Wanted(out.Length, amount)
      ensures r.Ok? && Wanted(out.Length, amount) > 0 ==> old(calls) < calls <= |script|
    {
      hide Took, Failed, Lively, At, Wanted, Refuses;
      RefusesMeans(out.Length, amount);
      var wasRead := 0;
      if amount > out.Length && amount != 0 {
        NothingTaken(arriving);
        return Err(NoBufferSpace);
      }
      var needRead := Wanted(out.Length, amount);
      ghost var c0, calls0 := arriving, calls;
      ghost var live := |c0| >= needRead && Lively(calls0, 2 * needRead);
      NothingFails(calls0);
      while wasRead != needRead
        invariant 0 <= wasRead <= needRead <= out.Length
        invariant |arriving| <= |c0| && c0 == out[..wasRead] + arriving
        invariant calls >= calls0 && !Failed(calls0, calls)
        invariant calls > calls0 ==> out.Length <= UINT32_MAX && calls <= |script|
        invariant calls == calls0 ==> wasRead == 0
        invariant live ==> calls <= calls0 + 2 * wasRead
        decreases if calls <= |script| then |script| - calls else 0
      {
        ghost var c, k, got := arriving, calls, out[..wasRead];
        if live { LivelyWithin(calls0, 2 * needRead, k, 2); }
        var exp := ReadSomeUnreliable(out, wasRead, needRead - wasRead);
        if exp.Err? {
          FailedWithin(calls0, k, calls, calls);
          if live { FailedWithin(k, k, calls, k + 2); }
          TookFront(c0, got, c);
          return Err(exp.error);
        }
        FailedSplit(calls0, k, calls);
        FrontGrows(c0, got, c, out[wasRead..wasRead + exp.value], arriving);
        assert out[..wasRead + exp.value] == got + out[wasRead..wasRead + exp.value];
        wasRead := wasRead + exp.value;
      }
      TookFront(c0, out[..wasRead], arriving);
      r := Ok(Unit);
    }
  }

  lemma NothingTaken(c: Bytes)
    ensures Took(c, c) == [] && c == Took(c, c) + c
  {
  }

  lemma TookFront(c: Bytes, front: Bytes, rest: Bytes)
    requires c == front + rest
    ensures Took(c, rest) == front
  {
  }

  lemma FrontGrows(c: Bytes, front: Bytes, rest: Bytes, more: Bytes, rest': Bytes)
    requires c == front + rest && |rest'| <= |rest| && rest == Took(rest, rest') + rest' && Took(rest, rest') == more
    ensures c == front + more + rest'
  {
  }

  // ----------------------------------------------------------------------------------------
  // The loops at the two ends
  // ----------------------------------------------------------------------------------------

  /** The packets among the results of TUN reads; an empty result is a timeout. */
  function PacketsOf(polls: seq<Bytes>): (ps: seq<Packet>)
    requires forall i :: 0 <= i < |polls| ==> |polls[i]| <= MAX_PACKET
    ensures ArePackets(ps)
  {
    if polls == [] then []
    else
      var init, p := PacketsOf(polls[..|polls| - 1]), polls[|polls| - 1];
      if p == [] then init else init + [p]
  }

  predicate AreReads(polls: seq<Bytes>) { forall i :: 0 <= i < |polls| ==> |polls[i]| <= MAX_PACKET }

  lemma PacketsOfLast(polls: seq<Bytes>, p: Bytes)
    requires AreReads(polls) && |p| <= MAX_PACKET
    ensures AreReads(polls + [p]) && PacketsOf(polls + [p]) == PacketsOf(polls) + (if p == [] then [] else [p])
  {
    assert (polls + [p])[..|polls|] == polls;
  }

  /** The packets are the results of the TUN reads in their order, without the empty ones. */
  lemma {:induction false} PacketsOfConcat(xs: seq<Bytes>, ys: seq<Bytes>)
    requires AreReads(xs) && AreReads(ys)
    ensures AreReads(xs + ys) && PacketsOf(xs + ys) == PacketsOf(xs) + PacketsOf(ys)
  {
    if ys == [] {
      assert xs + ys == xs;
    } else {
      var init, p := ys[..|ys| - 1], ys[|ys| - 1];
      PacketsOfConcat(xs, init);
      hide PacketsOf;
      PacketsOfLast(xs + init, p);
      PacketsOfLast(init, p);
      assert ys == init + [p] && xs + ys == xs + init + [p];
    }
  }

  lemma PacketsOfOne(p: Bytes)
    requires |p| <= MAX_PACKET
    ensures PacketsOf([p]) == if p == [] then [] else [p]
  {
    assert [p][..0] == [];
  }

  /** Keystream bytes used by the first `k` polls. */
  function Used(polls: seq<Bytes>, k: nat): nat
    requires k <= |polls|
  {
    if k == 0 then 0 else Used(polls, k - 1) + (if polls[k - 1] == [] then 0 else HEADER + |polls[k - 1]|)
  }

  /** What has been sent once the first `k` polls have been handled, one frame a packet. */
  function Wire(ks: Keystream, pos: nat, polls: seq<Bytes>, k: nat): Bytes
    requires k <= |polls| && forall i :: 0 <= i < |polls| ==> |polls[i]| <= MAX_PACKET
  {
    if k == 0 then []
    else if polls[k - 1] == [] then Wire(ks, pos, polls, k - 1)
    else Wire(ks, pos, polls, k - 1) + Xor(ks, pos + Used(polls, k - 1), Frame(polls[k - 1]))
  }

  lemma {:induction false} WireGrows(ks: Keystream, pos: nat, polls: seq<Bytes>, k: nat, n: nat)
    requires k <= n <= |polls| && forall i :: 0 <= i < |polls| ==> |polls[i]| <= MAX_PACKET
    ensures Wire(ks, pos, polls, k) <= Wire(ks, pos, polls, n)
  {
    if k < n {
      WireGrows(ks, pos, polls, k, n - 1);
    }
  }

  lemma WireOfNothing(ks: Keystream, pos: nat, polls: seq<Bytes>)
    requires forall i :: 0 <= i < |polls| ==> |polls[i]| <= MAX_PACKET
    ensures Wire(ks, pos, polls, 0) == [] && Used(polls, 0) == 0
  {
  }

  lemma WireNext(ks: Keystream, pos: nat, polls: seq<Bytes>, k: nat)
    requires k < |polls| && forall i :: 0 <= i < |polls| ==> |polls[i]| <= MAX_PACKET
    ensures var p, w, u := polls[k], Wire(ks, pos, polls, k), Used(polls, k);
            if p == [] then Wire(ks, pos, polls, k + 1) == w && Used(polls, k + 1) == u
            else Wire(ks, pos, polls, k + 1) == w + Xor(ks, pos + u, Frame(p)) && Used(polls, k + 1) == u + |Frame(p)|
  {
  }

  lemma SentSoFar(s0: Bytes, w: Bytes, x: Bytes, all: Bytes, sent: Bytes)
    requires w + x <= all && s0 + w <= sent <= s0 + w + x
    ensures s0 <= sent <= s0 + all && s0 + w + x == s0 + (w + x)
  {
    assert s0 + w + x == s0 + (w + x);
    assert sent == (s0 + all)[..|sent|];
  }

  /** The frames sent one by one are the stream of the packets. */
  lemma {:induction false} WireIsStream(ks: Keystream, pos: nat, polls: seq<Bytes>, k: nat)
    requires k <= |polls| && forall i :: 0 <= i < |polls| ==> |polls[i]| <= MAX_PACKET
    ensures Wire(ks, pos, polls, k) == Stream(ks, pos, PacketsOf(polls[..k]))
    ensures Used(polls, k) == |Framed(PacketsOf(polls[..k]))|
  {
    hide Frame, Xor, Stream, Framed;
    if k == 0 {
      StreamOfNothing(ks, pos);
    } else {
      hide PacketsOf;
      WireIsStream(ks, pos, polls, k - 1);
      StreamGrows(ks, pos, polls, k);
      if polls[k - 1] == [] {
        assert Wire(ks, pos, polls, k) == Wire(ks, pos, polls, k - 1);
      }
    }
  }

  lemma StreamOfNothing(ks: Keystream, pos: nat)
    ensures Stream(ks, pos, []) == [] && Framed([]) == []
  {
  }

  lemma PacketsGrow(polls: seq<Bytes>, k: nat)
    requires 0 < k <= |polls| && forall i :: 0 <= i < |polls| ==> |polls[i]| <= MAX_PACKET
    ensures var ps, p := PacketsOf(polls[..k - 1]), polls[k - 1];
            PacketsOf(polls[..k]) == if p == [] then ps else ps + [p]
  {
    assert polls[..k][..k - 1] == polls[..k - 1];
  }

  lemma StreamGrows(ks: Keystream, pos: nat, polls: seq<Bytes>, k: nat)
    requires 0 < k <= |polls| && forall i :: 0 <= i < |polls| ==> |polls[i]| <= MAX_PACKET
    ensures var ps, qs, p := PacketsOf(polls[..k - 1]), PacketsOf(polls[..k]), polls[k - 1];
            if p == [] then qs == ps
            else Stream(ks, pos, qs) == Stream(ks, pos, ps) + Xor(ks, pos + |Framed(ps)|, Frame(p))
                 && |Framed(qs)| == |Framed(ps)| + HEADER + |p|
  {
    hide PacketsOf, Frame, Stream, Xor, Framed;
    PacketsGrow(polls, k);
    var ps, p := PacketsOf(polls[..k - 1]), polls[k - 1];
    if p != [] { StreamAppend(ks, pos, ps, p); }
  }

  /** Frames one packet in place in `raw` and sends its encryption, made in one call. */
  method SendPacket(aes: AesSession, socket: Socket, p: Packet, raw: array<Byte>, crypt: array<Byte>)
    returns (r: Result<Unit, Error>)
    requires IsPacket(p) && raw != crypt && raw.Length == crypt.Length == HEADER + MAX_PACKET
    modifies aes`encrypted, socket`calls, socket`sent, raw, crypt
    ensures aes.encrypted == old(aes.encrypted) + |Frame(p)| && socket.calls >= old(socket.calls)
    ensures old(socket.sent) <= socket.sent <= old(socket.sent) + Xor(aes.encrypting, old(aes.encrypted), Frame(p))
    ensures r.Ok? <==> socket.sent == old(socket.sent) + Xor(aes.encrypting, old(aes.encrypted), Frame(p))
    ensures r.Err? <==> socket.Failed(old(socket.calls), socket.calls)
    ensures socket.Lively(old(socket.calls), 1 + |Frame(p)|) ==>
              r.Ok? && socket.calls <= old(socket.calls) + 1 + |Frame(p)|
  {
    forall i | 0 <= i < |p| {
      raw[HEADER + i] := p[i];   // the TUN read
    }
    var header := Encode32(|p|);
    forall i | 0 <= i < HEADER {
      raw[i] := header[i];
    }
    assert raw[..|p| + HEADER] == Frame(p);
    var ok := aes.Encrypt(raw[..|p| + HEADER], crypt);
    assert crypt[..|p| + HEADER] == crypt[..][..|p| + HEADER] == Xor(aes.encrypting, old(aes.encrypted), Frame(p));
    r := socket.Send(crypt[..|p| + HEADER]);
  }

  /** The client's TUN-to-socket loop, for any results of the TUN reads. It ends early exactly if a
      call fails, and then has not sent everything. */
  method StartTunRead(aes: AesSession, socket: Socket, polls: seq<Bytes>) returns (r: Result<Unit, Error>)
    requires forall i :: 0 <= i < |polls| ==> |polls[i]| <= MAX_PACKET
    modifies aes`encrypted, socket`calls, socket`sent
    ensures socket.calls >= old(socket.calls)
    ensures var all := Wire(aes.encrypting, old(aes.encrypted), polls, |polls|);
            && old(socket.sent) <= socket.sent <= old(socket.sent) + all
            && (r.Ok? <==> socket.sent == old(socket.sent) + all)
            && (socket.Lively(old(socket.calls), 2 * |all|) ==> r.Ok? && socket.calls <= old(socket.calls) + 2 * |all|)
    ensures r.Err? <==> socket.Failed(old(socket.calls), socket.calls)
  {
    hide Frame, Xor, Wire, Used, Socket.Lively, Socket.Failed, Socket.At;
    WireOfNothing(aes.encrypting, aes.encrypted, polls);
    var raw, crypt := new Byte[HEADER + MAX_PACKET], new Byte[HEADER + MAX_PACKET];
    ghost var ks, pos, sent0, calls0 := aes.encrypting, aes.encrypted, socket.sent, socket.calls;
    ghost var all := Wire(ks, pos, polls, |polls|);
    ghost var live := socket.Lively(calls0, 2 * |all|);
    socket.NothingFails(calls0);
    for i := 0 to |polls|
      invariant aes.encrypted == pos + Used(polls, i)
      invariant socket.sent == sent0 + Wire(ks, pos, polls, i)
      invariant socket.calls >= calls0 && !socket.Failed(calls0, socket.calls)
      invariant live ==> socket.calls <= calls0 + 2 * |Wire(ks, pos, polls, i)|
    {
      var p := polls[i];
      WireNext(ks, pos, polls, i);
      if p == [] {
        continue;
      }
      ghost var w, x, c := Wire(ks, pos, polls, i), Xor(ks, aes.encrypted, Frame(p)), socket.calls;
      WireGrows(ks, pos, polls, i + 1, |polls|);
      if live { socket.LivelyWithin(calls0, 2 * |all|, c, 1 + |Frame(p)|); }
      r := SendPacket(aes, socket, p, raw, crypt);
      socket.FailedSplit(calls0, c, socket.calls);
      SentSoFar(sent0, w, x, all, socket.sent);
      if r.Err? {
        return;
      }
    }
    r := Ok(Unit);
  }

  lemma WantedHere(n: nat)
    requires n <= MAX_PACKET
    ensures n <= Wanted(MAX_PACKET, n) == Fetched(n) <= MAX_PACKET && 0 < Fetched(n) && !Refuses(MAX_PACKET, n)
    ensures Wanted(HEADER, 0) == HEADER && !Refuses(HEADER, 0)
  {
  }

  /** Reads and decrypts a header. It fails exactly if a call fails, with less than a header taken. */
  method ReceiveHeader(aes: AesSession, socket: Socket, headerCrypt: array<Byte>, header: array<Byte>)
    returns (n: Option<nat>)
    requires headerCrypt.Length == header.Length == HEADER && headerCrypt != header
    modifies aes`decrypted, socket`calls, socket`arriving, headerCrypt, header
    ensures socket.calls >= old(socket.calls) && |socket.arriving| <= |old(socket.arriving)|
    ensures old(socket.arriving) == Took(old(socket.arriving), socket.arriving) + socket.arriving
    ensures n.None? <==> socket.Failed(old(socket.calls), socket.calls)
    ensures n.None? ==> |Took(old(socket.arriving), socket.arriving)| < HEADER && aes.decrypted == old(aes.decrypted)
    ensures n.Some? ==> && |Took(old(socket.arriving), socket.arriving)| == HEADER
                        && n.value == Decode32(Xor(aes.decrypting, old(aes.decrypted),
                                                   Took(old(socket.arriving), socket.arriving)))
                        && aes.decrypted == old(aes.decrypted) + HEADER
                        && old(socket.calls) < socket.calls <= |socket.script|
    ensures |old(socket.arriving)| >= HEADER && socket.Lively(old(socket.calls), 2 * HEADER) ==>
              n.Some? && socket.calls <= old(socket.calls) + 2 * HEADER
  {
    hide Wanted, Refuses, Took, Xor, Socket.Lively, Socket.Failed;
    WantedHere(0);
    var res := socket.ReadSome(headerCrypt, 0);
    if res.Err? {
      return None;
    }
    assert Took(old(socket.arriving), socket.arriving) == headerCrypt[..];
    var ok := aes.Decrypt(headerCrypt[..], header);
    assert header[..] == Xor(aes.decrypting, old(aes.decrypted), headerCrypt[..]);
    n := Some(Decode32(header[..]));
  }

  /** Reads and decrypts the payload of a frame of `n` bytes. It fails exactly if a call fails. */
  method ReceiveBody(aes: AesSession, socket: Socket, n: nat, bufferCrypt: array<Byte>, bufferRaw: array<Byte>)
    returns (p: Option<Packet>)
    requires n <= MAX_PACKET
    requires bufferCrypt.Length == bufferRaw.Length == MAX_PACKET && bufferCrypt != bufferRaw
    modifies aes`decrypted, socket`calls, socket`arriving, bufferCrypt, bufferRaw
    ensures socket.calls >= old(socket.calls) && |socket.arriving| <= |old(socket.arriving)|
    ensures old(socket.arriving) == Took(old(socket.arriving), socket.arriving) + socket.arriving
    ensures p.None? <==> socket.Failed(old(socket.calls), socket.calls)
    ensures p.None? ==> |Took(old(socket.arriving), socket.arriving)| < Fetched(n)
    ensures p.Some? ==> && |Took(old(socket.arriving), socket.arriving)| == Fetched(n)
                        && p.value == Xor(aes.decrypting, old(aes.decrypted),
                                          Took(old(socket.arriving), socket.arriving)[..n])
                        && aes.decrypted == old(aes.decrypted) + n
                        && old(socket.calls) < socket.calls <= |socket.script|
    ensures |old(socket.arriving)| >= Fetched(n) && socket.Lively(old(socket.calls), 2 * Fetched(n)) ==>
              p.Some? && socket.calls <= old(socket.calls) + 2 * Fetched(n)
  {
    hide Wanted, Refuses, Took, Xor, Fetched, Socket.Lively, Socket.Failed;
    WantedHere(n);
    var res := socket.ReadSome(bufferCrypt, n);
    if res.Err? {
      return None;
    }
    assert Took(old(socket.arriving), socket.arriving)[..n] == bufferCrypt[..n];
    var ok := aes.Decrypt(bufferCrypt[..n], bufferRaw);
    assert bufferRaw[..n] == bufferRaw[..][..n] == Xor(aes.decrypting, old(aes.decrypted), bufferCrypt[..n]);
    p := Some(bufferRaw[..n]);
  }

  /** What was taken, `took`, ends in a header that announces more than the buffer holds; `at` is the
      keystream position behind it. */
  predicate Refused(ks: Keystream, at: nat, took: Bytes) {
    at >= HEADER && |took| >= HEADER && Decode32(Xor(ks, at - HEADER, took[|took| - HEADER..])) > MAX_PACKET
  }

  lemma TookTwice(c: Bytes, d: Bytes, e: Bytes)
    requires |e| <= |d| <= |c| && c == Took(c, d) + d && d == Took(d, e) + e
    ensures Took(c, e) == Took(c, d) + Took(d, e) && c == Took(c, e) + e
  {
    assert c == Took(c, d) + Took(d, e) + e;
  }

  lemma NothingEnds(ks: Keystream, pos: nat)
    ensures Ends(ks, pos, [])
  {
  }

  lemma HeaderEnds(ks: Keystream, pos: nat, u: Bytes)
    requires |u| < HEADER || (|u| == HEADER && Decode32(Xor(ks, pos, u)) > MAX_PACKET)
    ensures Ends(ks, pos, u)
  {
    assert |u| == HEADER ==> u[..HEADER] == u;
  }

  lemma BodyDecides(ks: Keystream, pos: nat, h: Bytes, b: Bytes, n: nat)
    requires |h| == HEADER && n == Decode32(Xor(ks, pos, h)) <= MAX_PACKET
    ensures |b| < Fetched(n) ==> Ends(ks, pos, h + b)
    ensures |b| == Fetched(n) ==> Takes(ks, pos, h + b, Xor(ks, pos + HEADER, b[..n]), pos + HEADER + n, [])
  {
    var u := h + b;
    assert u[..HEADER] == h;
    assert |b| >= n ==> u[HEADER..HEADER + n] == b[..n];
  }

  /** A whole frame at the front has room for what its header announces. */
  lemma WholeFrame(ks: Keystream, pos: nat, c: Bytes, h: Bytes, rest: Bytes)
    requires !Ends(ks, pos, c) && c == h + rest && |h| == HEADER
    ensures Decode32(Xor(ks, pos, h)) <= MAX_PACKET && |rest| >= Fetched(Decode32(Xor(ks, pos, h)))
  {
    assert c[..HEADER] == h;
  }

  /** Fetches one frame: the header, then the payload, each decrypted when it has been read. What it
      takes off the socket is just the frame. It fails only if a call fails or the header is refused. */
  method ReceivePacket(aes: AesSession, socket: Socket, headerCrypt: array<Byte>, header: array<Byte>,
                       bufferCrypt: array<Byte>, bufferRaw: array<Byte>)
    returns (p: Option<Packet>)
    requires headerCrypt.Length == header.Length == HEADER && headerCrypt != header
    requires bufferCrypt.Length == bufferRaw.Length == MAX_PACKET && bufferCrypt != bufferRaw
    requires headerCrypt !in {bufferCrypt, bufferRaw} && header !in {bufferCrypt, bufferRaw}
    modifies aes`decrypted, socket`calls, socket`arriving, headerCrypt, header, bufferCrypt, bufferRaw
    ensures socket.calls >= old(socket.calls) && |socket.arriving| <= |old(socket.arriving)|
    ensures old(socket.arriving) == Took(old(socket.arriving), socket.arriving) + socket.arriving
    ensures var took := Took(old(socket.arriving), socket.arriving);
            && (p.Some? ==> && Takes(aes.decrypting, old(aes.decrypted), took, p.value, aes.decrypted, [])
                            && old(socket.calls) < socket.calls <= |socket.script|)
            && (p.None? ==> && Ends(aes.decrypting, old(aes.decrypted), took)
                            && (|| socket.Failed(old(socket.calls), socket.calls)
                                || Refused(aes.decrypting, aes.decrypted, took)))
    ensures socket.Lively(old(socket.calls), 2 * |old(socket.arriving)|) ==>
              && (!Ends(aes.decrypting, old(aes.decrypted), old(socket.arriving)) ==> p.Some?)
              && (p.Some? ==> socket.calls <= old(socket.calls) + 2 * (|old(socket.arriving)| - |socket.arriving|))
  {
    hide Xor, Decode32, Ends, Takes, Fetched, Took;
    ghost var ks, pos, c, calls0 := aes.decrypting, aes.decrypted, socket.arriving, socket.calls;
    if |c| < HEADER { HeaderEnds(ks, pos, c); }
    var n := ReceiveHeader(aes, socket, headerCrypt, header);
    ghost var d, calls1 := socket.arriving, socket.calls;
    if n.None? || n.value > MAX_PACKET {
      HeaderEnds(ks, pos, Took(c, d));
      if !Ends(ks, pos, c) && n.Some? { WholeFrame(ks, pos, c, Took(c, d), d); }
      return None;
    }
    p := ReceiveBody(aes, socket, n.value, bufferCrypt, bufferRaw);
    ghost var e := socket.arriving;
    TookTwice(c, d, e);
    BodyDecides(ks, pos, Took(c, d), Took(d, e), n.value);
    if !Ends(ks, pos, c) { WholeFrame(ks, pos, c, Took(c, d), d); }
  }

  /** Of what had arrived, `c0`, the receive loop has `c` still to take, has delivered `ps` and stands
      at keystream position `pos`. */
  ghost predicate Underway(ks: Keystream, start: nat, c0: Bytes, c: Bytes, ps: seq<Packet>, pos: nat) {
    |c| <= |c0| && c0 == Took(c0, c) + c && HasDelivered(ks, start, Took(c0, c), ps, pos)
  }

  lemma LoopBegins(ks: Keystream, start: nat, c0: Bytes)
    ensures Underway(ks, start, c0, c0, [], start)
  {
    NothingTaken(c0);
    NothingDelivered(ks, start);
  }

  lemma LoopGoesOn(ks: Keystream, start: nat, c0: Bytes, c: Bytes, d: Bytes, ps: seq<Packet>, pos: nat, p: Packet,
                   pos': nat)
    requires Underway(ks, start, c0, c, ps, pos)
    requires |d| <= |c| && c == Took(c, d) + d && Takes(ks, pos, Took(c, d), p, pos', [])
    ensures Underway(ks, start, c0, d, ps + [p], pos') && |d| < |c|
  {
    hide Took, Takes, HasDelivered;
    TookTwice(c0, c, d);
    DeliversOne(ks, start, Took(c0, c), ps, pos, Took(c, d), p, pos');
  }

  /** When the last try of the receive loop took `Took(c, d)` in vain, it has delivered what there was. */
  lemma LoopEnds(ks: Keystream, start: nat, c0: Bytes, c: Bytes, d: Bytes, ps: seq<Packet>, pos: nat)
    requires Underway(ks, start, c0, c, ps, pos)
    requires |d| <= |c| && c == Took(c, d) + d && Ends(ks, pos, Took(c, d))
    ensures |d| <= |c0| && c0 == Took(c0, d) + d && Receive(ks, start, Took(c0, d)) == ps <= Receive(ks, start, c0)
    ensures Ends(ks, pos, c) ==> Receive(ks, start, c0) == ps
    ensures forall at :: Refused(ks, at, Took(c, d)) ==> Refused(ks, at, Took(c0, d))
  {
    hide Took, Ends, HasDelivered;
    TookTwice(c0, c, d);
    DeliversNoMore(ks, start, Took(c0, c), ps, pos, Took(c, d));
    DeliversAtLeast(ks, start, Took(c0, c), ps, pos, c);
    if Ends(ks, pos, c) { DeliversNoMore(ks, start, Took(c0, c), ps, pos, c); }
    RefusedLater(ks, Took(c0, c), Took(c, d));
  }

  lemma RefusedLater(ks: Keystream, took: Bytes, u: Bytes)
    ensures forall at :: Refused(ks, at, u) ==> Refused(ks, at, took + u)
  {
    assert |u| >= HEADER ==> (took + u)[|took + u| - HEADER..] == u[|u| - HEADER..];
  }

  datatype Wait = Ready | Again | Dead

  /** Waits until there is something to read. `Again` if someone else used the socket in between. */
  method WaitForData(socket: Socket) returns (wait: Wait)
    modifies socket`calls
    ensures socket.calls > old(socket.calls)
    ensures wait == Dead ==> socket.Failed(old(socket.calls), socket.calls)
    ensures wait == Again ==> socket.arriving == [] && socket.calls <= |socket.script|
    ensures socket.arriving != [] ==> socket.calls == old(socket.calls) + 1
    ensures socket.arriving != [] && socket.Lively(old(socket.calls), 1) ==> wait == Ready
  {
    var ready := socket.Next();   // wait_read
    if ready.Fails? {
      return Dead;
    }
    if |socket.arriving| == 0 {
      var active := socket.Next();
      if active.Moves? {
        return Again;
      }
    }
    wait := Ready;
  }

  /** The receive loop of the server (`performDataExchange`) and of the client (`startSocketRead`),
      run until the connection fails or a header is refused. `delivered` is what has been written
      to the TUN device: exactly the packets in what has been taken off the socket, and every packet
      that has arrived if enough calls get something done. */
  method ReceiveLoop(aes: AesSession, socket: Socket) returns (delivered: seq<Packet>)
    modifies aes`decrypted, socket`calls, socket`arriving
    ensures socket.calls >= old(socket.calls) && |socket.arriving| <= |old(socket.arriving)|
    ensures old(socket.arriving) == Took(old(socket.arriving), socket.arriving) + socket.arriving
    ensures delivered == Receive(aes.decrypting, old(aes.decrypted), Took(old(socket.arriving), socket.arriving))
    ensures delivered <= Receive(aes.decrypting, old(aes.decrypted), old(socket.arriving))
    ensures || socket.Failed(old(socket.calls), socket.calls)
            || Refused(aes.decrypting, aes.decrypted, Took(old(socket.arriving), socket.arriving))
    ensures socket.Lively(old(socket.calls), 3 * |old(socket.arriving)|) ==>
              delivered == Receive(aes.decrypting, old(aes.decrypted), old(socket.arriving))
  {
    hide Xor, Decode32, Ends, Takes, Underway, Receive, Took, Refused, Socket.Lively, Socket.Failed, Socket.At;
    var headerCrypt, header := new Byte[HEADER], new Byte[HEADER];
    var bufferCrypt, bufferRaw := new Byte[MAX_PACKET], new Byte[MAX_PACKET];
    ghost var ks, start, c0, calls0 := aes.decrypting, aes.decrypted, socket.arriving, socket.calls;
    ghost var live := socket.Lively(calls0, 3 * |c0|);
    ghost var pos, c := start, c0;
    delivered := [];
    LoopBegins(ks, start, c0);
    while true
      invariant Underway(ks, start, c0, socket.arriving, delivered, aes.decrypted)
      invariant socket.calls >= calls0
      invariant live && socket.arriving != [] ==> socket.calls + 3 * |socket.arriving| <= calls0 + 3 * |c0|
      decreases if socket.calls <= |socket.script| then |socket.script| - socket.calls else 0
    {
      pos, c := aes.decrypted, socket.arriving;
      ghost var k := socket.calls;
      NothingEnds(ks, pos);
      if live && c != [] {
        socket.LivelyWithin(calls0, 3 * |c0|, k, 1);
        socket.LivelyWithin(calls0, 3 * |c0|, k + 1, 2 * |c|);
      }
      var wait := WaitForData(socket);
      socket.FailedWithin(calls0, k, socket.calls, socket.calls);
      if wait == Dead {
        NothingTaken(c);
        break;
      }
      if wait == Again {
        continue;
      }
      k := socket.calls;
      var p := ReceivePacket(aes, socket, headerCrypt, header, bufferCrypt, bufferRaw);
      socket.FailedWithin(calls0, k, socket.calls, socket.calls);
      if p.None? {
        break;
      }
      LoopGoesOn(ks, start, c0, c, socket.arriving, delivered, pos, p.value, aes.decrypted);
      delivered := delivered + [p.value];
    }
    LoopEnds(ks, start, c0, c, socket.arriving, delivered, pos);
  }

  /** Client and server together: the client reads packets from its TUN device, the first `arrived`
      bytes of what it sent arrive, and the server writes to its own TUN device exactly the packets
      in the part `took` of them that it has read: a prefix of the client's packets, and all of them
      if and only if the exchange is `complete`, that is everything was sent, arrived and was read.
      It is complete whenever enough calls at both ends get something done. */
  method ClientToServer(prf: Prf, key: array<Byte>, iv1: Bytes, iv2: Bytes, polls: seq<Bytes>,
                        writes: seq<Event>, arrived: nat, fetches: seq<Event>)
    returns (delivered: seq<Packet>, complete: bool, ghost up: Socket, ghost down: Socket, ghost took: Bytes)
    requires key.Length == KEY_SIZE && |iv1| == IV_SIZE && |iv2| == IV_SIZE
    requires forall i :: 0 <= i < |polls| ==> |polls[i]| <= MAX_PACKET
    modifies key
    ensures fresh(up) && fresh(down) && up.script == writes && down.script == fetches
    ensures var ks := prf(Salted(old(key[..])), iv1);
            var all := Stream(ks, 0, PacketsOf(polls));
            && up.sent <= all && (up.sent == all <==> !up.Failed(0, up.calls))
            && took <= up.sent && |took| + |down.arriving| == Min(arrived, |up.sent|)
            && delivered == Receive(ks, 0, took) <= PacketsOf(polls)
            && (complete <==> up.sent == all && arrived >= |all| && down.arriving == [])
            && (complete <==> delivered == PacketsOf(polls))
            && (up.Lively(0, 2 * |all|) ==> up.sent == all)
            && (down.Lively(0, 3 * Min(arrived, |up.sent|)) ==>
                  delivered == Receive(ks, 0, up.sent[..Min(arrived, |up.sent|)]))
            && (up.Lively(0, 2 * |all|) && arrived >= |all| && down.Lively(0, 3 * |all|) ==> complete)
  {
    hide Xor, Frame, Wire, Receive, Socket.Failed, Socket.Lively, Stream, Took, Refused;
    var client, server := Handshake(prf, key, iv1, iv2);
    ghost var ks, ps := client.encrypting, PacketsOf(polls);
    ghost var all := Stream(ks, 0, ps);
    assert polls[..|polls|] == polls;
    WireIsStream(ks, 0, polls, |polls|);
    var out := new Socket(writes, []);
    var r := StartTunRead(client, out, polls);
    var n := Min(arrived, |out.sent|);
    var back := new Socket(fetches, out.sent[..n]);
    delivered := ReceiveLoop(server, back);
    complete := r.Ok? && n == |out.sent| && |back.arriving| == 0;
    up, down, took := out, back, Took(out.sent[..n], back.arriving);
    AllTakenIff(all, out.sent, n, took, back.arriving);
    AllDeliveredIff(ks, 0, ps, took);
    if n == |all| { AllDeliveredIff(ks, 0, ps, out.sent[..n]); }
  }

  lemma AllTakenIff(all: Bytes, sent: Bytes, n: nat, took: Bytes, left: Bytes)
    requires sent <= all && n <= |sent| && sent[..n] == took + left
    ensures took <= sent && took <= all && |took| + |left| == n && sent[..n] <= all
    ensures took == all <==> sent == all && n == |sent| && left == []
    ensures n == |all| ==> sent[..n] == all
  {
    assert took == sent[..n][..|took|] == sent[..|took|];
  }
}
