/** The wire format: a packet is sent as its length in four little-endian bytes followed by its
    bytes, all under the cipher. */
module Frames {
  import opened Cipher

  type Packet = Bytes

  const MAX_PACKET: nat := 1500
  const HEADER: nat := 4
  const UINT32_MAX: nat := 0xFFFF_FFFF

  // ----------------------------------------------------------------------------------------
  // 32-bit little-endian integers
  // ----------------------------------------------------------------------------------------

  function Encode32(n: nat): (r: Bytes)
    requires n <= UINT32_MAX
    ensures |r| == HEADER
  {
    [(n % 0x100) as Byte, (n / 0x100 % 0x100) as Byte, (n / 0x1_0000 % 0x100) as Byte, (n / 0x100_0000) as Byte]
  }

  function Decode32(bs: Bytes): nat
    requires |bs| == HEADER
  {
    bs[0] as nat + 0x100 * bs[1] as nat + 0x1_0000 * bs[2] as nat + 0x100_0000 * bs[3] as nat
  }

  lemma RoundTrip32(n: nat)
    requires n <= UINT32_MAX
    ensures Decode32(Encode32(n)) == n
  {
    assert n / 0x100 / 0x100 == n / 0x1_0000 && n / 0x1_0000 / 0x100 == n / 0x100_0000;
  }

  function Pow256(i: nat): (r: nat)
    ensures r > 0
  {
    if i == 0 then 1 else 0x100 * Pow256(i - 1)
  }

  /** Little-endian: byte `i` is digit `i` of the number to the base 256. */
  lemma Encode32Digits(n: nat, i: nat)
    requires n <= UINT32_MAX && i < HEADER
    ensures Encode32(n)[i] as nat == n / Pow256(i) % 0x100
  {
    assert Pow256(1) == 0x100 && Pow256(2) == 0x1_0000 && Pow256(3) == 0x100_0000;
  }

  /** Four bytes are read as the number they are written for. */
  lemma Decode32Unique(bs: Bytes)
    requires |bs| == HEADER
    ensures Decode32(bs) <= UINT32_MAX && Encode32(Decode32(bs)) == bs
  {
    var a, b, c, d := bs[0] as nat, bs[1] as nat, bs[2] as nat, bs[3] as nat;
    var n := Decode32(bs);
    assert n == a + 0x100 * (b + 0x100 * (c + 0x100 * d));
    assert n / 0x100 == b + 0x100 * (c + 0x100 * d) && n / 0x1_0000 == c + 0x100 * d && n / 0x100_0000 == d;
  }

  // ----------------------------------------------------------------------------------------
  // Frames
  // ----------------------------------------------------------------------------------------

  /** What a TUN read can return: a whole packet of 1 to 1500 bytes. */
  predicate IsPacket(p: Packet) { 1 <= |p| <= MAX_PACKET }

  predicate ArePackets(ps: seq<Packet>) { forall i :: 0 <= i < |ps| ==> IsPacket(ps[i]) }

  /** Packets that fit the receiver's buffer; empty ones fit too. */
  predicate Fit(ps: seq<Packet>) { forall i :: 0 <= i < |ps| ==> |ps[i]| <= MAX_PACKET }

  function Frame(p: Packet): (r: Bytes)
    requires |p| <= UINT32_MAX
    ensures |r| == HEADER + |p|
  {
    Encode32(|p|) + p
  }

  /** The plain byte stream for a sequence of packets. */
  function Framed(ps: seq<Packet>): Bytes
    requires Fit(ps)
  {
    if ps == [] then [] else Framed(ps[..|ps| - 1]) + Frame(ps[|ps| - 1])
  }

  lemma FramedAppend(ps: seq<Packet>, p: Packet)
    requires Fit(ps) && |p| <= MAX_PACKET
    ensures Fit(ps + [p]) && Framed(ps + [p]) == Framed(ps) + Frame(p)
  {
    assert (ps + [p])[..|ps|] == ps;
  }

  lemma {:induction false} FramedPrepend(p: Packet, ps: seq<Packet>)
    requires |p| <= MAX_PACKET && Fit(ps)
    ensures Fit([p] + ps) && Framed([p] + ps) == Frame(p) + Framed(ps)
  {
    hide Frame;
    if ps == [] {
      assert [p] + ps == [p] && [p][..0] == [];
    } else {
      hide Framed;
      FramedLast(ps);
      var init, q := ps[..|ps| - 1], ps[|ps| - 1];
      FramedPrepend(p, init);
      assert [p] + ps == ([p] + init) + [q];
      FramedAppend([p] + init, q);
    }
  }

  lemma FramedLast(ps: seq<Packet>)
    requires Fit(ps) && ps != []
    ensures Framed(ps) == Framed(ps[..|ps| - 1]) + Frame(ps[|ps| - 1])
  {
  }

  /** The cipher text of the frames of `ps`, the first byte at keystream position `pos`. */
  function Stream(ks: Keystream, pos: nat, ps: seq<Packet>): Bytes
    requires Fit(ps)
  {
    Xor(ks, pos, Framed(ps))
  }

  // ----------------------------------------------------------------------------------------
  // The receiver
  // ----------------------------------------------------------------------------------------

  /** How many bytes `read_some` fetches into a buffer of MAX_PACKET bytes when asked for `n`: zero
      means as much as the buffer holds. */
  function Fetched(n: nat): nat { if n == 0 then MAX_PACKET else n }

  /** From `c` on, decrypting from `pos`, the receive loop delivers nothing more: the header or the
      payload is not complete, or the header is refused. */
  predicate Ends(ks: Keystream, pos: nat, c: Bytes) {
    || |c| < HEADER
    || Decode32(Xor(ks, pos, c[..HEADER])) > MAX_PACKET
    || |c| < HEADER + Fetched(Decode32(Xor(ks, pos, c[..HEADER])))
  }

  /** The receive loop takes the packet `p` off `c` and goes on with `c'` at position `pos'`: header
      and payload are fetched and decrypted separately. */
  ghost predicate Takes(ks: Keystream, pos: nat, c: Bytes, p: Packet, pos': nat, c': Bytes) {
    && !Ends(ks, pos, c)
    && var n := Decode32(Xor(ks, pos, c[..HEADER]));
       p == Xor(ks, pos + HEADER, c[HEADER..HEADER + n]) && pos' == pos + HEADER + n && c' == c[HEADER + Fetched(n)..]
  }

  /** The packets that the receive loop delivers from the cipher text `c`. */
  function Receive(ks: Keystream, pos: nat, c: Bytes): seq<Packet>
    decreases |c|
  {
    if Ends(ks, pos, c) then []
    else
      var n := Decode32(Xor(ks, pos, c[..HEADER]));
      [Xor(ks, pos + HEADER, c[HEADER..HEADER + n])] + Receive(ks, pos + HEADER + n, c[HEADER + Fetched(n)..])
  }

  /** Why packets must not be empty: behind an empty frame the receiver waits for a full buffer, and
      once that has come, it throws it away without advancing its keystream. */
  lemma EmptyFrameStalls(ks: Keystream, pos: nat, rest: Bytes)
    ensures |rest| < 1500 ==> Receive(ks, pos, Xor(ks, pos, Frame([])) + rest) == []
    ensures |rest| >= 1500 ==>
              Receive(ks, pos, Xor(ks, pos, Frame([])) + rest) == [[]] + Receive(ks, pos + 4, rest[1500..])
  {
    var c := Xor(ks, pos, Frame([])) + rest;
    EmptyHeader(ks, pos, rest);
    hide Xor, Frame, Decode32;
    if |rest| >= MAX_PACKET {
      assert c[HEADER + MAX_PACKET..] == rest[MAX_PACKET..] && Xor(ks, pos + HEADER, c[HEADER..HEADER]) == [];
      hide Receive;
      TakesIsReceive(ks, pos, c, [], pos + HEADER, rest[MAX_PACKET..]);
    }
  }

  lemma EmptyHeader(ks: Keystream, pos: nat, rest: Bytes)
    ensures var c := Xor(ks, pos, Frame([])) + rest;
            |c| == HEADER + |rest| && c[HEADER..] == rest && Decode32(Xor(ks, pos, c[..HEADER])) == 0
  {
    assert Frame([]) == Encode32(0);
    RoundTrip32(0);
    XorTwice(ks, pos, Encode32(0));
    assert (Xor(ks, pos, Frame([])) + rest)[..HEADER] == Xor(ks, pos, Encode32(0));
  }

  lemma TakesIsReceive(ks: Keystream, pos: nat, c: Bytes, p: Packet, pos': nat, c': Bytes)
    requires Takes(ks, pos, c, p, pos', c')
    ensures Receive(ks, pos, c) == [p] + Receive(ks, pos', c')
  {
    hide Xor, Decode32, Fetched;
  }

  /** A receiver that has consumed `took` has delivered `ps` and stands at position `pos`: whatever
      follows, it goes on from there. */
  ghost predicate HasDelivered(ks: Keystream, start: nat, took: Bytes, ps: seq<Packet>, pos: nat) {
    forall rest :: Receive(ks, start, took + rest) == ps + Receive(ks, pos, rest)
  }

  lemma NothingDelivered(ks: Keystream, start: nat)
    ensures HasDelivered(ks, start, [], [], start)
  {
    forall rest: Bytes ensures Receive(ks, start, [] + rest) == [] + Receive(ks, start, rest) {
      assert [] + rest == rest;
    }
  }

  /** A packet more is delivered when just its frame is consumed. */
  lemma DeliversOne(ks: Keystream, start: nat, took: Bytes, ps: seq<Packet>, pos: nat, u: Bytes, p: Packet, pos': nat)
    requires HasDelivered(ks, start, took, ps, pos) && Takes(ks, pos, u, p, pos', [])
    ensures HasDelivered(ks, start, took + u, ps + [p], pos') && u != []
  {
    assert u != [] by { hide Receive; }
    hide Receive, Takes;
    forall rest ensures Receive(ks, start, took + u + rest) == ps + [p] + Receive(ks, pos', rest) {
      assert took + u + rest == took + (u + rest);
      TakesAgain(ks, pos, u, p, pos', rest);
      assert ps + ([p] + Receive(ks, pos', rest)) == ps + [p] + Receive(ks, pos', rest);
    }
  }

  /** What follows a frame does not matter for its packet. */
  lemma TakesAgain(ks: Keystream, pos: nat, u: Bytes, p: Packet, pos': nat, rest: Bytes)
    requires Takes(ks, pos, u, p, pos', [])
    ensures Receive(ks, pos, u + rest) == [p] + Receive(ks, pos', rest)
  {
    var n := Decode32(Xor(ks, pos, u[..HEADER]));
    assert (u + rest)[..HEADER] == u[..HEADER];
    assert (u + rest)[HEADER..HEADER + n] == u[HEADER..HEADER + n] && (u + rest)[HEADER + Fetched(n)..] == rest;
    hide Xor, Decode32, Receive;
    TakesIsReceive(ks, pos, u + rest, p, pos', rest);
  }

  lemma DeliversAtLeast(ks: Keystream, start: nat, took: Bytes, ps: seq<Packet>, pos: nat, rest: Bytes)
    requires HasDelivered(ks, start, took, ps, pos)
    ensures ps <= Receive(ks, start, took + rest)
  {
  }

  /** Consuming what ends the receiver delivers nothing more. */
  lemma DeliversNoMore(ks: Keystream, start: nat, took: Bytes, ps: seq<Packet>, pos: nat, u: Bytes)
    requires HasDelivered(ks, start, took, ps, pos) && Ends(ks, pos, u)
    ensures Receive(ks, start, took + u) == ps
  {
  }

  /** The header and the payload of a frame encrypted in one call decrypt in two. */
  lemma FrameDecrypts(ks: Keystream, pos: nat, p: Packet, rest: Bytes)
    requires IsPacket(p)
    ensures var c := Xor(ks, pos, Frame(p)) + rest;
            && |c| >= HEADER + |p|
            && Decode32(Xor(ks, pos, c[..HEADER])) == |p|
            && Xor(ks, pos + HEADER, c[HEADER..HEADER + |p|]) == p
            && c[HEADER + |p|..] == rest
  {
    var h, n := Encode32(|p|), |p|;
    var x, y := Xor(ks, pos, h), Xor(ks, pos + HEADER, p);
    XorConcat(ks, pos, h, p);
    assert Xor(ks, pos, Frame(p)) == x + y;
    Cut(x, y, rest);
    XorTwice(ks, pos, h);
    XorTwice(ks, pos + HEADER, p);
    RoundTrip32(n);
  }

  lemma Cut(x: Bytes, y: Bytes, z: Bytes)
    ensures var c := x + y + z;
            c[..|x|] == x && c[|x|..|x| + |y|] == y && c[|x| + |y|..] == z && c[|x|..] == y + z
  {
  }

  /** The header of a frame that has not arrived in full still announces more than there is. */
  lemma PartialFrameWaits(ks: Keystream, pos: nat, p: Packet, c: Bytes)
    requires IsPacket(p) && c <= Xor(ks, pos, Frame(p)) && |c| < |Frame(p)|
    ensures Receive(ks, pos, c) == []
  {
    if |c| >= HEADER {
      FrameDecrypts(ks, pos, p, []);
      var whole := Xor(ks, pos, Frame(p)) + [];
      assert c[..HEADER] == whole[..HEADER];
    }
  }

  lemma ReceiveFrame(ks: Keystream, pos: nat, p: Packet, rest: Bytes)
    requires IsPacket(p)
    ensures Receive(ks, pos, Xor(ks, pos, Frame(p)) + rest) == [p] + Receive(ks, pos + |Frame(p)|, rest)
  {
    hide Receive, Takes;
    FrameTaken(ks, pos, p, rest);
    TakesIsReceive(ks, pos, Xor(ks, pos, Frame(p)) + rest, p, pos + |Frame(p)|, rest);
  }

  lemma FrameTaken(ks: Keystream, pos: nat, p: Packet, rest: Bytes)
    requires IsPacket(p)
    ensures Takes(ks, pos, Xor(ks, pos, Frame(p)) + rest, p, pos + |Frame(p)|, rest)
  {
    FrameDecrypts(ks, pos, p, rest);
    hide Xor, Frame, Decode32;
  }

  lemma PrefixOfConcat(c: Bytes, a: Bytes, b: Bytes)
    requires c <= a + b
    ensures |c| < |a| ==> c <= a
    ensures |c| >= |a| ==> c == a + c[|a|..] && c[|a|..] <= b
  {
    assert c == (a + b)[..|c|];
  }

  lemma StreamPrepend(ks: Keystream, pos: nat, p: Packet, ps: seq<Packet>)
    requires |p| <= MAX_PACKET && Fit(ps)
    ensures Fit([p] + ps)
    ensures Stream(ks, pos, [p] + ps) == Xor(ks, pos, Frame(p)) + Stream(ks, pos + |Frame(p)|, ps)
  {
    FramedPrepend(p, ps);
    XorConcat(ks, pos, Frame(p), Framed(ps));
  }

  /** What arrived of a stream has been received correctly. */
  ghost predicate ReceivedWell(ks: Keystream, pos: nat, ps: seq<Packet>, c: Bytes)
    requires ArePackets(ps)
  {
    Receive(ks, pos, c) <= ps && (c == Stream(ks, pos, ps) ==> Receive(ks, pos, c) == ps)
  }

  lemma FirstFrameReceived(ks: Keystream, pos: nat, p: Packet, rest: seq<Packet>, c': Bytes)
    requires IsPacket(p) && ArePackets(rest) && ArePackets([p] + rest)
    requires ReceivedWell(ks, pos + |Frame(p)|, rest, c')
    ensures ReceivedWell(ks, pos, [p] + rest, Xor(ks, pos, Frame(p)) + c')
  {
    var first, later := Xor(ks, pos, Frame(p)), Stream(ks, pos + |Frame(p)|, rest);
    ReceiveFrame(ks, pos, p, c');
    StreamPrepend(ks, pos, p, rest);
    if first + c' == first + later {
      assert c' == (first + c')[|first|..] == (first + later)[|first|..] == later;
    }
  }

  /** Round trip: for every keystream, position, packet sequence and every prefix of the stream that
      has arrived, the receiver delivers a prefix of the packets; all of them once all has arrived. */
  lemma {:induction false} RoundTrip(ks: Keystream, pos: nat, ps: seq<Packet>, c: Bytes)
    requires ArePackets(ps) && c <= Stream(ks, pos, ps)
    ensures ReceivedWell(ks, pos, ps, c)
    decreases |ps|
  {
    if ps == [] {
      assert c == [];
    } else {
      var p, rest := ps[0], ps[1..];
      assert ps == [p] + rest;
      StreamPrepend(ks, pos, p, rest);
      var first := Xor(ks, pos, Frame(p));
      var later := Stream(ks, pos + |first|, rest);
      PrefixOfConcat(c, first, later);
      if |c| < |first| {
        PartialFrameWaits(ks, pos, p, c);
      } else {
        RoundTrip(ks, pos + |first|, rest, c[|first|..]);
        FirstFrameReceived(ks, pos, p, rest, c[|first|..]);
      }
    }
  }

  // ----------------------------------------------------------------------------------------
  // Empty packets
  // ----------------------------------------------------------------------------------------

  /** The bytes that the receiver consumes for the packets `ps`. */
  function Need(ps: seq<Packet>): nat {
    if ps == [] then 0 else HEADER + Fetched(|ps[0]|) + Need(ps[1..])
  }

  lemma {:induction false} ReceiveNeeds(ks: Keystream, pos: nat, c: Bytes)
    ensures Need(Receive(ks, pos, c)) <= |c|
    decreases |c|
  {
    if !Ends(ks, pos, c) {
      var n := Decode32(Xor(ks, pos, c[..HEADER]));
      ReceiveNeeds(ks, pos + HEADER + n, c[HEADER + Fetched(n)..]);
      assert Receive(ks, pos, c)[1..] == Receive(ks, pos + HEADER + n, c[HEADER + Fetched(n)..]);
    }
  }

  /** The sender provides as much as the receiver needs exactly if no packet is empty. */
  lemma {:induction false} FramedProvides(ps: seq<Packet>)
    requires Fit(ps)
    ensures |Framed(ps)| <= Need(ps)
    ensures |Framed(ps)| == Need(ps) <==> ArePackets(ps)
  {
    if ps != [] {
      FramedProvides(ps[1..]);
      FramedPrepend(ps[0], ps[1..]);
      assert ps == [ps[0]] + ps[1..];
      if ArePackets(ps[1..]) && IsPacket(ps[0]) {
        forall i | 0 <= i < |ps| ensures IsPacket(ps[i]) { assert i > 0 ==> ps[i] == ps[1..][i - 1]; }
      }
      if ArePackets(ps) {
        forall i | 0 <= i < |ps| - 1 ensures IsPacket(ps[1..][i]) { assert ps[1..][i] == ps[i + 1]; }
      }
    }
  }

  /** The exact condition of the round trip: of the packets that fit, the receiver delivers the ones
      sent if and only if none of them is empty. */
  lemma RoundTripIff(ks: Keystream, pos: nat, ps: seq<Packet>)
    requires Fit(ps)
    ensures Receive(ks, pos, Stream(ks, pos, ps)) == ps <==> forall i :: 0 <= i < |ps| ==> ps[i] != []
  {
    var c := Stream(ks, pos, ps);
    if forall i :: 0 <= i < |ps| ==> ps[i] != [] {
      assert ArePackets(ps);
      RoundTrip(ks, pos, ps, c);
    } else {
      ReceiveNeeds(ks, pos, c);
      FramedProvides(ps);
    }
  }

  /** What comes before the first empty packet is delivered, whatever follows. */
  lemma {:induction false} DeliversUpToAnEmptyOne(ks: Keystream, pos: nat, ps: seq<Packet>, more: seq<Packet>)
    requires ArePackets(ps) && Fit(more)
    ensures Fit(ps + more) && ps <= Receive(ks, pos, Stream(ks, pos, ps + more))
    decreases |ps|
  {
    hide Receive, Frame, Stream, Xor;
    if ps == [] {
      assert ps + more == more;
    } else {
      var p, rest := ps[0], ps[1..] + more;
      assert ps + more == [p] + rest;
      DeliversUpToAnEmptyOne(ks, pos + |Frame(p)|, ps[1..], more);
      StreamPrepend(ks, pos, p, rest);
      ReceiveFrame(ks, pos, p, Stream(ks, pos + |Frame(p)|, rest));
    }
  }

  /** Delivery of all packets takes every byte of their stream. */
  lemma AllDeliveredIff(ks: Keystream, pos: nat, ps: seq<Packet>, took: Bytes)
    requires ArePackets(ps) && took <= Stream(ks, pos, ps)
    ensures Receive(ks, pos, took) <= ps
    ensures Receive(ks, pos, took) == ps <==> took == Stream(ks, pos, ps)
  {
    RoundTrip(ks, pos, ps, took);
    ReceiveNeeds(ks, pos, took);
    FramedProvides(ps);
    assert |took| == |Stream(ks, pos, ps)| ==> took == Stream(ks, pos, ps);
  }

  /** One more packet extends the stream by its encrypted frame. */
  lemma StreamAppend(ks: Keystream, pos: nat, ps: seq<Packet>, p: Packet)
    requires ArePackets(ps) && IsPacket(p)
    ensures ArePackets(ps + [p]) && |Framed(ps + [p])| == |Framed(ps)| + |Frame(p)|
    ensures Stream(ks, pos, ps + [p]) == Stream(ks, pos, ps) + Xor(ks, pos + |Framed(ps)|, Frame(p))
  {
    hide Xor, Frame, Framed;
    FramedAppend(ps, p);
    XorConcat(ks, pos, Framed(ps), Frame(p));
  }
}
