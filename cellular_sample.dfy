/**
 * The cellular modem sample's test traffic: a linear congruential
 * generator that fills a 1024-byte test packet, and the check that the
 * UDP echo server sent exactly that packet back.
 */
module CellularSample {
  import opened CLib

  const PacketSize := 1024
  const EchoPort: uint16 := 7780
  const PrngSeed: uint32 := 1234
  const PrngModulus := 0x8000_0000   // 1U << 31

  // ---------------------------------------------------------------------
  // The generator

  /**
   * One step of the generator in the 32-bit unsigned arithmetic of the
   * source: the product and the sum wrap modulo 2^32 before the reduction
   * modulo 2^31, which makes no difference because 2^31 divides 2^32.
   */
  function PrngNext(s: uint32): (r: uint32)
    ensures r < PrngModulus
    ensures r == (1103515245 * s + 12345) % PrngModulus
  {
    var product := ToUint32(1103515245 * s);
    WrapThenReduce(1103515245 * s, 12345);
    ToUint32(product + 12345) % PrngModulus
  }

  /** Reducing modulo 2^32 first, even twice around an addition, leaves the residue modulo 2^31 alone. */
  lemma WrapThenReduce(x: int, c: int)
    ensures ToUint32(ToUint32(x) + c) % PrngModulus == (x + c) % PrngModulus
  {
    var w := 0x1_0000_0000;
    var y := ToUint32(x) + c;
    assert y == (x + c) - (x / w) * w;
    ModUnique(y, 0x1_0000_0000, (x + c) / w - x / w, (x + c) % w);
    var r := (x + c) % w;
    ModUnique(x + c, PrngModulus, 2 * ((x + c) / w) + r / PrngModulus, r % PrngModulus);
  }

  /** The state after n steps. */
  function PrngIterate(s: uint32, n: nat): uint32
    decreases n
  {
    if n == 0 then s else PrngNext(PrngIterate(s, n - 1))
  }

  /** The byte a step returns: the new state masked with 0xFF and cast to `uint8_t`, which is its low eight bits. */
  function OutputByte(s: uint32): (b: uint8)
    ensures b == s % 0x100
  {
    BitAndLowOnes(s, 0xFF);
    ToUint8(BitAnd(s, 0xFF))
  }

  /** The bytes n successive calls return. */
  function PrngBytes(s: uint32, n: nat): (r: Bytes)
    ensures |r| == n
    decreases n
  {
    if n == 0 then [] else PrngBytes(s, n - 1) + [OutputByte(PrngIterate(s, n))]
  }

  /** The byte at position i is the output of the (i+1)-th call. */
  lemma {:induction false} PrngBytesAt(s: uint32, n: nat, i: nat)
    requires i < n
    ensures PrngBytes(s, n)[i] == OutputByte(PrngIterate(s, i + 1))
    decreases n
  {
    if i < n - 1 {
      PrngBytesAt(s, n - 1, i);
    }
  }

  /** After at least one step the state stays below 2^31, whatever it started from. */
  lemma PrngStateBound(s: uint32, n: nat)
    requires n > 0
    ensures PrngIterate(s, n) < PrngModulus
  {
  }

  /** From the seed 1234 the first call yields the state 233191843 and the byte 163. */
  lemma FirstOutput()
    ensures PrngIterate(PrngSeed, 1) == 233191843
    ensures PrngBytes(PrngSeed, 1) == [163]
  {
    var s1 := PrngIterate(PrngSeed, 1);
    assert s1 == 233191843;
    assert s1 % 0x100 == 163;
    assert PrngBytes(PrngSeed, 1) == [OutputByte(s1)];
  }

  // ---------------------------------------------------------------------
  // The echo check

  /** Address families; Zephyr numbers AF_INET 1 and AF_INET6 2. */
  datatype AddressFamily = AfInet | AfInet6 | AfOther(code: nat)

  /** A socket address; the port is kept as the host-order value htons is applied to. */
  datatype SockAddr = SockAddr(family: AddressFamily, port: uint16)

  /** What zsock_recv does: fail, or take one datagram, truncated to the buffer. */
  datatype RecvOutcome = RecvFailed | Received(datagram: Bytes)

  /** The answers the socket layer gives to one exchange. */
  datatype SocketLayer = SocketLayer(socketFd: int32, sendRet: int32, recv: RecvOutcome, closeRet: int32)

  /** The socket calls the sample makes, in order. */
  datatype SocketOp = OpenSocket | SendTo(dest: SockAddr, packet: Bytes) | ReceiveFrom | CloseSocket

  datatype EchoOutcome = EchoOutcome(ret: int, addr: SockAddr, buffer: Bytes, ops: seq<SocketOp>)

  /** The value zsock_recv returns into an int: -1 on failure, else the bytes stored. */
  function RecvReturn(recv: RecvOutcome, room: nat): int {
    match recv
    case RecvFailed => -1
    case Received(d) => if |d| < room then |d| else room
  }

  /** The receive buffer after zsock_recv. */
  function AfterRecv(buf: Bytes, recv: RecvOutcome): (r: Bytes)
    ensures |r| == |buf|
  {
    match recv
    case RecvFailed => buf
    case Received(d) => var k := RecvReturn(recv, |buf|); d[..k] + buf[k..]
  }

  /**
   * The send check of the source as written: the int result is compared
   * with a size_t, so a negative result is first converted to a large
   * unsigned value and passes.
   */
  predicate SendShortAsWritten(sendRet: int32) {
    ToSizeT(sendRet) < PacketSize
  }

  /** The send check as intended: anything short of the whole packet, errors included, is a failure. */
  predicate SendShort(sendRet: int32) {
    sendRet < PacketSize
  }

  /**
   * sample_echo_packet, with the outcome of the send check given: open a
   * socket, set the echo port for an IPv4 or IPv6 address, send the test
   * packet, receive into the receive buffer, require exactly 1024 bytes
   * that equal the packet, then close the socket.
   */
  function EchoSteps(addr: SockAddr, net: SocketLayer, sent: Bytes, buf: Bytes, sendShort: bool): (r: EchoOutcome)
    requires |sent| == PacketSize && |buf| == PacketSize
    ensures r.ret == 0 || r.ret == -1
    ensures |r.buffer| == PacketSize
  {
    if net.socketFd < 0 then EchoOutcome(-1, addr, buf, [OpenSocket])
    else if !(addr.family.AfInet? || addr.family.AfInet6?) then EchoOutcome(-1, addr, buf, [OpenSocket])
    else
      var a := addr.(port := EchoPort);
      var sentOps := [OpenSocket, SendTo(a, sent)];
      if sendShort then EchoOutcome(-1, a, buf, sentOps)
      else
        var b := AfterRecv(buf, net.recv);
        var recvOps := sentOps + [ReceiveFrom];
        if RecvReturn(net.recv, PacketSize) != PacketSize then EchoOutcome(-1, a, b, recvOps)
        else if sent != b then EchoOutcome(-1, a, b, recvOps)
        else EchoOutcome(if net.closeRet < 0 then -1 else 0, a, b, recvOps + [CloseSocket])
  }

  function EchoAsWritten(addr: SockAddr, net: SocketLayer, sent: Bytes, buf: Bytes): (r: EchoOutcome)
    requires |sent| == PacketSize && |buf| == PacketSize
    ensures r.ret == 0 || r.ret == -1
  {
    EchoSteps(addr, net, sent, buf, SendShortAsWritten(net.sendRet))
  }

  function Echo(addr: SockAddr, net: SocketLayer, sent: Bytes, buf: Bytes): (r: EchoOutcome)
    requires |sent| == PacketSize && |buf| == PacketSize
    ensures r.ret == 0 || r.ret == -1
  {
    EchoSteps(addr, net, sent, buf, SendShort(net.sendRet))
  }

  /** The datagram was received whole, and it is the packet that was sent. */
  predicate EchoedExactly(recv: RecvOutcome, sent: Bytes) {
    recv.Received? && |recv.datagram| >= PacketSize && recv.datagram[..PacketSize] == sent
  }

  /**
   * The echo succeeds exactly when the socket opens, the address is IPv4
   * or IPv6, the whole packet is sent, 1024 bytes come back and equal it,
   * and the socket closes; the socket is closed only on that path.
   */
  lemma EchoAccepts(addr: SockAddr, net: SocketLayer, sent: Bytes, buf: Bytes)
    requires |sent| == PacketSize && |buf| == PacketSize
    ensures var r := Echo(addr, net, sent, buf);
      && (r.ret == 0 <==>
            && net.socketFd >= 0
            && (addr.family.AfInet? || addr.family.AfInet6?)
            && net.sendRet >= PacketSize
            && EchoedExactly(net.recv, sent)
            && net.closeRet >= 0)
      && (CloseSocket in r.ops <==>
            && net.socketFd >= 0
            && (addr.family.AfInet? || addr.family.AfInet6?)
            && net.sendRet >= PacketSize
            && EchoedExactly(net.recv, sent))
  {
    var r := Echo(addr, net, sent, buf);
    if net.recv.Received? && |net.recv.datagram| >= PacketSize {
      var b := AfterRecv(buf, net.recv);
      assert b == net.recv.datagram[..PacketSize];
    }
  }

  /** An address family other than IPv4 and IPv6 fails before anything is sent, and the address is kept. */
  lemma UnsupportedFamilyFails(addr: SockAddr, net: SocketLayer, sent: Bytes, buf: Bytes)
    requires |sent| == PacketSize && |buf| == PacketSize
    requires net.socketFd >= 0 && addr.family.AfOther?
    ensures Echo(addr, net, sent, buf) == EchoOutcome(-1, addr, buf, [OpenSocket])
  {
  }

  /** A partial send fails without receiving, as written and as intended alike. */
  lemma ShortSendFails(addr: SockAddr, net: SocketLayer, sent: Bytes, buf: Bytes)
    requires |sent| == PacketSize && |buf| == PacketSize
    requires net.socketFd >= 0 && (addr.family.AfInet? || addr.family.AfInet6?)
    requires 0 <= net.sendRet < PacketSize
    ensures Echo(addr, net, sent, buf).ret == -1 && EchoAsWritten(addr, net, sent, buf).ret == -1
    ensures ReceiveFrom !in Echo(addr, net, sent, buf).ops
    ensures Echo(addr, net, sent, buf) == EchoAsWritten(addr, net, sent, buf)
  {
  }

  /**
   * The two send checks agree on every result the call can give except a
   * negative one; the receive check needs no such care, because a negative
   * int converted to size_t still differs from 1024.
   */
  lemma SendChecksAgreeOnNonNegative(sendRet: int32)
    ensures sendRet >= 0 ==> (SendShortAsWritten(sendRet) <==> SendShort(sendRet))
    ensures sendRet < 0 ==> !SendShortAsWritten(sendRet) && SendShort(sendRet)
    ensures sendRet < 0 ==> ToSizeT(sendRet) != PacketSize
  {
  }

  /**
   * A failed send (-1) is not caught as written: the sample goes on to
   * receive and reports success when a 1024-byte datagram equal to the
   * packet arrives, while the intended check fails without receiving.
   */
  lemma FailedSendAcceptedAsWritten(addr: SockAddr, sent: Bytes, buf: Bytes)
    requires |sent| == PacketSize && |buf| == PacketSize && addr.family == AfInet
    ensures var net := SocketLayer(3, -1, Received(sent), 0);
      && EchoAsWritten(addr, net, sent, buf).ret == 0
      && Echo(addr, net, sent, buf).ret == -1
      && ReceiveFrom in EchoAsWritten(addr, net, sent, buf).ops
      && ReceiveFrom !in Echo(addr, net, sent, buf).ops
  {
    var net := SocketLayer(3, -1, Received(sent), 0);
    assert !SendShortAsWritten(-1);
    assert AfterRecv(buf, net.recv) == sent by {
      assert sent[..PacketSize] == sent;
      assert buf[PacketSize..] == [];
    }
  }

  // ---------------------------------------------------------------------
  // The sample's buffers and generator state

  class Sample {
    var prngState: uint32
    const testPacket: array<uint8>
    const recvBuffer: array<uint8>
    /** The indices of testPacket in the order they are written. */
    ghost var written: seq<int>

    ghost predicate Valid()
      reads this
    {
      testPacket.Length == PacketSize && recvBuffer.Length == PacketSize && testPacket != recvBuffer
    }

    /** The zeroed static buffers and the generator at its seed. */
    constructor ()
      ensures Valid() && prngState == PrngSeed && written == []
      ensures testPacket[..] == seq(PacketSize, i => 0) && recvBuffer[..] == seq(PacketSize, i => 0)
    {
      prngState := PrngSeed;
      testPacket := new uint8[PacketSize](i => 0);
      recvBuffer := new uint8[PacketSize](i => 0);
      written := [];
    }

    /** sample_prng_random */
    method PrngRandom() returns (b: uint8)
      modifies this`prngState
      ensures prngState == PrngNext(old(prngState)) && prngState < PrngModulus
      ensures b == OutputByte(prngState)
    {
      prngState := ToUint32(ToUint32(1103515245 * prngState) + 12345) % PrngModulus;
      b := ToUint8(BitAnd(prngState, 0xFF));
    }

    /**
     * init_sample_test_packet: every index from 0 to 1023 is written once,
     * in increasing order, with the next output of the generator.
     */
    method InitSampleTestPacket()
      requires Valid()
      modifies this`prngState, this`written, testPacket
      ensures Valid()
      ensures testPacket[..] == PrngBytes(old(prngState), PacketSize)
      ensures prngState == PrngIterate(old(prngState), PacketSize)
      ensures written == old(written) + seq(PacketSize, i => i)
    {
      var i := 0;
      while i < PacketSize
        invariant 0 <= i <= PacketSize
        invariant testPacket[..i] == PrngBytes(old(prngState), i)
        invariant prngState == PrngIterate(old(prngState), i)
        invariant written == old(written) + seq(i, k => k)
      {
        var b := PrngRandom();
        testPacket[i] := b;
        written := written + [i];
        assert testPacket[..i + 1] == testPacket[..i] + [b];
        assert seq(i + 1, k => k) == seq(i, k => k) + [i];
        i := i + 1;
      }
      assert testPacket[..] == testPacket[..PacketSize];
    }

    /**
     * sample_echo_packet against the answers of the socket layer, with the
     * send check corrected to catch a negative result.
     */
    method SampleEchoPacket(addr: SockAddr, net: SocketLayer) returns (ret: int, addrOut: SockAddr, ops: seq<SocketOp>)
      requires Valid()
      modifies recvBuffer
      ensures Valid()
      ensures var r := Echo(addr, net, testPacket[..], old(recvBuffer[..]));
        ret == r.ret && addrOut == r.addr && recvBuffer[..] == r.buffer && ops == r.ops
    {
      ghost var before := recvBuffer[..];
      ops := [OpenSocket];
      addrOut := addr;
      if net.socketFd < 0 {
        return -1, addrOut, ops;
      }
      if addr.family.AfInet? || addr.family.AfInet6? {
        addrOut := addr.(port := EchoPort);
      } else {
        return -1, addrOut, ops;
      }
      ops := ops + [SendTo(addrOut, testPacket[..])];
      var sendRet := net.sendRet;
      if sendRet < PacketSize {
        return -1, addrOut, ops;
      }
      ops := ops + [ReceiveFrom];
      var recvRet := Recv(recvBuffer, net.recv);
      if recvRet != PacketSize {
        return -1, addrOut, ops;
      }
      var cmp := Memcmp(testPacket, recvBuffer, PacketSize);
      assert testPacket[..PacketSize] == testPacket[..] && recvBuffer[..PacketSize] == recvBuffer[..];
      if cmp != 0 {
        return -1, addrOut, ops;
      }
      ops := ops + [CloseSocket];
      if net.closeRet < 0 {
        return -1, addrOut, ops;
      }
      ret := 0;
    }
  }

  /** zsock_recv into a buffer: the datagram's bytes, as many as fit, over the front of the buffer. */
  method Recv(buf: array<uint8>, recv: RecvOutcome) returns (ret: int)
    modifies buf
    ensures ret == RecvReturn(recv, buf.Length)
    ensures buf[..] == AfterRecv(old(buf[..]), recv)
  {
    match recv
    case RecvFailed =>
      ret := -1;
    case Received(d) =>
      var k := if |d| < buf.Length then |d| else buf.Length;
      var i := 0;
      while i < k
        invariant 0 <= i <= k
        invariant buf[..i] == d[..i]
        invariant forall j :: i <= j < buf.Length ==> buf[j] == old(buf[j])
      {
        buf[i] := d[i];
        assert buf[..i + 1] == d[..i + 1];
        i := i + 1;
      }
      assert buf[..] == d[..k] + old(buf[..])[k..];
      ret := k;
  }

  /** memcmp over the first n bytes: zero exactly when they agree, else the difference at the first mismatch. */
  method Memcmp(a: array<uint8>, b: array<uint8>, n: nat) returns (r: int)
    requires n <= a.Length && n <= b.Length
    ensures r == 0 <==> a[..n] == b[..n]
    ensures r != 0 ==> exists k :: 0 <= k < n && a[..k] == b[..k] && r == a[k] as int - b[k] as int
  {
    var i := 0;
    while i < n
      invariant 0 <= i <= n
      invariant a[..i] == b[..i]
    {
      if a[i] != b[i] {
        assert a[i] == a[..n][i] && b[i] == b[..n][i];
        return a[i] as int - b[i] as int;
      }
      assert a[..i + 1] == a[..i] + [a[i]] && b[..i + 1] == b[..i] + [b[i]];
      i := i + 1;
    }
    r := 0;
  }
}
