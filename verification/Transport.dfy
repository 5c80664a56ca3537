/** The byte stream between guest and host, and the partial-send and partial-receive loops on it. */
module Transport {
  import opened Bytes

  /** One direction of a connected stream socket: the bytes sent and not yet received. */
  class ByteStream {
    var queue: seq<byte>

    constructor ()
      ensures queue == []
    {
      queue := [];
    }
  }

  /** The kernel's answer to the k-th system call of a loop: a byte count, or 0 or less when the call fails. */
  type Kernel = nat -> int

  /** The answers of each of several loops. */
  type Kernels = nat -> Kernel

  /** No system call fails. */
  ghost predicate AllAnswer(kernels: Kernels) {
    forall i: nat, k: nat :: kernels(i)(k) > 0
  }

  function Min(a: nat, b: nat): (r: nat)
    ensures r <= a && r <= b && (r == a || r == b)
  {
    if a <= b then a else b
  }

  /** How much of `size` bytes a send loop puts on the stream, starting with system call number `call`. */
  function Delivered(kernel: Kernel, call: nat, size: nat): (n: nat)
    ensures n <= size
    decreases size
  {
    if size == 0 || kernel(call) <= 0 then 0
    else
      var moved := Min(kernel(call), size);
      moved + Delivered(kernel, call + 1, size - moved)
  }

  /** How much of `size` bytes a receive loop takes when `available` bytes arrive before the peer closes. */
  function Taken(kernel: Kernel, call: nat, size: nat, available: nat): (n: nat)
    ensures n <= size && n <= available
    decreases size
  {
    if size == 0 || kernel(call) <= 0 || available == 0 then 0
    else
      var moved := Min(Min(kernel(call), size), available);
      moved + Taken(kernel, call + 1, size - moved, available - moved)
  }

  /** A send loop falls short only if one of its system calls failed, within the first `size` of them. */
  lemma {:induction false} ShortSendMeansFailedCall(kernel: Kernel, call: nat, size: nat)
    ensures Delivered(kernel, call, size) < size ==> exists k :: call <= k < call + size && kernel(k) <= 0
    decreases size
  {
    if size > 0 && kernel(call) > 0 {
      var moved := Min(kernel(call), size);
      ShortSendMeansFailedCall(kernel, call + 1, size - moved);
    }
  }

  /** A receive loop falls short only if a system call failed or the stream ended too early. */
  lemma {:induction false} ShortReceiveMeansFailureOrEnd(kernel: Kernel, call: nat, size: nat, available: nat)
    ensures Taken(kernel, call, size, available) < size ==>
              available < size || exists k :: call <= k < call + size && kernel(k) <= 0
    decreases size
  {
    if size > 0 && kernel(call) > 0 && available > 0 {
      var moved := Min(Min(kernel(call), size), available);
      ShortReceiveMeansFailureOrEnd(kernel, call + 1, size - moved, available - moved);
    }
  }

  /** The first call of a receive loop, if it does not fail, leaves the rest to the calls after it. */
  lemma TakenFirst(kernel: Kernel, call: nat, size: nat, available: nat, moved: nat, sizeLeft: nat, availableLeft: nat)
    requires size > 0 && kernel(call) > 0 && available > 0
    requires moved == Min(Min(kernel(call), size), available)
    requires size == moved + sizeLeft && available == moved + availableLeft
    ensures Taken(kernel, call, size, available) == moved + Taken(kernel, call + 1, sizeLeft, availableLeft)
  {
  }

  function Concat(messages: seq<seq<byte>>): seq<byte> {
    if messages == [] then [] else messages[0] + Concat(messages[1..])
  }

  /** Cutting a stream into messages of the given sizes, front first; None when it is too short. */
  function Cut(stream: seq<byte>, sizes: seq<nat>): (r: (bool, seq<seq<byte>>, seq<byte>))
  {
    if sizes == [] then (true, [], stream)
    else if |stream| < sizes[0] then (false, [], stream)
    else
      var rest := Cut(stream[sizes[0]..], sizes[1..]);
      (rest.0, [stream[..sizes[0]]] + rest.1, rest.2)
  }

  function Sizes(messages: seq<seq<byte>>): seq<nat> {
    if messages == [] then [] else [|messages[0]|] + Sizes(messages[1..])
  }

  lemma {:induction false} ConcatMore(messages: seq<seq<byte>>, i: nat)
    requires i < |messages|
    ensures Concat(messages[..i + 1]) == Concat(messages[..i]) + messages[i]
  {
    if i == 0 {
      assert messages[..1][1..] == [] && messages[..1][0] == messages[0];
      assert messages[0] + [] == messages[0];
    } else {
      ConcatMore(messages[1..], i - 1);
      assert messages[..i + 1][1..] == messages[1..][..i] && messages[..i][1..] == messages[1..][..i - 1];
      assert messages[0] + (Concat(messages[1..][..i - 1]) + messages[i])
          == messages[0] + Concat(messages[1..][..i - 1]) + messages[i];
    }
  }

  /** The first cut takes the first message, whatever follows it. */
  lemma CutFirst(first: seq<byte>, rest: seq<byte>, sizes: seq<nat>)
    ensures var r := Cut(rest, sizes);
            Cut(first + rest, [|first|] + sizes) == (r.0, [first] + r.1, r.2)
  {
    assert (first + rest)[..|first|] == first && (first + rest)[|first|..] == rest;
    assert ([|first|] + sizes)[1..] == sizes;
  }

  /** Sending messages back to back and receiving their sizes one by one keeps every boundary. */
  lemma {:induction false} BoundariesPreserved(messages: seq<seq<byte>>, tail: seq<byte>)
    ensures Cut(Concat(messages) + tail, Sizes(messages)) == (true, messages, tail)
  {
    if messages == [] {
      assert Concat(messages) + tail == tail;
    } else {
      var rest := Concat(messages[1..]) + tail;
      BoundariesPreserved(messages[1..], tail);
      CutFirst(messages[0], rest, Sizes(messages[1..]));
      assert Concat(messages) + tail == messages[0] + rest;
      assert messages == [messages[0]] + messages[1..];
    }
  }

  /** `got` has been cut from the front of `all`, and the sizes `left` are still to be cut from `rest`. */
  ghost predicate CutSoFar(all: seq<byte>, sizes: seq<nat>, got: seq<seq<byte>>, rest: seq<byte>, left: seq<nat>) {
    var r := Cut(rest, left);
    Cut(all, sizes) == (r.0, got + r.1, r.2)
  }

  lemma CutMore(all: seq<byte>, sizes: seq<nat>, got: seq<seq<byte>>, rest: seq<byte>, left: seq<nat>,
                message: seq<byte>, next: seq<byte>)
    requires CutSoFar(all, sizes, got, rest, left)
    requires left != [] && |message| == left[0] && rest == message + next
    ensures CutSoFar(all, sizes, got + [message], next, left[1..])
  {
    CutFirst(message, next, left[1..]);
    assert left == [left[0]] + left[1..];
    assert got + ([message] + Cut(next, left[1..]).1) == got + [message] + Cut(next, left[1..]).1;
  }

  class VsockHandle {
    const toPeer: ByteStream
    const fromPeer: ByteStream

    constructor (toPeer: ByteStream, fromPeer: ByteStream)
      ensures this.toPeer == toPeer && this.fromPeer == fromPeer
    {
      this.toPeer, this.fromPeer := toPeer, fromPeer;
    }

    /** `ok` is false where the source throws. */
    method Transmit(data: seq<byte>, kernel: Kernel) returns (ok: bool)
      modifies toPeer
      ensures toPeer.queue == old(toPeer.queue) + data[..Delivered(kernel, 0, |data|)]
      ensures ok <==> toPeer.queue == old(toPeer.queue) + data
    {
      var remain, call := data, 0;
      ghost var before := toPeer.queue;
      while |remain| > 0
        invariant |remain| <= |data| && remain == data[|data| - |remain|..]
        invariant toPeer.queue == before + data[..|data| - |remain|]
        invariant Delivered(kernel, 0, |data|) == |data| - |remain| + Delivered(kernel, call, |remain|)
        decreases |remain|
      {
        var answer := kernel(call);
        if answer <= 0 {
          assert |toPeer.queue| < |before + data|;
          return false;
        }
        var moved := Min(answer, |remain|);
        toPeer.queue := toPeer.queue + remain[..moved];
        remain := remain[moved..];
        call := call + 1;
      }
      ok := true;
    }

    /** One `recv` that does not fail: at least one byte, and no more than asked, sent or available. */
    method Recv(limit: nat, answer: int) returns (chunk: seq<byte>)
      requires limit > 0 && answer > 0 && fromPeer.queue != []
      modifies fromPeer
      ensures old(fromPeer.queue) == chunk + fromPeer.queue
      ensures |chunk| == Min(Min(answer, limit), |old(fromPeer.queue)|)
      ensures |fromPeer.queue| == |old(fromPeer.queue)| - |chunk|
    {
      var moved := Min(Min(answer, limit), |fromPeer.queue|);
      chunk := fromPeer.queue[..moved];
      fromPeer.queue := fromPeer.queue[moved..];
    }

    /** `ok` is false where the source exits the process: a failed call or a closed peer. */
    method Receive(size: nat, kernel: Kernel) returns (ok: bool, data: seq<byte>)
      modifies fromPeer
      ensures ok <==> Taken(kernel, 0, size, |old(fromPeer.queue)|) == size
      ensures old(fromPeer.queue) == data + fromPeer.queue
      ensures ok <==> |data| == size
    {
      data := [];
      var call: nat, want: nat := 0, size;
      ghost var whole := Taken(kernel, 0, size, |fromPeer.queue|) == size;
      while want > 0
        invariant |data| + want == size
        invariant old(fromPeer.queue) == data + fromPeer.queue
        invariant whole <==> Taken(kernel, call, want, |fromPeer.queue|) == want
        decreases want
      {
        var answer := kernel(call);
        if answer <= 0 || fromPeer.queue == [] {
          return false, data;
        }
        ghost var available := |fromPeer.queue|;
        var chunk := Recv(want, answer);
        TakenFirst(kernel, call, want, available, |chunk|, want - |chunk|, |fromPeer.queue|);
        data := data + chunk;
        call, want := call + 1, want - |chunk|;
      }
      ok := true;
    }

    /** One message after the other; `ok` is false where one of them throws. */
    method TransmitAll(messages: seq<seq<byte>>, kernels: Kernels) returns (ok: bool)
      modifies toPeer
      ensures ok ==> toPeer.queue == old(toPeer.queue) + Concat(messages)
      ensures AllAnswer(kernels) ==> ok
    {
      ghost var before := toPeer.queue;
      assert before + Concat(messages[..0]) == before;
      for i := 0 to |messages|
        invariant toPeer.queue == before + Concat(messages[..i])
      {
        ShortSendMeansFailedCall(kernels(i), 0, |messages[i]|);
        var sent := Transmit(messages[i], kernels(i));
        if !sent {
          return false;
        }
        ConcatMore(messages, i);
      }
      assert messages[..|messages|] == messages;
      ok := true;
    }

    /** One `receive` for each size; `ok` is false where one of them exits. */
    method ReceiveAll(sizes: seq<nat>, kernels: Kernels) returns (ok: bool, got: seq<seq<byte>>)
      modifies fromPeer
      ensures ok ==> Cut(old(fromPeer.queue), sizes) == (true, got, fromPeer.queue)
      ensures AllAnswer(kernels) ==> (ok <==> Cut(old(fromPeer.queue), sizes).0)
    {
      got := [];
      ghost var all := fromPeer.queue;
      var left := sizes;
      assert [] + Cut(all, sizes).1 == Cut(all, sizes).1;
      while left != []
        invariant |left| <= |sizes| && CutSoFar(all, sizes, got, fromPeer.queue, left)
        decreases |left|
      {
        var kernel := kernels(|sizes| - |left|);
        ghost var here := fromPeer.queue;
        ShortReceiveMeansFailureOrEnd(kernel, 0, left[0], |here|);
        var taken, message := Receive(left[0], kernel);
        if !taken {
          return false, got;
        }
        CutMore(all, sizes, got, here, left, message, fromPeer.queue);
        got, left := got + [message], left[1..];
      }
      assert got + [] == got;
      ok := true;
    }
  }

  /**
   * Messages sent back to back over one stream and received by their sizes come out one by one, in order and
   * whole, however the kernel splits every send and every receive.
   */
  method Relay(sender: VsockHandle, receiver: VsockHandle, messages: seq<seq<byte>>, sends: Kernels, receives: Kernels)
    returns (got: seq<seq<byte>>)
    requires sender.toPeer == receiver.fromPeer && sender.toPeer.queue == []
    requires AllAnswer(sends) && AllAnswer(receives)
    modifies sender.toPeer
    ensures got == messages && sender.toPeer.queue == []
  {
    var sent := sender.TransmitAll(messages, sends);
    assert sender.toPeer.queue == Concat(messages) + [];
    BoundariesPreserved(messages, []);
    var ok;
    ok, got := receiver.ReceiveAll(Sizes(messages), receives);
  }
}
