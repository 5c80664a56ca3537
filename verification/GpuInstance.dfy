/** The host side as objects: `GPUInstance`, with one handler per driver function and one reply per command. */
module GpuInstance {
  import opened Bytes
  import opened Wrappers
  import opened Driver
  import opened RequestCodec
  import opened ReplyCodec
  import opened Protocol
  import Transport
  import PinnedMemory

  /** Copied-out bytes are at their place in the pinned area, or at the front of staging if that is no place in it. */
  ghost predicate Landed(off: int, bytes: seq<byte>, staging: seq<byte>, pinned: seq<byte>,
                         stagingNow: seq<byte>, pinnedNow: seq<byte>)
  {
    var n := |bytes|;
    if 0 <= off <= PinnedMemory.PIN_SIZE then
      off + n <= |pinned| ==> pinnedNow == pinned[..off] + bytes + pinned[off + n..] && stagingNow == staging
    else
      n <= |staging| ==> stagingNow == bytes + staging[n..] && pinnedNow == pinned
  }

  lemma OutLands(pin: u64, ptr: u64, out: Option<seq<byte>>, staging: seq<byte>, pinned: seq<byte>,
                 stagingNow: seq<byte>, pinnedNow: seq<byte>)
    requires var toPinned := PinnedMemory.IsPinned(pin, ptr);
             && pinnedNow == (if toPinned then Write(pinned, ptr - pin, out) else pinned)
             && stagingNow == (if toPinned then staging else Write(staging, 0, out))
    ensures PinnedMemory.AreaFits(pin) && out.Some? ==>
              Landed(ptr - pin, out.value, staging, pinned, stagingNow, pinnedNow)
  {
  }

  class GPUInstance<D> {
    const cfg: Config
    const drv: Driver<D>
    const deserializer: Deserializer
    const response: Response
    const vgpu: array<byte>
    const pinned: array<byte>
    const fromClient: Transport.ByteStream
    const toClient: Transport.ByteStream
    const stack: u64    // what an uninitialised local holds
    var clientPinStart: u64
    var dev: D

    constructor (cfg: Config, drv: Driver<D>, dev: D, vgpu: array<byte>, pinned: array<byte>,
                 fromClient: Transport.ByteStream, toClient: Transport.ByteStream, stack: u64)
      requires vgpu.Length == STAGING_SIZE && vgpu != pinned && fromClient != toClient
      ensures Valid() && fresh(deserializer) && fresh(deserializer.mdata) && fresh(response) && fresh(response.mdata)
      ensures this.cfg == cfg && this.drv == drv && this.dev == dev && clientPinStart == 0
      ensures this.vgpu == vgpu && this.pinned == pinned
      ensures this.fromClient == fromClient && this.toClient == toClient
    {
      this.cfg, this.drv, this.dev, this.stack, clientPinStart := cfg, drv, dev, stack, 0;
      this.vgpu, this.pinned, this.fromClient, this.toClient := vgpu, pinned, fromClient, toClient;
      deserializer := new Deserializer();
      response := new Response();
    }

    ghost predicate Valid() {
      && deserializer.Valid() && response.Valid() && vgpu.Length == STAGING_SIZE
      && deserializer.mdata != response.mdata && deserializer.mdata != vgpu && deserializer.mdata != pinned
      && response.mdata != vgpu && response.mdata != pinned && vgpu != pinned
      && fromClient != toClient
    }

    function View(): Host<D>
      reads this, response.mdata, pinned
    {
      Host(dev, response.mdata[..], clientPinStart, pinned[..], stack)
    }

    /** How much one `read` takes. */
    function ReadSize(): nat
      reads fromClient
    {
      Transport.Min(|fromClient.queue|, BUFFER_SIZE)
    }

    /** The receive buffer as the next `read` leaves it: a command, then whatever was there. */
    function Received(): seq<byte>
      requires deserializer.mdata.Length == BUFFER_SIZE
      reads fromClient, deserializer.mdata
    {
      Splice(deserializer.mdata[..], 0, fromClient.queue[..ReadSize()])
    }

    /** Returns where the function name is in the receive buffer. */
    method PullCommand() returns (name: nat)
      requires Valid() && Decode(CStrOf, Received(), 0).Got?
      modifies deserializer`mcount, deserializer.mdata, fromClient
      ensures deserializer.mdata[..] == old(Received())
      ensures Decode(CStrOf, deserializer.mdata[..], 0) == Got(CStrView(name), deserializer.mcount)
      ensures fromClient.queue == old(fromClient.queue[ReadSize()..])
    {
      var bytesRead := ReadSize();
      deserializer.Fill(fromClient.queue[..bytesRead]);
      fromClient.queue := fromClient.queue[bytesRead..];
      var v := deserializer.Get(CStrOf);
      name := v.at;
    }

    /** How much of a reply one `send` takes; its answer is not looked at. */
    function Accepted(answer: int): (n: nat)
      ensures n <= RESPONSE_SIZE && (n == RESPONSE_SIZE <==> answer >= RESPONSE_SIZE)
      ensures (answer < 0 ==> n == 0) && (0 <= answer <= RESPONSE_SIZE ==> n == answer)
    {
      if answer <= 0 then 0 else Transport.Min(answer, RESPONSE_SIZE)
    }

    /** The reply goes out whole exactly when the one `send` takes all of it. */
    method ReturnResult(answer: int)
      requires Valid()
      modifies toClient
      ensures toClient.queue == old(toClient.queue) + response.mdata[..Accepted(answer)]
      ensures toClient.queue == old(toClient.queue) + response.mdata[..] <==> answer >= RESPONSE_SIZE
    {
      toClient.queue := toClient.queue + response.mdata[..Accepted(answer)];
      assert |toClient.queue| == |old(toClient.queue)| + Accepted(answer);
      assert response.mdata[..RESPONSE_SIZE] == response.mdata[..];
    }

    // ---------- handlers ----------

    /** The host's answer, as the protocol defines it. */
    twostate predicate Concluded(api: Api, items: Args, call: DriverCall)
      reads this, response.mdata, pinned, vgpu
    {
      response.Valid() &&
      old(|response.mdata[..]|) == RESPONSE_SIZE &&
      var served := Conclude(old(View()), old(vgpu[..]), api, items, drv.run(old(dev), call));
      View() == served.host && vgpu[..] == served.staging
    }

    /** The reply has the result code, then the handle that the driver wrote, or what the local held before. */
    ghost predicate Answered(o: Outcome<D>, unwritten: u64)
      requires response.mdata.Length == RESPONSE_SIZE
      reads response.mdata
    {
      && response.mdata[..4] == LE(4, o.code)
      && (o.out.None? ==> response.mdata[4..12] == LE(8, unwritten))
      && (o.out.Some? && |o.out.value| == 8 ==> response.mdata[4..12] == o.out.value)
    }

    lemma BoxHolds(out: Option<seq<byte>>, unwritten: u64, box: u64)
      requires out.None? ==> box == unwritten
      requires out.Some? && |out.value| == 8 ==> box == ReadU64(out.value, 0)
      ensures out.None? ==> LE(8, box) == LE(8, unwritten)
      ensures out.Some? && |out.value| == 8 ==> LE(8, box) == out.value
    {
      if out.Some? && |out.value| == 8 {
        assert out.value[0..8] == out.value;
        LEOfFromLE(out.value);
      }
    }

    method HandleMemAlloc(items: Args)
      requires Valid()
      modifies `dev, response.mdata
      ensures Concluded(ApiMemAlloc, items, Alloc(Num64(items, 1)))
      ensures Answered(drv.run(old(dev), Alloc(Num64(items, 1))), 0)
    {
      var box: u64 := 0;    // a fresh box is zeroed
      var o := drv.run(dev, Alloc(Num64(items, 1)));
      if o.out.Some? && |o.out.value| == 8 {
        box := ReadU64(o.out.value, 0);
      }
      dev := o.state;
      response.SetResult(o.code);
      response.SetScalar(box);
      BoxHolds(o.out, 0, box);
    }

    method HandleModuleGetFunction(items: Args)
      requires Valid()
      modifies `dev, response.mdata
      ensures Concluded(ApiGetFunction, items, GetFn(Num64(items, 1), Chars(items, 2)))
      ensures Answered(drv.run(old(dev), GetFn(Num64(items, 1), Chars(items, 2))), 0)
    {
      var box: u64 := 0;
      var o := drv.run(dev, GetFn(Num64(items, 1), Chars(items, 2)));
      if o.out.Some? && |o.out.value| == 8 {
        box := ReadU64(o.out.value, 0);
      }
      dev := o.state;
      ghost var before := response.mdata[..];
      response.SetScalar(box);
      response.SetResult(o.code);
      ScalarAndCodeCommute(before, box, o.code);
      BoxHolds(o.out, 0, box);
      assert response.mdata[4..12] == response.mdata[4..][..8];
    }

    method HandleModuleLoad(items: Args)
      requires Valid()
      modifies `dev, response.mdata
      ensures Concluded(ApiLoad, items, Load(Ascii(cfg.shippedPath)))
      ensures Answered(drv.run(old(dev), Load(Ascii(cfg.shippedPath))), stack)
    {
      var module_ := stack;
      var o := drv.run(dev, Load(Ascii(cfg.shippedPath)));
      if o.out.Some? {
        module_ := HandleOf(o.out);
      }
      dev := o.state;
      ghost var before := response.mdata[..];
      response.SetScalar(module_);
      response.SetResult(o.code);
      ScalarAndCodeCommute(before, module_, o.code);
      BoxHolds(o.out, stack, module_);
      assert response.mdata[4..12] == response.mdata[4..][..8];
    }

    /** The generic handler: the result code, then the arguments written back. */
    method HandleMemFree(items: Args)
      requires Valid() && response.cursor == AREA
      modifies `dev, response, response.mdata
      ensures Concluded(ApiMemFree, items, Free(Num64(items, 0)))
      ensures response.mdata[AREA..AREA + 8] == LE(8, Num64(items, 0)) && response.cursor == AREA + 8
    {
      hide LE, FromLE, ReadU64, Pow256, PutUpTo, Place;
      var o := drv.run(dev, Free(Num64(items, 0)));
      dev := o.state;
      response.SetResult(o.code);
      var arg := Item(Val(8), LE(8, Num64(items, 0)));
      PutOne(response.mdata[..], AREA, arg);
      response.Put(arg);
    }

    method HandleMemcpyHtoD(items: Args)
      requires Valid()
      modifies `dev, response.mdata
      ensures Concluded(ApiHtoD, items,
                        HtoD(Num64(items, 0), CopySource(old(View()), vgpu[..], Num64(items, 1), Num64(items, 2))))
      // the driver is given the pinned bytes at the pointer's place in the area, or else the front of staging
      ensures var dst, off, count := Num64(items, 0), Num64(items, 1) - clientPinStart, Num64(items, 2);
              PinnedMemory.AreaFits(clientPinStart) ==>
                && (0 <= off <= PinnedMemory.PIN_SIZE && off + count <= pinned.Length ==>
                      dev == drv.run(old(dev), HtoD(dst, pinned[off..off + count])).state)
                && (!(0 <= off <= PinnedMemory.PIN_SIZE) && count <= vgpu.Length ==>
                      dev == drv.run(old(dev), HtoD(dst, vgpu[..count])).state)
    {
      var source := CopySource(View(), vgpu[..], Num64(items, 1), Num64(items, 2));
      var o := drv.run(dev, HtoD(Num64(items, 0), source));
      dev := o.state;
      response.SetResult(o.code);
      assert View().pinned == pinned[..];
      SourceInPlace(source, Num64(items, 1), Num64(items, 2));
    }

    /** The bytes that a copy-in reads, in the shared arrays themselves. */
    lemma SourceInPlace(source: seq<byte>, ptr: u64, count: u64)
      requires source == CopySource(View(), vgpu[..], ptr, count)
      ensures var off := ptr - clientPinStart;
              PinnedMemory.AreaFits(clientPinStart) ==>
                && (0 <= off <= PinnedMemory.PIN_SIZE && off + count <= pinned.Length ==>
                      source == pinned[off..off + count])
                && (!(0 <= off <= PinnedMemory.PIN_SIZE) && count <= vgpu.Length ==> source == vgpu[..count])
    {
    }

    /** The driver's write to the destination of a copy-out. */
    method PutOut(ptr: u64, out: Option<seq<byte>>)
      requires Valid()
      modifies vgpu, pinned
      ensures var toPinned := PinnedMemory.IsPinned(clientPinStart, ptr);
              && pinned[..] == (if toPinned then Write(old(pinned[..]), ptr - clientPinStart, out) else old(pinned[..]))
              && vgpu[..] == (if toPinned then old(vgpu[..]) else Write(old(vgpu[..]), 0, out))
    {
      if PinnedMemory.IsPinned(clientPinStart, ptr) {
        StoreOut(pinned, ptr - clientPinStart, out);
      } else {
        StoreOut(vgpu, 0, out);
      }
    }

    method HandleMemcpyDtoH(items: Args)
      requires Valid()
      modifies `dev, response.mdata, vgpu, pinned
      ensures Concluded(ApiDtoH, items, DtoH(Num64(items, 1), Num64(items, 2)))
      ensures var out := drv.run(old(dev), DtoH(Num64(items, 1), Num64(items, 2))).out;
              PinnedMemory.AreaFits(clientPinStart) && out.Some? ==>
                Landed(Num64(items, 0) - clientPinStart, out.value, old(vgpu[..]), old(pinned[..]),
                       vgpu[..], pinned[..])
    {
      hide LE, FromLE, ReadU64, Pow256, PutItems, Landed, Write, PinnedMemory.IsPinned, Num64;
      ghost var staging, area := vgpu[..], pinned[..];
      var o := drv.run(dev, DtoH(Num64(items, 1), Num64(items, 2)));
      dev := o.state;
      PutOut(Num64(items, 0), o.out);
      OutLands(clientPinStart, Num64(items, 0), o.out, staging, area, vgpu[..], pinned[..]);
      response.SetResult(o.code);
      assert response.mdata[..] == Splice(old(response.mdata[..]), 0, LE(4, o.code));
    }

    /** The driver's own write through a host pointer. */
    method StoreOut(a: array<byte>, at: nat, out: Option<seq<byte>>)
      modifies a
      ensures a[..] == Write(old(a[..]), at, out)
    {
      if out.Some? && at + |out.value| <= a.Length {
        CopyInto(a, at, out.value);
      }
    }

    /** The kernel's arguments are the slots of the receive buffer, read by the driver where they lie. */
    method HandleLaunchKernel(items: Args, slots: seq<nat>)
      requires Valid()
      modifies `dev, response.mdata
      ensures var f := Num64(items, 0);
              Concluded(ApiLaunch, items,
                        Launch(f, GeometryOf(items), SlotParams(deserializer.mdata[..], slots, drv.signature(f))))
    {
      var f := Num64(items, 0);
      var o := drv.run(dev, Launch(f, GeometryOf(items), SlotParams(deserializer.mdata[..], slots, drv.signature(f))));
      dev := o.state;
      response.SetResult(o.code);
    }

    lemma ScalarAndCodeCommute(before: seq<byte>, scalar: u64, code: u32)
      requires |before| == RESPONSE_SIZE
      ensures Splice(Splice(before, AREA, LE(8, scalar)), 0, LE(4, code))
           == Splice(Splice(before, 0, LE(4, code)), AREA, LE(8, scalar))
    {
    }

    /** The chain of name comparisons, after decoding the arguments at the types of the chosen name. */
    method Handle(api: Api, views: Views)
      requires Valid() && response.cursor == AREA
      requires views.Views? && views.head.TupleView?
      requires api.ApiLaunch? ==> views.tail.Views? && views.tail.head.SlotsView?
      modifies `dev, response, response.mdata, vgpu, pinned
      ensures Concluded(api, FollowAll(deserializer.mdata[..], views.head.items),
                        HostCall(cfg, drv, old(View()), old(vgpu[..]), deserializer.mdata[..], api, views))
    {
      var items := FollowAll(deserializer.mdata[..], views.head.items);
      match api
      case ApiMemAlloc => HandleMemAlloc(items);
      case ApiHtoD => HandleMemcpyHtoD(items);
      case ApiLoad => HandleModuleLoad(items);
      case ApiGetFunction => HandleModuleGetFunction(items);
      case ApiLaunch => HandleLaunchKernel(items, views.tail.head.slots);
      case ApiDtoH => HandleMemcpyDtoH(items);
      case ApiMemFree => HandleMemFree(items);
    }

    /** One command: the receive buffer is written once, by the read; one reply of fixed size is sent. */
    method ImplementCudaFunction(answer: int)
      requires Valid() && Decodable(Received())
      modifies `dev, deserializer`mcount, deserializer.mdata, response, response.mdata, vgpu, pinned
      modifies fromClient, toClient
      ensures deserializer.mdata[..] == old(Received())
      ensures var served := Serve(cfg, drv, old(View()), old(vgpu[..]), old(Received()));
              View() == served.host && vgpu[..] == served.staging
      ensures toClient.queue == old(toClient.queue) + response.mdata[..Accepted(answer)]
      ensures fromClient.queue == old(fromClient.queue[ReadSize()..])
    {
      var at := PullCommand();
      response.Reset();
      var handler := Dispatch(CString(deserializer.mdata[..], at));
      if handler.Some? {
        ArgumentsDecodedAs(handler.value, deserializer.mdata[..], deserializer.mcount);
        var views := deserializer.GetAll(ArgumentShapes(handler.value));
        Handle(handler.value, views);
      }
      ReturnResult(answer);
    }
  }
}
