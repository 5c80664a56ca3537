/** The guest side as objects: `CUDAClient`, and the hooks that replace the driver's functions. */
module CudaClient {
  import opened Bytes
  import opened Wrappers
  import opened Driver
  import opened RequestCodec
  import opened ReplyCodec
  import opened Protocol
  import opened Remoting
  import opened Transparency
  import opened GpuInstance
  import opened Transport
  import PtxPrototype

  class CUDAClient {
    const serializer: Serializer
    const response: Response
    const vsock: VsockHandle
    const vgpu: array<byte>

    constructor (vsock: VsockHandle, vgpu: array<byte>)
      requires vgpu.Length == STAGING_SIZE && vsock.toPeer != vsock.fromPeer
      ensures Ready() && this.vsock == vsock && this.vgpu == vgpu
      ensures fresh(serializer) && fresh(serializer.mdata) && fresh(response) && fresh(response.mdata)
    {
      this.vsock, this.vgpu := vsock, vgpu;
      serializer := new Serializer();
      response := new Response();
    }

    /** Between calls: an empty message, both cursors at their start. */
    ghost predicate Ready()
      reads serializer, response
    {
      && serializer.Valid() && response.Valid() && vgpu.Length == STAGING_SIZE
      && serializer.mdata != response.mdata && serializer.mdata != vgpu && response.mdata != vgpu
      && vsock.toPeer != vsock.fromPeer
      && serializer.mcount == 0 && response.cursor == AREA
    }

    /** `ok` is false where sending throws. */
    method CallCudaFunction(args: Args, kernel: Kernel) returns (ok: bool)
      requires Ready() && AllSendable(args) && |EncodeAll(args)| <= BUFFER_SIZE
      modifies serializer, serializer.mdata, vsock.toPeer
      ensures ok <==> vsock.toPeer.queue == old(vsock.toPeer.queue) + EncodeAll(args)
      ensures ok ==> Ready()
      ensures (forall k :: kernel(k) > 0) ==> ok
    {
      assert serializer.Contents() == [];
      serializer.PutAll(args);
      assert serializer.Contents() == [] + EncodeAll(args) == EncodeAll(args);
      ShortSendMeansFailedCall(kernel, 0, |EncodeAll(args)|);
      ok := vsock.Transmit(serializer.mdata[..serializer.mcount], kernel);
      if ok {
        serializer.Clean();
      }
    }

    /** `ok` is false where receiving ends the process. */
    method WaitRecv(wires: seq<Wire>, kernel: Kernel) returns (ok: bool, code: u32, ds: seq<Delivery>)
      requires Ready() && |vsock.fromPeer.queue| == RESPONSE_SIZE
      requires AllReadable(vsock.fromPeer.queue, AREA, wires)
      modifies response, response.mdata, vsock.fromPeer
      ensures ok ==> Ready() && vsock.fromPeer.queue == [] && response.mdata[..] == old(vsock.fromPeer.queue)
      ensures ok ==> code == FromLE(old(vsock.fromPeer.queue)[..4]) && |ds| == |wires|
      ensures ok ==> forall i :: 0 <= i < |wires| ==>
                ds[i] == ReadingAt(old(vsock.fromPeer.queue), AREA, wires, i).delivery
      ensures (forall k :: kernel(k) > 0) ==> ok
    {
      code, ds := 0, [];
      var reply;
      ShortReceiveMeansFailureOrEnd(kernel, 0, RESPONSE_SIZE, RESPONSE_SIZE);
      ok, reply := vsock.Receive(RESPONSE_SIZE, kernel);
      if ok {
        assert vsock.fromPeer.queue == [] && reply + [] == reply;
        response.Load(reply);
        ds := response.GetAll(wires);
        response.Reset();
        code := response.Result();
        assert response.mdata[..4] == response.mdata[..][..4];
      }
    }

    /** `data` is what `dataPtr` points to; `ok` is false where the source aborts. */
    method ToDevice(dataPtr: u64, data: seq<byte>) returns (ok: bool)
      requires vgpu.Length == STAGING_SIZE
      modifies vgpu
      ensures ok <==> |data| <= STAGING_SIZE && dataPtr != 0
      ensures vgpu[..] == if ok then Write(old(vgpu[..]), 0, Some(data)) else old(vgpu[..])
    {
      ok := |data| <= vgpu.Length && dataPtr != 0;
      if ok {
        CopyInto(vgpu, 0, data);
      }
    }

    method FromDevice(byteSize: nat) returns (data: seq<byte>)
      requires byteSize <= vgpu.Length
      ensures data == vgpu[..byteSize]
    {
      data := vgpu[..byteSize];
    }
  }

  /**
   * The hooks with their globals, and the host process at the other end of the socket. While a hook waits for
   * its reply the host, which was blocked in `read`, handles the one outstanding command.
   */
  class Hooks<D(!new)> {
    const client: CUDAClient
    const funcProto: PtxPrototype.CUFuncProto
    const memory: array<byte>
    const host: GPUInstance<D>
    const kernel: Kernel           // how the guest's socket calls are answered
    const replySend: int           // and the host's one `send` of a reply
    var hashfunc: map<u64, string>
    var codes: seq<u32>            // every result the application has received

    constructor (client: CUDAClient, host: GPUInstance<D>, memory: array<byte>, kernel: Kernel, replySend: int)
      ensures this.client == client && this.host == host && this.memory == memory
      ensures this.kernel == kernel && this.replySend == replySend
      ensures fresh(funcProto) && funcProto.hashmap == map[] && hashfunc == map[] && codes == []
    {
      this.client, this.host, this.memory, this.kernel, this.replySend := client, host, memory, kernel, replySend;
      hashfunc, codes := map[], [];
      funcProto := new PtxPrototype.CUFuncProto();
    }

    ghost function GuestParts(): set<object> {
      {this, client.serializer, client.serializer.mdata, client.response, client.response.mdata, funcProto, memory}
    }

    ghost function HostParts(): set<object> {
      {host, host.deserializer, host.deserializer.mdata, host.response, host.response.mdata, host.pinned}
    }

    ghost function SharedParts(): set<object> {
      {client.vgpu, host.fromClient, host.toClient}
    }

    /** The two sides share the staging file and the socket, and nothing else. */
    ghost predicate Wired() {
      && host.Valid()
      && client.vgpu == host.vgpu && client.vsock.toPeer == host.fromClient && client.vsock.fromPeer == host.toClient
      && GuestParts() !! HostParts() && GuestParts() !! SharedParts() && HostParts() !! SharedParts()
      && memory != client.serializer.mdata && memory != client.response.mdata
      && client.serializer as object != client.response
      && Honest(host.cfg, host.drv)
      && (forall k :: kernel(k) > 0) && replySend >= RESPONSE_SIZE
    }

    /** No call is in progress. */
    ghost predicate Idle()
      reads client.serializer, client.response, host.fromClient, host.toClient
    {
      Wired() && client.Ready() && host.fromClient.queue == [] && host.toClient.queue == []
    }

    function View(): Guest
      reads this, funcProto, memory
    {
      Guest(memory[..], funcProto.hashmap, hashfunc, codes)
    }

    /** The application sees, and device and staging hold, what a remoted run gives. */
    ghost predicate Shows(r: Remoted<D>)
      reads this, funcProto, memory, host, client.vgpu
    {
      && Matches(host.cfg, View(), r.app) && host.dev == r.app.dev && HandlesAgree(host.cfg, host.drv, r.app)
      && client.vgpu[..] == r.staging
    }

    ghost predicate MayCall(r: Remoted<D>, c: Call)
      reads host
    {
      WellFormed(host.cfg, host.drv, host.clientPinStart, r.app, c) && |r.staging| == STAGING_SIZE
    }

    /** The run after one more call. */
    ghost function After(r: Remoted<D>, c: Call): Remoted<D> {
      RemoteStep(host.drv, host.stack, r, c)
    }

    /** What the host knows and shares when the guest has prepared its call. */
    ghost predicate Ready(before: Guest, r: Remoted<D>, c: Call)
      reads host, client.vgpu
    {
      && MayCall(r, c) && Matches(host.cfg, before, r.app) && HandlesAgree(host.cfg, host.drv, r.app)
      && host.dev == r.app.dev && client.vgpu[..] == Stage(c, r.app.mem, r.staging)
    }

    /** What a turn of the host comes to. */
    lemma TurnIsStep(c: Call, before: Guest, r: Remoted<D>, h: Host<D>, buf: seq<byte>, served: Served<D>)
      requires Honest(host.cfg, host.drv) && Between(host.cfg, host.drv, before, r, h) && h.stack == host.stack
      requires WellFormed(host.cfg, host.drv, h.clientPinStart, r.app, c) && Holds(buf, 0, Message(c, before))
      requires served == Serve(host.cfg, host.drv, h, Stage(c, r.app.mem, r.staging), buf)
      ensures served.host.dev == After(r, c).app.dev && served.staging == After(r, c).staging
      ensures served.host.clientPinStart == h.clientPinStart
      ensures Matches(host.cfg, Finish(c, Prepare(host.cfg, c, before), served.host.response, served.staging),
                      After(r, c).app)
    {
      CallIsRemoteStep(host.cfg, host.drv, before, r, h, c, buf);
    }

    /** The command on the socket as the host is about to read it, over what earlier commands left. */
    lemma CommandArrives(c: Call, before: Guest, r: Remoted<D>)
      requires host.Valid() && Ready(before, r, c)
      requires host.fromClient.queue == Message(c, before) && |Message(c, before)| <= BUFFER_SIZE
      ensures Holds(host.Received(), 0, Message(c, before)) && Decodable(host.Received())
      ensures host.ReadSize() == |host.fromClient.queue|
    {
      assert host.fromClient.queue[..host.ReadSize()] == Message(c, before);
      RequestDecodable(host.cfg, host.drv, host.clientPinStart, before, r.app, c, host.Received());
    }

    /** The host's turn: it handles the one command on the socket and answers it. */
    method HostTurn(c: Call, ghost before: Guest, ghost r: Remoted<D>)
      requires host.Valid() && client.vgpu == host.vgpu && replySend >= RESPONSE_SIZE
      requires Ready(before, r, c)
      requires host.fromClient.queue == Message(c, before) && |Message(c, before)| <= BUFFER_SIZE
      modifies HostParts(), SharedParts()
      ensures host.fromClient.queue == []
      ensures host.toClient.queue == old(host.toClient.queue) + host.response.mdata[..]
      ensures var served := Serve(host.cfg, host.drv, old(host.View()), old(host.vgpu[..]), old(host.Received()));
              host.View() == served.host && host.vgpu[..] == served.staging
    {
      CommandArrives(c, before, r);
      host.ImplementCudaFunction(replySend);
      assert host.response.mdata[..RESPONSE_SIZE] == host.response.mdata[..];
    }

    /** What `Idle` says of a state in which the reply is on its way and nothing else is. */
    ghost predicate ReplyPending(c: Call, before: Guest, after: Remoted<D>)
      reads client.serializer, client.response, host, host.fromClient, host.toClient, client.vgpu
    {
      && Wired() && client.Ready()
      && host.fromClient.queue == [] && |host.toClient.queue| == RESPONSE_SIZE
      && Matches(host.cfg, Finish(c, Prepare(host.cfg, c, before), host.toClient.queue, client.vgpu[..]), after.app)
      && HandlesAgree(host.cfg, host.drv, after.app)
      && host.dev == after.app.dev && client.vgpu[..] == after.staging
    }

    /** Serialise and send the request of `c`, and let the host handle it. */
    method Exchange(c: Call, request: Args, ghost before: Guest, ghost r: Remoted<D>)
      requires Idle() && Ready(before, r, c) && request == Request(c, before)
      modifies client.serializer, client.serializer.mdata, HostParts(), SharedParts()
      ensures ReplyPending(c, before, After(r, c))
      ensures host.clientPinStart == old(host.clientPinStart)
    {
      RequestSendable(host.cfg, host.drv, host.clientPinStart, before, r.app, c);
      RemoteHandlesKeepAgreeing(host.cfg, host.drv, host.clientPinStart, host.stack, r, c);
      var ok := client.CallCudaFunction(request, kernel);
      assert host.fromClient.queue == Message(c, before);
      CommandArrives(c, before, r);
      ghost var buf := host.Received();
      ghost var served := Serve(host.cfg, host.drv, host.View(), host.vgpu[..], buf);
      TurnIsStep(c, before, r, host.View(), buf, served);
      HostTurn(c, before, r);
      assert host.toClient.queue == host.response.mdata[..] == served.host.response;
    }

    /** Receive the whole reply and read it at the hook's types; the call is then over but for the hook's own writes. */
    method AwaitReply(c: Call, ghost before: Guest, ghost after: Remoted<D>) returns (code: u32, out: Option<seq<byte>>)
      requires ReplyPending(c, before, after)
      modifies client.response, client.response.mdata, host.toClient
      ensures Idle() && Returned(c, before, after, code, out)
    {
      ReplyAlwaysReadable(c, host.toClient.queue);
      var ok, result, ds := client.WaitRecv(ReplyWires(c), kernel);
      code := result;
      out := if ds != [] && ds[0].Copied? then Some(ds[0].bytes) else None;
    }

    /** A hook's exchange with the host, from the request to the reply. */
    method Remote(c: Call, request: Args, ghost before: Guest, ghost r: Remoted<D>)
      returns (code: u32, out: Option<seq<byte>>)
      requires Idle() && Ready(before, r, c) && request == Request(c, before)
      modifies client.serializer, client.serializer.mdata, client.response, client.response.mdata
      modifies HostParts(), SharedParts()
      ensures Idle() && Returned(c, before, After(r, c), code, out)
      ensures host.clientPinStart == old(host.clientPinStart)
    {
      Exchange(c, request, before, r);
      code, out := AwaitReply(c, before, After(r, c));
    }

    /** The reply is here: what is left of the hook makes the guest match the call's end. */
    ghost predicate Returned(c: Call, before: Guest, after: Remoted<D>, code: u32, out: Option<seq<byte>>)
      reads host, client.response.mdata, client.vgpu
    {
      && HandlesAgree(host.cfg, host.drv, after.app) && host.dev == after.app.dev
      && client.vgpu[..] == after.staging && client.response.Valid()
      && var reply := client.response.mdata[..];
         && |reply| == RESPONSE_SIZE && code == FromLE(reply[..4])
         && Matches(host.cfg, Finish(c, Prepare(host.cfg, c, before), reply, client.vgpu[..]), after.app)
         && AllReadable(reply, AREA, ReplyWires(c))
         && out == if ReplyWires(c) == [] then None else FirstDelivered(reply, ReplyWires(c))
    }

    /** Write through an out-pointer of the application. */
    method Store(at: nat, data: seq<byte>)
      modifies memory
      ensures memory[..] == Write(old(memory[..]), at, Some(data))
    {
      if at + |data| <= memory.Length {
        CopyInto(memory, at, data);
      }
    }

    method CuMemAlloc(dptr: u64, bytesize: u64, ghost r: Remoted<D>) returns (code: u32)
      requires Idle() && Shows(r) && MayCall(r, MemAlloc(dptr, bytesize))
      modifies GuestParts(), HostParts(), SharedParts()
      ensures Idle() && Shows(After(r, MemAlloc(dptr, bytesize)))
      ensures codes == old(codes) + [code] && host.clientPinStart == old(host.clientPinStart)
    {
      hide LE, FromLE, Pow256, Honest, WellFormed, RemoteStep, HandlesAgree;
      var c := MemAlloc(dptr, bytesize);
      ghost var before := View();
      var result, out := Remote(c, Request(c, View()), before, r);
      if out.Some? {
        Store(dptr, out.value);
      }
      code, codes := result, codes + [result];
    }

    method CuMemFree(devptr: u64, ghost r: Remoted<D>) returns (code: u32)
      requires Idle() && Shows(r) && MayCall(r, MemFree(devptr))
      modifies GuestParts(), HostParts(), SharedParts()
      ensures Idle() && Shows(After(r, MemFree(devptr)))
      ensures codes == old(codes) + [code] && host.clientPinStart == old(host.clientPinStart)
    {
      var c := MemFree(devptr);
      ghost var before := View();
      var result, out := Remote(c, Request(c, View()), before, r);
      code, codes := result, codes + [result];
    }

    /** `to_device` as the hook calls it, for a source in memory. */
    method StageSource(c: Call) returns (ok: bool)
      requires client.vgpu.Length == STAGING_SIZE && memory != client.vgpu
      requires c.CopyIn? && c.srcHost + c.count <= memory.Length
      modifies client.vgpu
      ensures ok <==> !Aborts(c)
      ensures client.vgpu[..] == Stage(c, memory[..], old(client.vgpu[..]))
      ensures ok <==> c.count <= 9437184 && c.srcHost != 0
      ensures ok ==> client.vgpu[..c.count] == memory[c.srcHost..c.srcHost + c.count]
      ensures !ok ==> client.vgpu[..] == old(client.vgpu[..])
    {
      ok := client.ToDevice(c.srcHost, Slice(memory[..], c.srcHost, c.count));
      assert ok ==> client.vgpu[..c.count] == client.vgpu[..][0..0 + c.count];
    }

    method CuMemcpyHtoD(dstDevice: u64, srcHost: u64, byteCount: u64, ghost r: Remoted<D>) returns (code: u32)
      requires Idle() && Shows(r) && MayCall(r, CopyIn(dstDevice, srcHost, byteCount))
      modifies GuestParts(), HostParts(), SharedParts()
      ensures Idle() && Shows(After(r, CopyIn(dstDevice, srcHost, byteCount)))
      ensures codes == old(codes) + [code] && host.clientPinStart == old(host.clientPinStart)
    {
      var c := CopyIn(dstDevice, srcHost, byteCount);
      ghost var before := View();
      var staged := StageSource(c);
      var result, out := Remote(c, Request(c, View()), before, r);
      code, codes := result, codes + [result];
    }

    method CuMemcpyDtoH(dstHost: u64, srcDevice: u64, byteCount: u64, ghost r: Remoted<D>) returns (code: u32)
      requires Idle() && Shows(r) && MayCall(r, CopyOut(dstHost, srcDevice, byteCount))
      modifies GuestParts(), HostParts(), SharedParts()
      ensures Idle() && Shows(After(r, CopyOut(dstHost, srcDevice, byteCount)))
      ensures codes == old(codes) + [code] && host.clientPinStart == old(host.clientPinStart)
    {
      var c := CopyOut(dstHost, srcDevice, byteCount);
      ghost var before := View();
      var result, out := Remote(c, Request(c, View()), before, r);
      var data := client.FromDevice(byteCount);
      Store(dstHost, data);
      code, codes := result, codes + [result];
    }

    method ParseShippedFile()
      requires Printed(host.cfg)
      modifies funcProto
      ensures PtxPrototype.Parse(host.cfg.ptx, old(funcProto.hashmap)) == PtxPrototype.Parsed(funcProto.hashmap)
    {
      PrintedIsClosed(host.cfg);
      var file := new PtxPrototype.PtxFile(host.cfg.ptx);
      var ends := funcProto.AddModule(file);
    }

    /** The guest parses the file while the host loads it. */
    method CuModuleLoad(cuModule: u64, fname: string, ghost r: Remoted<D>) returns (code: u32)
      requires Idle() && Shows(r) && MayCall(r, ModuleLoad(cuModule, fname))
      modifies GuestParts(), HostParts(), SharedParts()
      ensures Idle() && Shows(After(r, ModuleLoad(cuModule, fname)))
      ensures codes == old(codes) + [code] && host.clientPinStart == old(host.clientPinStart)
    {
      hide LE, FromLE, Pow256, WellFormed, RemoteStep, HandlesAgree;
      var c := ModuleLoad(cuModule, fname);
      ghost var before := View();
      var request := Request(c, View());
      ParseShippedFile();
      var result, out := Remote(c, request, before, r);
      if out.Some? {
        Store(cuModule, out.value);
      }
      code, codes := result, codes + [result];
    }

    method CuModuleGetFunction(hfunc: u64, hmod: u64, name: string, ghost r: Remoted<D>) returns (code: u32)
      requires Idle() && Shows(r) && MayCall(r, GetFunction(hfunc, hmod, name))
      modifies GuestParts(), HostParts(), SharedParts()
      ensures Idle() && Shows(After(r, GetFunction(hfunc, hmod, name)))
      ensures codes == old(codes) + [code] && host.clientPinStart == old(host.clientPinStart)
    {
      hide LE, FromLE, Pow256, Honest, WellFormed, RemoteStep, HandlesAgree;
      var c := GetFunction(hfunc, hmod, name);
      ghost var before := View();
      var result, out := Remote(c, Request(c, View()), before, r);
      var handle := client.response.Scalar();
      Store(hfunc, LE(8, handle));
      hashfunc := hashfunc[handle := name];
      code, codes := result, codes + [result];
    }

    /** Every argument is widened to 8 bytes, whatever the kernel declares. */
    method WidenArguments(kernelParams: u64, count: nat) returns (scalars: seq<u64>)
      ensures scalars == ScalarArgs(memory[..], kernelParams, count)
      // word i holds the 8 bytes of the variable that pointer i leads to
      ensures forall i: nat, p: u64 ::
                i < count && kernelParams + 8 * i + 8 <= memory.Length && p + 8 <= memory.Length
                && memory[kernelParams + 8 * i..kernelParams + 8 * i + 8] == LE(8, p)
                ==> LE(8, scalars[i]) == memory[p..p + 8]
    {
      scalars := [];
      for i := 0 to count
        invariant scalars == ScalarArgs(memory[..], kernelParams, i)
      {
        var at := ParamAddress(memory[..], kernelParams, i);
        scalars := scalars + [if at + 8 <= memory.Length then ReadU64(memory[..], at) else 0];
      }
      ghost var mem := memory[..];
      forall i: nat, p: u64 | i < count && kernelParams + 8 * i + 8 <= |mem| && p + 8 <= |mem|
          && mem[kernelParams + 8 * i..kernelParams + 8 * i + 8] == LE(8, p)
        ensures LE(8, scalars[i]) == mem[p..p + 8]
      {
        ScalarShowsVariable(mem, kernelParams, count, i, p);
      }
    }

    method CuLaunchKernel(f: u64, geometry: Geometry, kernelParams: u64, extra: u64, ghost r: Remoted<D>)
      returns (code: u32)
      requires Idle() && Shows(r) && MayCall(r, LaunchKernel(f, geometry, kernelParams, extra))
      modifies GuestParts(), HostParts(), SharedParts()
      ensures Idle() && Shows(After(r, LaunchKernel(f, geometry, kernelParams, extra)))
      ensures codes == old(codes) + [code] && host.clientPinStart == old(host.clientPinStart)
    {
      hide LE, FromLE, Pow256, Honest, WellFormed, RemoteStep, HandlesAgree;
      var c := LaunchKernel(f, geometry, kernelParams, extra);
      ghost var before := View();
      var name := if f in hashfunc then hashfunc[f] else "";
      hashfunc := hashfunc[f := name];
      var paramTypes := funcProto.GetParams(name);
      var scalars := WidenArguments(kernelParams, |paramTypes|);
      var request := Cons(CStr(Ascii("cuLaunchKernel")),
                     Cons(Tuple(Fields(LaunchFields(f, geometry, kernelParams, extra))),
                     Cons(Words(scalars), Nil)));
      var result, out := Remote(c, request, before, r);
      code, codes := result, codes + [result];
    }

    lemma RunUnfolds(program: Program, r: Remoted<D>, k: nat, next: Option<Call>)
      requires var now := RemoteRun(host.drv, host.stack, program, r, k);
               next == program(now.app.mem, now.app.codes)
      ensures RemoteRun(host.drv, host.stack, program, r, k + 1)
           == var now := RemoteRun(host.drv, host.stack, program, r, k);
              if next.Some? then After(now, next.value) else now
    {
    }

    /**
     * An application of any number of calls, each chosen from what it has seen: at the end its memory, its
     * results, its handles, the device and staging are those of the remoted run, and so those of the direct run
     * if every call was transparent.
     */
    method RunApplication(program: Program, n: nat, ghost r: Remoted<D>)
      requires Idle() && Shows(r) && |r.staging| == STAGING_SIZE
      requires forall k: nat :: k < n ==>
                 NextWellFormed(host.cfg, host.drv, host.clientPinStart, program,
                                RemoteRun(host.drv, host.stack, program, r, k).app)
      modifies GuestParts(), HostParts(), SharedParts()
      ensures Idle() && Shows(RemoteRun(host.drv, host.stack, program, r, n))
      ensures TransparentBelow(host.drv, host.stack, program, r.app, r.staging, n) ==>
                Shows(Remoted(DirectRun(host.drv, program, r.app, n),
                              StagingRun(host.drv, program, r.app, r.staging, n)))
    {
      for k := 0 to n
        invariant Idle() && host.clientPinStart == old(host.clientPinStart)
        invariant Shows(RemoteRun(host.drv, host.stack, program, r, k))
      {
        ghost var now := RemoteRun(host.drv, host.stack, program, r, k);
        assert NextWellFormed(host.cfg, host.drv, host.clientPinStart, program, now.app);
        var next := program(memory[..], codes);
        RunUnfolds(program, r, k, next);
        if next.Some? {
          var code := Call(next.value, now);
        }
      }
      if TransparentBelow(host.drv, host.stack, program, r.app, r.staging, n) {
        TransparentRun(host.drv, host.stack, program, r.app, r.staging, n);
        assert r == Remoted(r.app, r.staging);
      }
    }

    /** The application's call, through its hook. */
    method Call(c: Call, ghost r: Remoted<D>) returns (code: u32)
      requires Idle() && Shows(r) && MayCall(r, c)
      modifies GuestParts(), HostParts(), SharedParts()
      ensures Idle() && Shows(After(r, c))
      ensures codes == old(codes) + [code] && host.clientPinStart == old(host.clientPinStart)
    {
      match c
      case MemAlloc(dptr, bytesize) => code := CuMemAlloc(dptr, bytesize, r);
      case MemFree(devptr) => code := CuMemFree(devptr, r);
      case CopyIn(dst, src, count) => code := CuMemcpyHtoD(dst, src, count, r);
      case CopyOut(dst, src, count) => code := CuMemcpyDtoH(dst, src, count, r);
      case ModuleLoad(module_, path) => code := CuModuleLoad(module_, path, r);
      case GetFunction(hfunc, hmod, name) => code := CuModuleGetFunction(hfunc, hmod, name, r);
      case LaunchKernel(f, geometry, kernelParams, extra) =>
        code := CuLaunchKernel(f, geometry, kernelParams, extra, r);
    }
  }
}
