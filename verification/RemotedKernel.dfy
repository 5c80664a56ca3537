/**
 * The whole path joined to the kernel: an application copies two arrays in, launches the shipped `vectorAdd` and
 * copies the result out, and finds the sums in its own memory.
 */
module RemotedKernel {
  import opened Bytes
  import opened Driver
  import opened RequestCodec
  import opened Protocol
  import opened Remoting
  import opened Transparency
  import opened Machine
  import opened Refinement
  import PtxPrototype
  import VectorAdd

  // ---------- the launch ----------

  /** The widths of .u64, .u64, .u64, .u32. */
  const VECTOR_ADD_WIDTHS: seq<nat> := [8, 8, 8, 4]

  /** What `ld.param` sees of the parameters that the driver read. */
  function KernelOf(params: seq<seq<byte>>, g: Geometry): VectorAdd.Launch
    requires |params| == 4 && |params[0]| == |params[1]| == |params[2]| == 8 && |params[3]| == 4
  {
    Pow256Of8();
    VectorAdd.Launch(FromLE(params[0]), FromLE(params[1]), FromLE(params[2]), FromLE(params[3]), g.gridX, g.blockX)
  }

  /** The C variable behind `kernelParams[i]`, read at its own width. */
  function Argument(mem: seq<byte>, kernelParams: u64, i: nat, width: nat): seq<byte> {
    Slice(mem, ParamAddress(mem, kernelParams, i), width)
  }

  predicate ArgumentsInMemory(mem: seq<byte>, kernelParams: u64) {
    forall i :: 0 <= i < 4 ==> ParamAddress(mem, kernelParams, i) + 8 <= |mem|
  }

  /** The kernel that the application asks for: its own pointers and count, on its own grid. */
  function KernelAsked(mem: seq<byte>, kernelParams: u64, g: Geometry): VectorAdd.Launch
    requires ArgumentsInMemory(mem, kernelParams)
  {
    KernelOf([Argument(mem, kernelParams, 0, 8), Argument(mem, kernelParams, 1, 8),
              Argument(mem, kernelParams, 2, 8), Argument(mem, kernelParams, 3, 4)], g)
  }

  /** In terms of memory alone: the pointers and the count in the variables that the pointer array leads to. */
  lemma KernelAskedMeans(mem: seq<byte>, kernelParams: u64, g: Geometry, at: seq<u64>, a: u64, b: u64, c: u64, n: u32)
    requires |at| == 4 && kernelParams + 32 <= |mem| && forall i :: 0 <= i < 4 ==> at[i] + 8 <= |mem|
    requires forall i: nat :: i < 4 ==> mem[kernelParams + 8 * i..kernelParams + 8 * i + 8] == LE(8, at[i])
    requires mem[at[0]..at[0] + 8] == LE(8, a) && mem[at[1]..at[1] + 8] == LE(8, b)
    requires mem[at[2]..at[2] + 8] == LE(8, c) && mem[at[3]..at[3] + 4] == LE(4, n)
    ensures ArgumentsInMemory(mem, kernelParams)
    ensures KernelAsked(mem, kernelParams, g) == VectorAdd.Launch(a, b, c, n, g.gridX, g.blockX)
  {
    hide LE, FromLE, Pow256, ParamAddress;
    forall i: nat | i < 4
      ensures ParamAddress(mem, kernelParams, i) == at[i]
    {
      ParamAddressRead(mem, kernelParams, i, at[i]);
    }
    Pow256Of8();
    FromLEOfLE(8, a);
    FromLEOfLE(8, b);
    FromLEOfLE(8, c);
    FromLEOfLE(4, n);
  }

  /** A driver call that launches kernel `f` with the parameters of `k`. */
  predicate AsksFor(call: DriverCall, f: u64, k: VectorAdd.Launch) {
    && call.Launch? && call.f == f
    && |call.params| == 4 && |call.params[0]| == |call.params[1]| == |call.params[2]| == 8 && |call.params[3]| == 4
    && KernelOf(call.params, call.geometry) == k
  }

  /** The shipped file was printed from the shipped module, amid any plain lines. */
  predicate ShipsVectorAdd(cfg: Config) {
    |cfg.origin.sections| == 1 && cfg.origin.sections[0].kernel == PtxPrototype.VECTOR_ADD
  }

  /** Behind a handle obtained for "vectorAdd" the driver reads three 8-byte parameters and one of 4. */
  lemma HandleHasWidths<D(!new)>(cfg: Config, drv: Driver<D>, s: Direct<D>, f: u64)
    requires Honest(cfg, drv) && ShipsVectorAdd(cfg) && HandlesAgree(cfg, drv, s)
    requires f != 0 && f in s.handles && s.handles[f] == "vectorAdd"
    ensures drv.signature(f) == VECTOR_ADD_WIDTHS
  {
    var section := cfg.origin.sections[0];
    assert cfg.origin.sections == [PtxPrototype.Section(section.before, PtxPrototype.VECTOR_ADD)];
    PtxPrototype.ShippedPrototype(section.before, cfg.origin.after);
    PtxPrototype.ShippedTypes();
  }

  /** The parameters of the direct call, as `ld.param` sees them, are the application's variables. */
  lemma DirectCallAsksKernel<D>(drv: Driver<D>, c: Call, mem: seq<byte>)
    requires c.LaunchKernel? && drv.signature(c.f) == VECTOR_ADD_WIDTHS && ArgumentsInMemory(mem, c.kernelParams)
    ensures AsksFor(Resolve(drv, c, mem), c.f, KernelAsked(mem, c.kernelParams, c.geometry))
  {
    var params := Resolve(drv, c, mem).params;
    assert params == [Argument(mem, c.kernelParams, 0, 8), Argument(mem, c.kernelParams, 1, 8),
                      Argument(mem, c.kernelParams, 2, 8), Argument(mem, c.kernelParams, 3, 4)];
  }

  // ---------- a device with global memory ----------

  /** Number `i` of the 4-byte floats in `data`, as its bit pattern. */
  function Float(data: seq<byte>, i: nat): u32 {
    Pow256Of8();
    if 4 * i + 4 <= |data| then FromLE(data[4 * i..4 * i + 4]) else 0
  }

  /** The float is the four bytes at its place, the lowest first. */
  lemma FloatBytes(data: seq<byte>, i: nat)
    requires 4 * i + 4 <= |data|
    ensures LE(4, Float(data, i)) == data[4 * i..4 * i + 4]
  {
    LEOfFromLE(data[4 * i..4 * i + 4]);
  }

  /** Copying in fills the range with the floats and leaves every other address as it was. */
  ghost predicate CopiedIn(before: VectorAdd.Memory, after: VectorAdd.Memory, dst: u64, data: seq<byte>) {
    && dst + |data| <= TWO_TO_THE_64
    && (forall i: nat {:trigger Float(data, i)} :: 4 * i + 4 <= |data| ==>
          VectorAdd.Load(after, dst + 4 * i) == Float(data, i))
    && (forall at: u64 :: !(dst <= at < dst + |data|) ==> VectorAdd.Load(after, at) == VectorAdd.Load(before, at))
  }

  /** Copying out brings the floats of the range. */
  ghost predicate CopiedOut(dev: VectorAdd.Memory, src: u64, data: seq<byte>) {
    && src + |data| <= TWO_TO_THE_64
    && forall i: nat {:trigger Float(data, i)} :: 4 * i + 4 <= |data| ==>
         Float(data, i) == VectorAdd.Load(dev, src + 4 * i)
  }

  /** N and T positive with N + T - 1 < 2^31, ceil(N / T) blocks, and the output apart from the inputs. */
  ghost predicate Launchable(k: VectorAdd.Launch) {
    && 0 < k.n && 0 < k.blockSize && k.n + k.blockSize - 1 < TWO_TO_THE_31
    && k.blocks == VectorAdd.GridSize(k.n, k.blockSize)
    && VectorAdd.ArraysApart(k)
  }

  /** An interleaving of the grid that gives every thread its turns. */
  ghost predicate Fair(k: VectorAdd.Launch, start: VectorAdd.State, schedule: seq<VectorAdd.Tid>) {
    VectorAdd.Started(k, start)
    && forall t :: VectorAdd.InGrid(k, t) ==> VectorAdd.Turns(schedule, t) >= VectorAdd.LENGTH
  }

  /** The device ran the kernel: some fair interleaving of its threads leads from one memory to the other. */
  ghost predicate Ran(k: VectorAdd.Launch, add: VectorAdd.FloatAdd, before: VectorAdd.Memory, after: VectorAdd.Memory) {
    exists start: VectorAdd.State, schedule: seq<VectorAdd.Tid> ::
      && Fair(k, start, schedule) && start.memory == before
      && after == VectorAdd.Play(k, add, start, schedule).memory
  }

  /** What a driver call that succeeds does to the device. */
  ghost predicate Does(add: VectorAdd.FloatAdd, f: u64, dev: VectorAdd.Memory, call: DriverCall,
                       o: Outcome<VectorAdd.Memory>) {
    match call
    case HtoD(dst, data) => dst % 4 == 0 ==> CopiedIn(dev, o.state, dst, data)
    case DtoH(src, count) => o.state == dev && o.out.Some? && (src % 4 == 0 ==> CopiedOut(dev, src, o.out.value))
    case Load(_) => o.state == dev
    case GetFn(_, _) => o.state == dev && o.out.Some?
    case _ => forall k :: AsksFor(call, f, k) && Launchable(k) ==> Ran(k, add, dev, o.state)
  }

  /** A GPU behind the driver, with `vectorAdd` behind handle `f`; any call may also fail, in any way. */
  ghost predicate Gpu(drv: Driver<VectorAdd.Memory>, add: VectorAdd.FloatAdd, f: u64) {
    forall dev, call :: drv.run(dev, call).code == SUCCESS ==> Does(add, f, dev, call, drv.run(dev, call))
  }

  /** The output holds the sums of what the inputs held, and every other address what it held. */
  ghost predicate HoldsSums(k: VectorAdd.Launch, add: VectorAdd.FloatAdd, before: VectorAdd.Memory,
                            after: VectorAdd.Memory)
    requires VectorAdd.ArraysApart(k)
  {
    && (forall i :: 0 <= i < k.n ==> VectorAdd.Load(after, VectorAdd.Cell(k, i)) == VectorAdd.Sum(k, add, before, i))
    && (forall at :: !VectorAdd.IsCell(k, at) ==> VectorAdd.Load(after, at) == VectorAdd.Load(before, at))
  }

  /** A launch on the callers' grid leaves the sums, in whatever way the threads interleave. */
  lemma KernelSums(k: VectorAdd.Launch, add: VectorAdd.FloatAdd, before: VectorAdd.Memory, after: VectorAdd.Memory)
    requires Launchable(k) && Ran(k, add, before, after)
    ensures HoldsSums(k, add, before, after)
  {
    var start: VectorAdd.State, schedule: seq<VectorAdd.Tid> :|
      && Fair(k, start, schedule) && start.memory == before
      && after == VectorAdd.Play(k, add, start, schedule).memory;
    VectorAdd.CallersGridIsSafe(k);
    VectorAdd.VectorAddCorrect(k, add, start, schedule);
  }

  /**
   * A remoted launch: if it reports success, the host's device holds the sums that the application asked for, of
   * its own pointers and count, and is otherwise unchanged.
   */
  lemma RemotedVectorAdd(cfg: Config, drv: Driver<VectorAdd.Memory>, add: VectorAdd.FloatAdd,
                         g: Guest, r: Remoted<VectorAdd.Memory>, h: Host<VectorAdd.Memory>, c: Call, buf: seq<byte>)
    requires Honest(cfg, drv) && ShipsVectorAdd(cfg) && Between(cfg, drv, g, r, h)
    requires WellFormed(cfg, drv, h.clientPinStart, r.app, c) && Holds(buf, 0, Message(c, g))
    requires c.LaunchKernel? && Gpu(drv, add, c.f) && r.app.handles[c.f] == "vectorAdd"
    requires ArgumentsInMemory(r.app.mem, c.kernelParams)
    requires Launchable(KernelAsked(r.app.mem, c.kernelParams, c.geometry))
    ensures var served := Serve(cfg, drv, h, Stage(c, r.app.mem, r.staging), buf);
            var code := Finish(c, Prepare(cfg, c, g), served.host.response, served.staging).codes[|g.codes|];
            code == SUCCESS ==>
              HoldsSums(KernelAsked(r.app.mem, c.kernelParams, c.geometry), add, h.dev, served.host.dev)
  {
    hide Serve, Finish, Prepare, Message, Stage, Honest, WellFormed, Holds, Launchable, HoldsSums, KernelAsked, Resolve;
    CallIsRemoteStep(cfg, drv, g, r, h, c, buf);
    LaunchIsWellFormed(cfg, drv, h.clientPinStart, r.app, c);
    if CodeOf(drv, r, c) == SUCCESS {
      LaunchSums(cfg, drv, add, h.stack, r, c);
    }
  }

  lemma LaunchIsWellFormed<D>(cfg: Config, drv: Driver<D>, pin: u64, s: Direct<D>, c: Call)
    requires c.LaunchKernel? && WellFormed(cfg, drv, pin, s, c)
    ensures c.f != 0 && c.f in s.handles
  {
  }

  // ---------- one call of a run ----------

  /** The result code of the call that comes after `r`. */
  function CodeOf<D>(drv: Driver<D>, r: Remoted<D>, c: Call): u32 {
    drv.run(r.app.dev, Resolve(drv, c, r.app.mem)).code
  }

  /** A call without an out-pointer changes the device and adds a result, and nothing else that is visible. */
  lemma QuietStep<D(!new)>(drv: Driver<D>, stack: u64, r: Remoted<D>, c: Call)
    requires Lawful(drv) && (c.CopyIn? || c.LaunchKernel?)
    ensures var next := RemoteStep(drv, stack, r, c).app;
            && next.mem == r.app.mem && next.handles == r.app.handles && next.codes == r.app.codes + [CodeOf(drv, r, c)]
            && next.dev == drv.run(r.app.dev, Resolve(drv, c, r.app.mem)).state
  {
    var out := drv.run(r.app.dev, Resolve(drv, c, r.app.mem)).out;
    assert RemoteOut(stack, c, r.staging, out) == [] by {
      assert out.Some? ==> |out.value| == 0;
    }
    NothingWritten(r.app.mem, OutAddress(c));
  }

  lemma LaunchSums(cfg: Config, drv: Driver<VectorAdd.Memory>, add: VectorAdd.FloatAdd, stack: u64,
                   r: Remoted<VectorAdd.Memory>, c: Call)
    requires Honest(cfg, drv) && ShipsVectorAdd(cfg) && HandlesAgree(cfg, drv, r.app)
    requires c.LaunchKernel? && Gpu(drv, add, c.f)
    requires c.f != 0 && c.f in r.app.handles && r.app.handles[c.f] == "vectorAdd"
    requires ArgumentsInMemory(r.app.mem, c.kernelParams)
    requires Launchable(KernelAsked(r.app.mem, c.kernelParams, c.geometry)) && CodeOf(drv, r, c) == SUCCESS
    ensures HoldsSums(KernelAsked(r.app.mem, c.kernelParams, c.geometry), add, r.app.dev,
                      RemoteStep(drv, stack, r, c).app.dev)
  {
    hide KernelOf, KernelAsked, Launchable, HoldsSums, Ran;
    var k, call := KernelAsked(r.app.mem, c.kernelParams, c.geometry), Resolve(drv, c, r.app.mem);
    HandleHasWidths(cfg, drv, r.app, c.f);
    DirectCallAsksKernel(drv, c, r.app.mem);
    assert Does(add, c.f, r.app.dev, call, drv.run(r.app.dev, call));
    KernelSums(k, add, r.app.dev, drv.run(r.app.dev, call).state);
  }

  lemma CopyInFills(drv: Driver<VectorAdd.Memory>, add: VectorAdd.FloatAdd, f: u64, stack: u64,
                    r: Remoted<VectorAdd.Memory>, c: Call)
    requires Gpu(drv, add, f) && c.CopyIn? && c.dst % 4 == 0 && CodeOf(drv, r, c) == SUCCESS
    ensures CopiedIn(r.app.dev, RemoteStep(drv, stack, r, c).app.dev, c.dst, Slice(r.app.mem, c.srcHost, c.count))
  {
    hide CopiedIn;
    var call := Resolve(drv, c, r.app.mem);
    assert Does(add, f, r.app.dev, call, drv.run(r.app.dev, call));
  }

  lemma CopyOutBrings(drv: Driver<VectorAdd.Memory>, add: VectorAdd.FloatAdd, f: u64, stack: u64,
                      r: Remoted<VectorAdd.Memory>, c: Call)
    requires Lawful(drv) && Gpu(drv, add, f) && c.CopyOut? && c.src % 4 == 0 && CodeOf(drv, r, c) == SUCCESS
    requires c.dstHost + c.count <= |r.app.mem|
    ensures var next := RemoteStep(drv, stack, r, c).app;
            && |Slice(next.mem, c.dstHost, c.count)| == c.count
            && CopiedOut(r.app.dev, c.src, Slice(next.mem, c.dstHost, c.count))
            && next.codes == r.app.codes + [CodeOf(drv, r, c)]
  {
    hide CopiedOut;
    var call := Resolve(drv, c, r.app.mem);
    var o := drv.run(r.app.dev, call);
    assert Does(add, f, r.app.dev, call, o);
    assert Slice(Write(r.app.mem, c.dstHost, o.out), c.dstHost, c.count) == o.out.value;
  }

  lemma LoadLeavesDevice(drv: Driver<VectorAdd.Memory>, add: VectorAdd.FloatAdd, f: u64, stack: u64,
                         r: Remoted<VectorAdd.Memory>, c: Call)
    requires Gpu(drv, add, f) && c.ModuleLoad? && CodeOf(drv, r, c) == SUCCESS
    ensures var next := RemoteStep(drv, stack, r, c).app;
            next.dev == r.app.dev && next.codes == r.app.codes + [CodeOf(drv, r, c)]
  {
    var call := Resolve(drv, c, r.app.mem);
    assert Does(add, f, r.app.dev, call, drv.run(r.app.dev, call));
  }

  /** A lookup that succeeds leaves the handle in the application's variable, indexed under its name. */
  lemma LookupFinds(drv: Driver<VectorAdd.Memory>, add: VectorAdd.FloatAdd, f: u64, stack: u64,
                    r: Remoted<VectorAdd.Memory>, c: Call)
    requires Lawful(drv) && Gpu(drv, add, f) && c.GetFunction? && CodeOf(drv, r, c) == SUCCESS
    requires c.hfunc + 8 <= |r.app.mem|
    ensures var next := RemoteStep(drv, stack, r, c).app;
            && next.dev == r.app.dev && next.codes == r.app.codes + [CodeOf(drv, r, c)]
            && |next.mem| == |r.app.mem|
            && var handle := ReadU64(next.mem, c.hfunc);
               handle in next.handles && next.handles[handle] == c.name
  {
    hide FromLE, Pow256;
    var call := Resolve(drv, c, r.app.mem);
    var out := drv.run(r.app.dev, call).out;
    assert Does(add, f, r.app.dev, call, drv.run(r.app.dev, call));
    assert Splice(r.app.mem, c.hfunc, out.value)[c.hfunc..c.hfunc + 8] == out.value == out.value[0..8];
  }

  // ---------- the whole application ----------

  /** The calls of the application: copy A and B in, load the module, look the kernel up, launch, copy C out. */
  datatype Job = Job(inA: Call, inB: Call, load: Call, lookup: Call, launch: Call, out: Call)

  predicate WellTyped(job: Job) {
    && job.inA.CopyIn? && job.inB.CopyIn? && job.load.ModuleLoad? && job.lookup.GetFunction?
    && job.launch.LaunchKernel? && job.out.CopyOut?
  }

  /**
   * What the text of such an application says, given its memory at the copies and at the launch: it launches the
   * function that it looked up, on the arrays that it copied, and copies as much back.
   */
  ghost predicate AddsVectors(job: Job, start: seq<byte>, mem: seq<byte>)
    requires WellTyped(job)
  {
    && job.lookup.name == "vectorAdd" && job.lookup.hfunc + 8 <= |mem| == |start|
    && job.launch.f == ReadU64(mem, job.lookup.hfunc)
    && ArgumentsInMemory(mem, job.launch.kernelParams)
    && var k := KernelAsked(mem, job.launch.kernelParams, job.launch.geometry);
       && Launchable(k) && (k.b + 4 * k.n <= k.a || k.a + 4 * k.n <= k.b)
       && job.inA.dst == k.a && job.inB.dst == k.b && job.out.src == k.c
       && job.inA.count == job.inB.count == job.out.count == 4 * k.n
       && job.inA.srcHost + 4 * k.n <= |start| && job.inB.srcHost + 4 * k.n <= |start|
       && job.out.dstHost + 4 * k.n <= |start|
  }

  /** The arrays that the application adds, and the one it gets back. */
  ghost predicate Sums(add: VectorAdd.FloatAdd, n: nat, a: seq<byte>, b: seq<byte>, c: seq<byte>) {
    forall i :: 0 <= i < n ==> Float(c, i) == add(Float(a, i), Float(b, i))
  }

  /** From the four device states: what comes out is the sum of what went in. */
  lemma SumsComeOut(k: VectorAdd.Launch, add: VectorAdd.FloatAdd, a: seq<byte>, b: seq<byte>, c: seq<byte>,
                    d0: VectorAdd.Memory, d1: VectorAdd.Memory, d2: VectorAdd.Memory, d3: VectorAdd.Memory)
    requires VectorAdd.ArraysApart(k) && (k.b + 4 * k.n <= k.a || k.a + 4 * k.n <= k.b)
    requires |a| == |b| == |c| == 4 * k.n
    requires CopiedIn(d0, d1, k.a, a) && CopiedIn(d1, d2, k.b, b) && HoldsSums(k, add, d2, d3) && CopiedOut(d3, k.c, c)
    ensures Sums(add, k.n, a, b, c)
  {
    hide Float, VectorAdd.IsCell, VectorAdd.Load;
    forall i | 0 <= i < k.n
      ensures Float(c, i) == add(Float(a, i), Float(b, i))
    {
      assert Float(c, i) == VectorAdd.Load(d3, VectorAdd.Cell(k, i)) == VectorAdd.Sum(k, add, d2, i);
      assert VectorAdd.Load(d2, k.b + 4 * i) == Float(b, i);
      assert VectorAdd.Load(d2, k.a + 4 * i) == VectorAdd.Load(d1, k.a + 4 * i) == Float(a, i);
    }
  }

  /** The remoted run from before the job, `rs[0]`, to after each of its calls. */
  ghost predicate JobRun<D(!new)>(drv: Driver<D>, stack: u64, job: Job, rs: seq<Remoted<D>>) {
    && |rs| == 7
    && rs[1] == RemoteStep(drv, stack, rs[0], job.inA) && rs[2] == RemoteStep(drv, stack, rs[1], job.inB)
    && rs[3] == RemoteStep(drv, stack, rs[2], job.load) && rs[4] == RemoteStep(drv, stack, rs[3], job.lookup)
    && rs[5] == RemoteStep(drv, stack, rs[4], job.launch) && rs[6] == RemoteStep(drv, stack, rs[5], job.out)
  }

  /** The results of the job's calls. */
  function CodesOf<D>(drv: Driver<D>, job: Job, rs: seq<Remoted<D>>): seq<u32>
    requires |rs| == 7
  {
    [CodeOf(drv, rs[0], job.inA), CodeOf(drv, rs[1], job.inB), CodeOf(drv, rs[2], job.load),
     CodeOf(drv, rs[3], job.lookup), CodeOf(drv, rs[4], job.launch), CodeOf(drv, rs[5], job.out)]
  }

  const ALL_SUCCEED: seq<u32> := [SUCCESS, SUCCESS, SUCCESS, SUCCESS, SUCCESS, SUCCESS]

  lemma StepAddsCode<D>(drv: Driver<D>, stack: u64, r: Remoted<D>, c: Call)
    ensures RemoteStep(drv, stack, r, c).app.codes == r.app.codes + [CodeOf(drv, r, c)]
    ensures |RemoteStep(drv, stack, r, c).app.mem| == |r.app.mem|
  {
  }

  /** Every call of the job adds its result. */
  lemma JobAddsCodes<D(!new)>(drv: Driver<D>, stack: u64, job: Job, rs: seq<Remoted<D>>)
    requires JobRun(drv, stack, job, rs)
    ensures rs[6].app.codes == rs[0].app.codes + CodesOf(drv, job, rs)
    ensures |rs[3].app.mem| == |rs[4].app.mem| == |rs[5].app.mem| == |rs[0].app.mem|
  {
    hide RemoteStep, CodeOf;
    StepAddsCode(drv, stack, rs[0], job.inA);
    StepAddsCode(drv, stack, rs[1], job.inB);
    StepAddsCode(drv, stack, rs[2], job.load);
    StepAddsCode(drv, stack, rs[3], job.lookup);
    StepAddsCode(drv, stack, rs[4], job.launch);
    StepAddsCode(drv, stack, rs[5], job.out);
  }

  /** The four device states around the copies and the launch, if every call succeeds. */
  lemma JobDevices(cfg: Config, drv: Driver<VectorAdd.Memory>, add: VectorAdd.FloatAdd, stack: u64, job: Job,
                   rs: seq<Remoted<VectorAdd.Memory>>)
    requires Honest(cfg, drv) && ShipsVectorAdd(cfg) && WellTyped(job) && Gpu(drv, add, job.launch.f)
    requires JobRun(drv, stack, job, rs) && AddsVectors(job, rs[0].app.mem, rs[4].app.mem)
    requires CodesOf(drv, job, rs) == ALL_SUCCEED
    requires HandlesAgree(cfg, drv, rs[4].app) && job.launch.f != 0
    ensures var k := KernelAsked(rs[4].app.mem, job.launch.kernelParams, job.launch.geometry);
            var mem := rs[0].app.mem;
            && CopiedIn(rs[0].app.dev, rs[1].app.dev, k.a, Slice(mem, job.inA.srcHost, 4 * k.n))
            && CopiedIn(rs[1].app.dev, rs[4].app.dev, k.b, Slice(mem, job.inB.srcHost, 4 * k.n))
            && HoldsSums(k, add, rs[4].app.dev, rs[5].app.dev)
            && |Slice(rs[6].app.mem, job.out.dstHost, 4 * k.n)| == 4 * k.n
            && CopiedOut(rs[5].app.dev, k.c, Slice(rs[6].app.mem, job.out.dstHost, 4 * k.n))
  {
    hide KernelOf, KernelAsked, HoldsSums, CopiedIn, CopiedOut, Honest, HandlesAgree, ShipsVectorAdd, Gpu, RemoteStep,
         CodeOf, VectorAdd.GridSize, ReadU64;
    var f := job.launch.f;
    assert CodesOf(drv, job, rs)[0] == CodesOf(drv, job, rs)[1] == CodesOf(drv, job, rs)[2]
        == CodesOf(drv, job, rs)[3] == CodesOf(drv, job, rs)[4] == CodesOf(drv, job, rs)[5] == SUCCESS;
    HonestIsLawful(cfg, drv);
    JobAddsCodes(drv, stack, job, rs);
    QuietStep(drv, stack, rs[0], job.inA);
    CopyInFills(drv, add, f, stack, rs[0], job.inA);
    CopyInFills(drv, add, f, stack, rs[1], job.inB);
    LoadLeavesDevice(drv, add, f, stack, rs[2], job.load);
    LookupFinds(drv, add, f, stack, rs[3], job.lookup);
    LaunchSums(cfg, drv, add, stack, rs[4], job.launch);
    CopyOutBrings(drv, add, f, stack, rs[5], job.out);
  }

  /** If every call succeeds, the sums of the arrays that were copied in come out. */
  lemma JobAdds(cfg: Config, drv: Driver<VectorAdd.Memory>, add: VectorAdd.FloatAdd, stack: u64, job: Job,
                rs: seq<Remoted<VectorAdd.Memory>>)
    requires Honest(cfg, drv) && ShipsVectorAdd(cfg) && WellTyped(job) && Gpu(drv, add, job.launch.f)
    requires |rs| == 7 && JobRun(drv, stack, job, rs) && AddsVectors(job, rs[0].app.mem, rs[4].app.mem)
    requires CodesOf(drv, job, rs) == ALL_SUCCEED
    requires HandlesAgree(cfg, drv, rs[4].app) && job.launch.f != 0
    ensures var n := KernelAsked(rs[4].app.mem, job.launch.kernelParams, job.launch.geometry).n;
            Sums(add, n, Slice(rs[0].app.mem, job.inA.srcHost, 4 * n), Slice(rs[0].app.mem, job.inB.srcHost, 4 * n),
                 Slice(rs[6].app.mem, job.out.dstHost, 4 * n))
  {
    hide KernelOf, KernelAsked, HoldsSums, CopiedIn, CopiedOut, Honest, HandlesAgree, ShipsVectorAdd, Gpu, RemoteStep,
         CodeOf, Sums, VectorAdd.GridSize, JobRun, CodesOf;
    var mem := rs[0].app.mem;
    var k := KernelAsked(rs[4].app.mem, job.launch.kernelParams, job.launch.geometry);
    JobDevices(cfg, drv, add, stack, job, rs);
    SumsComeOut(k, add, Slice(mem, job.inA.srcHost, 4 * k.n), Slice(mem, job.inB.srcHost, 4 * k.n),
                Slice(rs[6].app.mem, job.out.dstHost, 4 * k.n),
                rs[0].app.dev, rs[1].app.dev, rs[4].app.dev, rs[5].app.dev);
  }

  lemma HonestIsLawful<D(!new)>(cfg: Config, drv: Driver<D>)
    requires Honest(cfg, drv)
    ensures Lawful(drv)
  {
  }

  /** Calls number `n` to `n + 5` of a remoted run are the job. */
  predicate RunsJob<D>(drv: Driver<D>, stack: u64, program: Program, r0: Remoted<D>, n: nat, job: Job) {
    && Calls(drv, stack, program, r0, n, job.inA) && Calls(drv, stack, program, r0, n + 1, job.inB)
    && Calls(drv, stack, program, r0, n + 2, job.load) && Calls(drv, stack, program, r0, n + 3, job.lookup)
    && Calls(drv, stack, program, r0, n + 4, job.launch) && Calls(drv, stack, program, r0, n + 5, job.out)
  }

  function Points<D>(drv: Driver<D>, stack: u64, program: Program, r0: Remoted<D>, n: nat): (rs: seq<Remoted<D>>)
    ensures |rs| == 7 && forall i :: 0 <= i < 7 ==> rs[i] == RemoteRun(drv, stack, program, r0, n + i)
  {
    seq(7, i requires 0 <= i < 7 => RemoteRun(drv, stack, program, r0, n + i))
  }

  lemma JobUnfolds<D(!new)>(drv: Driver<D>, stack: u64, program: Program, r0: Remoted<D>, n: nat, job: Job)
    requires RunsJob(drv, stack, program, r0, n, job)
    ensures JobRun(drv, stack, job, Points(drv, stack, program, r0, n))
  {
    hide RemoteRun, RemoteStep, Points;
    CallStep(drv, stack, program, r0, n, job.inA);
    CallStep(drv, stack, program, r0, n + 1, job.inB);
    CallStep(drv, stack, program, r0, n + 2, job.load);
    CallStep(drv, stack, program, r0, n + 3, job.lookup);
    CallStep(drv, stack, program, r0, n + 4, job.launch);
    CallStep(drv, stack, program, r0, n + 5, job.out);
  }

  /** What the setting gives at the launch. */
  lemma RunFacts<D(!new)>(cfg: Config, drv: Driver<D>, pin: u64, program: Program, s: System<D>, r0: Remoted<D>,
                          n: nat, job: Job)
    requires Initial(cfg, drv, pin, s, r0) && Setting(cfg, drv, pin, s.host.stack, program, r0, n + 5)
    requires RunsJob(drv, s.host.stack, program, r0, n, job) && job.launch.LaunchKernel?
    ensures job.launch.f != 0
    ensures HandlesAgree(cfg, drv, RemoteRun(drv, s.host.stack, program, r0, n + 4).app)
  {
    hide RemoteRun, Honest, HandlesAgree, WellFormed;
    var d := RemoteRun(drv, s.host.stack, program, r0, n + 4).app;
    assert NextWellFormed(cfg, drv, pin, program, d);
    LaunchIsWellFormed(cfg, drv, pin, d, job.launch);
    RunKeepsHandles(cfg, drv, pin, s.host.stack, program, r0, n + 4);
  }

  /** The memory of the remoted run after `n` calls. */
  function MemoryAt<D>(drv: Driver<D>, stack: u64, program: Program, r0: Remoted<D>, n: nat): seq<byte> {
    RemoteRun(drv, stack, program, r0, n).app.mem
  }

  /**
   * From the application's arrays to the sums in its own memory, through every layer of the stack and in any
   * interleaving of guest, host and GPU threads: if it sees its six calls succeed, then C[i] = A[i] + B[i].
   */
  lemma {:induction false} RemotedSums(cfg: Config, drv: Driver<VectorAdd.Memory>, pin: u64, program: Program,
                                       s: System<VectorAdd.Memory>, r0: Remoted<VectorAdd.Memory>,
                                       schedule: seq<Label>, add: VectorAdd.FloatAdd, n: nat, job: Job)
    requires Initial(cfg, drv, pin, s, r0)
    requires Setting(cfg, drv, pin, s.host.stack, program, r0, Issued(Play(cfg, drv, program, s, schedule)))
    requires ShipsVectorAdd(cfg) && WellTyped(job) && Gpu(drv, add, job.launch.f)
    requires RunsJob(drv, s.host.stack, program, r0, n, job)
    requires AddsVectors(job, MemoryAt(drv, s.host.stack, program, r0, n),
                              MemoryAt(drv, s.host.stack, program, r0, n + 4))
    requires Play(cfg, drv, program, s, schedule).completed == n + 6
    ensures var start, mem := MemoryAt(drv, s.host.stack, program, r0, n),
                              MemoryAt(drv, s.host.stack, program, r0, n + 4);
            var now := Play(cfg, drv, program, s, schedule).guest;
            var before := |RemoteRun(drv, s.host.stack, program, r0, n).app.codes|;
            var count := KernelAsked(mem, job.launch.kernelParams, job.launch.geometry).n;
            && |now.codes| == before + 6
            && (now.codes[before..] == ALL_SUCCEED ==>
                  Sums(add, count, Slice(start, job.inA.srcHost, 4 * count), Slice(start, job.inB.srcHost, 4 * count),
                       Slice(now.mem, job.out.dstHost, 4 * count)))
  {
    hide KernelAsked, Gpu, RemoteStep, RemoteRun, Play, Sums, Honest, HandlesAgree, Matches, CodeOf, Launchable, JobRun,
         AddsVectors, Points;
    var rs := Points(drv, s.host.stack, program, r0, n);
    StackIsRemoteRun(cfg, drv, pin, program, s, r0, schedule);
    SettingOf(cfg, drv, pin, s.host.stack, program, r0, Issued(Play(cfg, drv, program, s, schedule)), n + 5);
    RunFacts(cfg, drv, pin, program, s, r0, n, job);
    JobUnfolds(drv, s.host.stack, program, r0, n, job);
    JobAddsCodes(drv, s.host.stack, job, rs);
    var before := rs[0].app.codes;
    assert (before + CodesOf(drv, job, rs))[|before|..] == CodesOf(drv, job, rs);
    if CodesOf(drv, job, rs) == ALL_SUCCEED {
      JobAdds(cfg, drv, add, s.host.stack, job, rs);
    }
  }
}
