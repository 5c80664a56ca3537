/** The CUDA driver as an abstract machine, and what it means to call it directly. */
module Driver {
  import opened Bytes
  import opened Wrappers

  /** Grid and block sizes, shared memory, stream. */
  datatype Geometry = Geometry(
    gridX: u32, gridY: u32, gridZ: u32, blockX: u32, blockY: u32, blockZ: u32, sharedMem: u32, stream: u64)

  /** A driver call with everything it reads from its caller's memory already read. */
  datatype DriverCall =
    | Alloc(bytesize: u64)
    | Free(devptr: u64)
    | HtoD(dst: u64, data: seq<byte>)
    | DtoH(src: u64, count: u64)
    | Load(path: seq<byte>)
    | GetFn(hmod: u64, name: seq<byte>)
    | Launch(f: u64, geometry: Geometry, params: seq<seq<byte>>)

  /** The bytes that a call writes through its out-pointer: none when the driver leaves the pointee alone. */
  datatype Outcome<D> = Outcome(state: D, code: u32, out: Option<seq<byte>>)

  /** `run` is one call; `signature` gives the width of each parameter of the kernel behind a handle. */
  datatype Driver<!D> = Driver(run: (D, DriverCall) -> Outcome<D>, signature: u64 -> seq<nat>)

  /** How many bytes there are behind the out-pointer. */
  function OutSize(c: DriverCall): nat {
    match c
    case Alloc(_) => 8
    case Load(_) => 8
    case GetFn(_, _) => 8
    case DtoH(_, count) => count
    case _ => 0
  }

  /** A driver writes its whole out-parameter or none of it. */
  ghost predicate Lawful<D(!new)>(drv: Driver<D>) {
    forall d, c :: drv.run(d, c).out.Some? ==> |drv.run(d, c).out.value| == OutSize(c)
  }

  // ---------- the guest's calls ----------

  /** A hooked call with the C arguments as the application passes them; addresses index guest memory. */
  datatype Call =
    | MemAlloc(dptr: u64, bytesize: u64)
    | MemFree(devptr: u64)
    | CopyIn(dst: u64, srcHost: u64, count: u64)
    | CopyOut(dstHost: u64, src: u64, count: u64)
    | ModuleLoad(module_: u64, path: string)
    | GetFunction(hfunc: u64, hmod: u64, name: string)
    | LaunchKernel(f: u64, geometry: Geometry, kernelParams: u64, extra: u64)

  function Ascii(s: string): (b: seq<byte>)
    ensures |b| == |s|
    ensures forall i :: 0 <= i < |s| && s[i] as int < 256 ==> b[i] == s[i] as int
  {
    seq(|s|, i requires 0 <= i < |s| => s[i] as int % 256)
  }

  /** No character is NUL or needs more than a byte. */
  predicate Printable(s: string) {
    forall i :: 0 <= i < |s| ==> 0 < s[i] as int < 256
  }

  lemma AsciiHasNoNul(s: string)
    requires Printable(s)
    ensures NUL !in Ascii(s)
  {
  }

  /** The bytes at an address; reading outside memory is undefined in the source and yields nothing here. */
  function Slice(mem: seq<byte>, at: nat, count: nat): (r: seq<byte>)
    ensures at + count <= |mem| ==> |r| == count && forall k :: 0 <= k < count ==> r[k] == mem[at + k]
  {
    if at + count <= |mem| then mem[at..at + count] else []
  }

  /** `kernelParams[i]` */
  function ParamAddress(mem: seq<byte>, kernelParams: u64, i: nat): u64 {
    if kernelParams + 8 * i + 8 <= |mem| then ReadU64(mem, kernelParams + 8 * i) else 0
  }

  /** The pointer at `kernelParams[i]` is what the application wrote there, lowest byte first. */
  lemma ParamAddressRead(mem: seq<byte>, kernelParams: u64, i: nat, p: u64)
    requires kernelParams + 8 * i + 8 <= |mem|
    requires mem[kernelParams + 8 * i..kernelParams + 8 * i + 8] == LE(8, p)
    ensures ParamAddress(mem, kernelParams, i) == p
  {
    U64RoundTrip(p);
  }

  /** What the driver reads when the application calls it without any remoting. */
  function Resolve<D>(drv: Driver<D>, c: Call, mem: seq<byte>): DriverCall {
    match c
    case MemAlloc(_, bytesize) => Alloc(bytesize)
    case MemFree(devptr) => Free(devptr)
    case CopyIn(dst, srcHost, count) => HtoD(dst, Slice(mem, srcHost, count))
    case CopyOut(_, src, count) => DtoH(src, count)
    case ModuleLoad(_, path) => Load(Ascii(path))
    case GetFunction(_, hmod, name) => GetFn(hmod, Ascii(name))
    case LaunchKernel(f, geometry, kernelParams, _) =>
      var widths := drv.signature(f);
      Launch(f, geometry,
        seq(|widths|, i requires 0 <= i < |widths| => Slice(mem, ParamAddress(mem, kernelParams, i), widths[i])))
  }

  function OutAddress(c: Call): nat {
    match c
    case MemAlloc(dptr, _) => dptr
    case CopyOut(dstHost, _, _) => dstHost
    case ModuleLoad(module_, _) => module_
    case GetFunction(hfunc, _, _) => hfunc
    case _ => 0
  }

  /** Guest memory, device, the result codes so far; the handles obtained and the modules loaded are for reasoning. */
  datatype Direct<D> = Direct(mem: seq<byte>, dev: D, codes: seq<u32>, handles: map<u64, string>, loads: nat)

  function Write(mem: seq<byte>, at: nat, out: Option<seq<byte>>): (r: seq<byte>)
    ensures |r| == |mem|
    ensures out.Some? && at + |out.value| <= |mem| ==> r[at..at + |out.value|] == out.value
    ensures forall k :: 0 <= k < |mem| && !(out.Some? && at <= k < at + |out.value|) ==> r[k] == mem[k]
  {
    if out.Some? && at + |out.value| <= |mem| then Splice(mem, at, out.value) else mem
  }

  function HandleOf(out: Option<seq<byte>>): u64 {
    if out.Some? && |out.value| == 8 then ReadU64(out.value, 0) else 0
  }

  /**
   * A direct launch gives the driver, for each parameter, the bytes of the application's variable: those at the
   * address in `kernelParams[i]`, as many as the kernel declares.
   */
  lemma LaunchReadsVariables<D>(drv: Driver<D>, c: Call, mem: seq<byte>, i: nat, p: u64)
    requires c.LaunchKernel? && i < |drv.signature(c.f)|
    requires c.kernelParams + 8 * i + 8 <= |mem| && p + drv.signature(c.f)[i] <= |mem|
    requires mem[c.kernelParams + 8 * i..c.kernelParams + 8 * i + 8] == LE(8, p)
    ensures var call := Resolve(drv, c, mem);
            && call.Launch? && |call.params| == |drv.signature(c.f)|
            && call.params[i] == mem[p..p + drv.signature(c.f)[i]]
  {
    ParamAddressRead(mem, c.kernelParams, i, p);
  }

  /** One direct call of the driver. */
  function DirectStep<D>(drv: Driver<D>, s: Direct<D>, c: Call): Direct<D> {
    var o := drv.run(s.dev, Resolve(drv, c, s.mem));
    Direct(
      Write(s.mem, OutAddress(c), o.out), o.state, s.codes + [o.code],
      if c.GetFunction? then s.handles[HandleOf(o.out) := c.name] else s.handles,
      if c.ModuleLoad? then s.loads + 1 else s.loads)
  }

  /** An application: its next call, if any, may depend on its memory and on every result so far. */
  type Program = (seq<byte>, seq<u32>) -> Option<Call>

  function DirectRun<D>(drv: Driver<D>, program: Program, s: Direct<D>, n: nat): Direct<D> {
    if n == 0 then s
    else
      var before := DirectRun(drv, program, s, n - 1);
      match program(before.mem, before.codes)
      case None => before
      case Some(c) => DirectStep(drv, before, c)
  }
}
