/**
 * What a run of remoted calls does, calls that fail included: the direct run, except that a hook writes through
 * its out-pointer whatever the driver did. The two runs agree exactly as long as every such write changes nothing.
 */
module Remoting {
  import opened Bytes
  import opened Wrappers
  import opened Driver
  import opened Protocol

  /** The driver writes the out-parameter of the call, if the call has one. */
  predicate Delivers<D>(drv: Driver<D>, s: Direct<D>, c: Call) {
    var call := Resolve(drv, c, s.mem);
    OutSize(call) > 0 ==> drv.run(s.dev, call).out.Some?
  }

  /** What a hook writes through its out-pointer when the driver wrote nothing. */
  function Leftover(c: Call, staging: seq<byte>, stack: u64): seq<byte> {
    match c
    case CopyOut(_, _, count) => Slice(staging, 0, count)
    case ModuleLoad(_, _) => LE(8, stack)
    case MemAlloc(_, _) => LE(8, 0)
    case GetFunction(_, _, _) => LE(8, 0)
    case _ => []
  }

  /** The application's variable already holds the leftover bytes. */
  predicate LeftoverThere<D>(stack: u64, s: Direct<D>, staging: seq<byte>, c: Call) {
    var at, leftover := OutAddress(c), Leftover(c, staging, stack);
    at + |leftover| <= |s.mem| && s.mem[at..at + |leftover|] == leftover
  }

  /** When a call that fails to deliver still looks direct: a condition on the state before the call. */
  predicate Transparent<D>(drv: Driver<D>, stack: u64, s: Direct<D>, staging: seq<byte>, c: Call) {
    Delivers(drv, s, c) || LeftoverThere(stack, s, staging, c)
  }

  /** The bytes behind the out-pointer are in memory, and a copied range fits staging. */
  predicate Fits(c: Call, mem: seq<byte>) {
    match c
    case CopyOut(dst, _, count) => dst + count <= |mem| && count <= STAGING_SIZE
    case CopyIn(_, _, _) => true
    case MemFree(_) => true
    case LaunchKernel(_, _, _, _) => true
    case _ => OutAddress(c) + 8 <= |mem|
  }

  // ---------- remoted runs ----------

  /** The application's view, and the staging buffer between its calls. */
  datatype Remoted<D> = Remoted(app: Direct<D>, staging: seq<byte>)

  /** What a hook writes through its out-pointer. */
  function RemoteOut(stack: u64, c: Call, staging: seq<byte>, out: Option<seq<byte>>): seq<byte> {
    if out.Some? then out.value else Leftover(c, staging, stack)
  }

  /** Staging after a call: the data copied in, or what the driver copied out. */
  function StagingAfter<D>(drv: Driver<D>, s: Direct<D>, c: Call, staging: seq<byte>): (r: seq<byte>)
    ensures |r| == |staging|
  {
    if c.CopyOut? then Write(staging, 0, drv.run(s.dev, Resolve(drv, c, s.mem)).out) else Stage(c, s.mem, staging)
  }

  function RemoteStep<D>(drv: Driver<D>, stack: u64, r: Remoted<D>, c: Call): (next: Remoted<D>)
    ensures |next.staging| == |r.staging|
  {
    var o := drv.run(r.app.dev, Resolve(drv, c, r.app.mem));
    var written := RemoteOut(stack, c, r.staging, o.out);
    Remoted(
      DirectStep(drv, r.app, c).(mem := Write(r.app.mem, OutAddress(c), Some(written))),
      StagingAfter(drv, r.app, c, r.staging))
  }

  function RemoteRun<D>(drv: Driver<D>, stack: u64, program: Program, r: Remoted<D>, n: nat): (now: Remoted<D>)
    ensures |now.staging| == |r.staging|
  {
    if n == 0 then r
    else
      var before := RemoteRun(drv, stack, program, r, n - 1);
      match program(before.app.mem, before.app.codes)
      case None => before
      case Some(c) => RemoteStep(drv, stack, before, c)
  }

  /** Staging along a direct run. */
  function StagingRun<D>(drv: Driver<D>, program: Program, d: Direct<D>, staging: seq<byte>, n: nat): (r: seq<byte>)
    ensures |r| == |staging|
  {
    if n == 0 then staging
    else
      var s := DirectRun(drv, program, d, n - 1);
      var before := StagingRun(drv, program, d, staging, n - 1);
      match program(s.mem, s.codes)
      case None => before
      case Some(c) => StagingAfter(drv, s, c, before)
  }

  // ---------- exactly when the two agree ----------

  const OUT_OF_MEMORY: u32 := 2

  lemma WriteUnchangedIff(mem: seq<byte>, at: nat, data: seq<byte>)
    requires at + |data| <= |mem|
    ensures Write(mem, at, Some(data)) == mem <==> mem[at..at + |data|] == data
  {
    var r := Splice(mem, at, data);
    if mem[at..at + |data|] == data {
      assert forall i :: at <= i < at + |data| ==> r[i] == r[at..at + |data|][i - at] == mem[i];
      assert r == mem;
    }
  }

  /** A call that has nothing to write leaves memory alone, whether or not the driver says so. */
  lemma NothingWritten(mem: seq<byte>, at: nat)
    ensures Write(mem, at, Some([])) == mem
  {
    if at <= |mem| { WriteUnchangedIff(mem, at, []); }
  }

  /** The leftovers are in bounds, and are empty for a call that has nothing to bring back. */
  lemma LeftoverFits<D>(drv: Driver<D>, stack: u64, s: Direct<D>, staging: seq<byte>, c: Call)
    requires Fits(c, s.mem) && |staging| == STAGING_SIZE
    ensures OutAddress(c) + |Leftover(c, staging, stack)| <= |s.mem|
    ensures OutSize(Resolve(drv, c, s.mem)) == 0 ==> Leftover(c, staging, stack) == []
  {
  }

  lemma UndeliveredIff<D>(drv: Driver<D>, stack: u64, s: Direct<D>, staging: seq<byte>, c: Call)
    requires Fits(c, s.mem) && |staging| == STAGING_SIZE
    requires drv.run(s.dev, Resolve(drv, c, s.mem)).out.None?
    ensures Write(s.mem, OutAddress(c), Some(Leftover(c, staging, stack))) == s.mem
       <==> Transparent(drv, stack, s, staging, c)
  {
    LeftoverFits(drv, stack, s, staging, c);
    WriteUnchangedIff(s.mem, OutAddress(c), Leftover(c, staging, stack));
    if Delivers(drv, s, c) {
      assert Leftover(c, staging, stack) == [];
    }
  }

  /** One call: remoted and direct execution agree in everything but memory, and in memory exactly when stated. */
  lemma StepTransparentIff<D>(drv: Driver<D>, stack: u64, r: Remoted<D>, c: Call)
    requires Fits(c, r.app.mem) && |r.staging| == STAGING_SIZE
    ensures var remote, direct := RemoteStep(drv, stack, r, c).app, DirectStep(drv, r.app, c);
            && remote == direct.(mem := remote.mem)
            && (remote.mem == direct.mem <==> Transparent(drv, stack, r.app, r.staging, c))
  {
    var o := drv.run(r.app.dev, Resolve(drv, c, r.app.mem));
    if o.out.None? {
      UndeliveredIff(drv, stack, r.app, r.staging, c);
    }
  }

  /** A driver that refuses every call and leaves the device as it is. */
  function Refusing<D>(): Driver<D> {
    Driver((d: D, call: DriverCall) => Outcome(d, OUT_OF_MEMORY, None), f => [])
  }

  /**
   * What a caller can rely on without knowing the driver's answer: a call looks direct with every driver if and
   * only if its variable already holds the leftover.
   */
  lemma DirectWithEveryDriverIff<D(!new)>(stack: u64, r: Remoted<D>, c: Call)
    requires Fits(c, r.app.mem) && |r.staging| == STAGING_SIZE
    ensures (forall drv: Driver<D> :: RemoteStep(drv, stack, r, c).app == DirectStep(drv, r.app, c))
       <==> LeftoverThere(stack, r.app, r.staging, c)
  {
    if LeftoverThere(stack, r.app, r.staging, c) {
      forall drv: Driver<D>
        ensures RemoteStep(drv, stack, r, c).app == DirectStep(drv, r.app, c)
      {
        TransparentStep(drv, stack, r, c);
      }
    } else {
      var drv := Refusing<D>();
      LeftoverFits(drv, stack, r.app, r.staging, c);
      UndeliveredIff(drv, stack, r.app, r.staging, c);
      assert RemoteStep(drv, stack, r, c).app != DirectStep(drv, r.app, c);
    }
  }

  /** If a call is transparent the two executions agree, however its pointers lie. */
  lemma TransparentStep<D>(drv: Driver<D>, stack: u64, r: Remoted<D>, c: Call)
    requires Transparent(drv, stack, r.app, r.staging, c)
    ensures RemoteStep(drv, stack, r, c).app == DirectStep(drv, r.app, c)
  {
    var o := drv.run(r.app.dev, Resolve(drv, c, r.app.mem));
    if o.out.None? {
      if LeftoverThere(stack, r.app, r.staging, c) {
        WriteUnchangedIff(r.app.mem, OutAddress(c), Leftover(c, r.staging, stack));
      } else {
        assert Leftover(c, r.staging, stack) == [];
        NothingWritten(r.app.mem, OutAddress(c));
      }
    }
  }

  /** Call number `k` of a direct run, if there is one, is transparent against the staging that earlier calls left. */
  predicate TransparentAt<D>(drv: Driver<D>, stack: u64, program: Program, d: Direct<D>, staging: seq<byte>, k: nat) {
    var s := DirectRun(drv, program, d, k);
    match program(s.mem, s.codes)
    case None => true
    case Some(c) => Transparent(drv, stack, s, StagingRun(drv, program, d, staging, k), c)
  }

  ghost predicate TransparentBelow<D>(drv: Driver<D>, stack: u64, program: Program, d: Direct<D>,
                                      staging: seq<byte>, n: nat) {
    forall k: nat :: k < n ==> TransparentAt(drv, stack, program, d, staging, k)
  }

  predicate FitsAt<D>(drv: Driver<D>, program: Program, d: Direct<D>, k: nat) {
    var s := DirectRun(drv, program, d, k);
    match program(s.mem, s.codes)
    case None => true
    case Some(c) => Fits(c, s.mem)
  }

  lemma {:induction false} TransparentRun<D>(drv: Driver<D>, stack: u64, program: Program, d: Direct<D>,
                                             staging: seq<byte>, n: nat)
    requires TransparentBelow(drv, stack, program, d, staging, n)
    ensures RemoteRun(drv, stack, program, Remoted(d, staging), n)
         == Remoted(DirectRun(drv, program, d, n), StagingRun(drv, program, d, staging, n))
  {
    if n > 0 {
      TransparentRun(drv, stack, program, d, staging, n - 1);
      assert TransparentAt(drv, stack, program, d, staging, n - 1);
      var before := RemoteRun(drv, stack, program, Remoted(d, staging), n - 1);
      var c := program(before.app.mem, before.app.codes);
      if c.Some? {
        TransparentStep(drv, stack, before, c.value);
      }
    }
  }

  /** After call number `n` a remoted run shows the application what the direct run does. */
  predicate SameAt<D(==)>(drv: Driver<D>, stack: u64, program: Program, d: Direct<D>, staging: seq<byte>, n: nat) {
    RemoteRun(drv, stack, program, Remoted(d, staging), n).app == DirectRun(drv, program, d, n)
  }

  /** Once every earlier call was transparent, the last one decides, and it does so in the application's memory. */
  lemma LastCallDecides<D>(drv: Driver<D>, stack: u64, program: Program, d: Direct<D>, staging: seq<byte>, n: nat)
    requires |staging| == STAGING_SIZE && TransparentBelow(drv, stack, program, d, staging, n)
    requires FitsAt(drv, program, d, n)
    ensures SameAt(drv, stack, program, d, staging, n + 1) <==> TransparentAt(drv, stack, program, d, staging, n)
    ensures RemoteRun(drv, stack, program, Remoted(d, staging), n + 1).app.mem == DirectRun(drv, program, d, n + 1).mem
       <==> TransparentAt(drv, stack, program, d, staging, n)
  {
    TransparentRun(drv, stack, program, d, staging, n);
    var s, now := DirectRun(drv, program, d, n), StagingRun(drv, program, d, staging, n);
    var c := program(s.mem, s.codes);
    if c.Some? {
      StepTransparentIff(drv, stack, Remoted(s, now), c.value);
    }
  }

  /**
   * The exact condition on runs: remoted and direct runs agree after every call if and only if every call
   * delivers or finds its leftover bytes in place.
   */
  lemma {:induction false} RunTransparentIff<D>(drv: Driver<D>, stack: u64, program: Program, d: Direct<D>,
                                                staging: seq<byte>, n: nat)
    requires |staging| == STAGING_SIZE
    requires forall k: nat :: k < n ==> FitsAt(drv, program, d, k)
    ensures (forall k: nat :: k <= n ==> SameAt(drv, stack, program, d, staging, k))
       <==> TransparentBelow(drv, stack, program, d, staging, n)
  {
    if n == 0 {
      TransparentRun(drv, stack, program, d, staging, 0);
    } else {
      RunTransparentIff(drv, stack, program, d, staging, n - 1);
      if TransparentBelow(drv, stack, program, d, staging, n - 1) {
        LastCallDecides(drv, stack, program, d, staging, n - 1);
      }
    }
  }

  // ---------- a call that is not transparent ----------

  /** An application whose variable, at address 8, holds 7. */
  function Seven(): Direct<()> {
    Direct(LE(8, 0) + LE(8, 7), (), [], map[], 0)
  }

  /** A failed allocation is visible: the driver leaves the variable alone, the hook sets it to zero. */
  lemma FailedAllocationShows(stack: u64, staging: seq<byte>)
    ensures var c := MemAlloc(8, 64);
            var remote := RemoteStep(Refusing(), stack, Remoted(Seven(), staging), c).app;
            var direct := DirectStep(Refusing(), Seven(), c);
            && remote.codes == direct.codes == [OUT_OF_MEMORY]
            && direct.mem == LE(8, 0) + LE(8, 7) && remote.mem == LE(8, 0) + LE(8, 0) && remote.mem != direct.mem
  {
    assert LE(8, 7)[0] == 7 && LE(8, 0)[0] == 0;
    assert (LE(8, 0) + LE(8, 7))[8] == 7 && (LE(8, 0) + LE(8, 0))[8] == 0;
    assert Splice(LE(8, 0) + LE(8, 7), 8, LE(8, 0)) == LE(8, 0) + LE(8, 0);
  }
}
