/**
 * A remoted call does what `Remoting` says: the request direction, the reply direction, and both together. With
 * the exact condition of `Remoting` it is then a direct call.
 */
module Transparency {
  import opened Bytes
  import opened Wrappers
  import opened Driver
  import opened RequestCodec
  import opened ReplyCodec
  import opened Protocol
  import opened Remoting
  import PtxPrototype
  import PinnedMemory

  // ---------- what a call must respect ----------

  /**
   * The shipped file is what the compiler prints for a module whose kernels all have parameters. Without that
   * the guest does not learn the declared types: `PtxPrototype.ParsedRightIff`.
   */
  ghost predicate Printed(cfg: Config) {
    && cfg.ptx == PtxPrototype.Print(cfg.origin)
    && PtxPrototype.HaveParams(cfg.origin.sections)
    && PtxPrototype.WellFormed(cfg.origin.sections) && PtxPrototype.Plain(cfg.origin.after)
  }

  /** The types that the module declares for a kernel. */
  function Declared(cfg: Config, name: string): seq<string> {
    PtxPrototype.Declared(cfg.origin.sections, name)
  }

  /** Every parameter of the kernel has a fundamental type, so none is wider than 8 bytes. */
  predicate Fundamental(cfg: Config, name: string) {
    forall ty :: ty in Declared(cfg, name) ==> PtxPrototype.TypeWidth(ty) > 0
  }

  predicate Narrow(widths: seq<nat>) {
    forall i :: 0 <= i < |widths| ==> widths[i] <= 8
  }

  /** A lookup that succeeds gives a handle behind which the driver reads the declared types. */
  predicate HonestLookup<D>(cfg: Config, drv: Driver<D>, d: D, hmod: u64, name: string) {
    var out := drv.run(d, GetFn(hmod, Ascii(name))).out;
    out.Some? && Fundamental(cfg, name) ==> drv.signature(HandleOf(out)) == PtxPrototype.WidthsOf(Declared(cfg, name))
  }

  /** The driver loads the module that the file was printed from. */
  ghost predicate Honest<D(!new)>(cfg: Config, drv: Driver<D>) {
    && Printed(cfg) && Lawful(drv)
    && forall d, hmod, name :: Printable(name) ==> HonestLookup(cfg, drv, d, hmod, name)
  }

  /** What C and the remoting stack demand of a call: valid pointers, sizes that fit, memory that is not pinned. */
  predicate WellFormed<D>(cfg: Config, drv: Driver<D>, pin: u64, s: Direct<D>, c: Call) {
    match c
    case MemAlloc(dptr, _) => dptr + 8 <= |s.mem|
    case MemFree(_) => true
    case CopyIn(_, src, count) =>
      src != 0 && src + count <= |s.mem| && count <= STAGING_SIZE && !PinnedMemory.IsPinned(pin, src)
    case CopyOut(dst, _, count) =>
      dst + count <= |s.mem| && count <= STAGING_SIZE && !PinnedMemory.IsPinned(pin, dst)
    case ModuleLoad(module_, path) =>
      module_ + 8 <= |s.mem| && path == cfg.shippedPath && Printable(path) && |path| <= 9000 && s.loads == 0
    case GetFunction(hfunc, _, name) => hfunc + 8 <= |s.mem| && Printable(name) && |name| <= 9000
    case LaunchKernel(f, _, kernelParams, _) =>
      var count := |drv.signature(f)|;
      && f != 0 && f in s.handles && Fundamental(cfg, s.handles[f]) && s.loads == 1
      && kernelParams + 8 * count <= |s.mem|
      && (forall i :: 0 <= i < count ==> ParamAddress(s.mem, kernelParams, i) + 8 <= |s.mem|)
      && 91 + 8 * count <= BUFFER_SIZE
  }

  /** The next call of an application, if it makes one, is well formed. */
  predicate NextWellFormed<D>(cfg: Config, drv: Driver<D>, pin: u64, program: Program, d: Direct<D>) {
    match program(d.mem, d.codes)
    case None => true
    case Some(c) => WellFormed(cfg, drv, pin, d, c)
  }

  /** A printed file has no unclosed header. */
  lemma PrintedIsClosed(cfg: Config)
    requires Printed(cfg)
    ensures !PtxPrototype.HasUnclosedHeader(cfg.ptx)
  {
    PtxPrototype.CompiledHasBlocks(cfg.origin.sections, cfg.origin.after);
    PtxPrototype.ParseUndoesPrint(cfg.origin.sections, cfg.origin.after, map[]);
    PtxPrototype.HangsIffUnclosed(cfg.ptx, map[]);
  }

  lemma WellFormedFits<D>(cfg: Config, drv: Driver<D>, pin: u64, s: Direct<D>, c: Call)
    requires WellFormed(cfg, drv, pin, s, c)
    ensures Fits(c, s.mem) && !Aborts(c)
  {
  }

  // ---------- what guest and direct execution share ----------

  /** Behind every handle obtained for a kernel the driver reads that kernel's declared types; null is no handle. */
  ghost predicate HandlesAgree<D>(cfg: Config, drv: Driver<D>, s: Direct<D>) {
    forall h :: h in s.handles && h != 0 && Fundamental(cfg, s.handles[h]) ==>
      drv.signature(h) == PtxPrototype.WidthsOf(Declared(cfg, s.handles[h]))
  }

  lemma HandlesKeepAgreeing<D(!new)>(cfg: Config, drv: Driver<D>, pin: u64, s: Direct<D>, c: Call)
    requires Honest(cfg, drv) && HandlesAgree(cfg, drv, s) && WellFormed(cfg, drv, pin, s, c)
    ensures HandlesAgree(cfg, drv, DirectStep(drv, s, c))
  {
    if c.GetFunction? {
      assert HonestLookup(cfg, drv, s.dev, c.hmod, c.name);
    }
  }

  /** The guest's memory and tables against the application's view, with `loads` modules parsed. */
  ghost predicate MatchesAt<D>(cfg: Config, g: Guest, s: Direct<D>, loads: nat) {
    && g.mem == s.mem && g.codes == s.codes && g.hashfunc == s.handles && loads <= 1
    && forall name :: PtxPrototype.Params(g.protos, name) == if loads == 0 then [] else Declared(cfg, name)
  }

  ghost predicate Matches<D>(cfg: Config, g: Guest, s: Direct<D>) {
    MatchesAt(cfg, g, s, s.loads)
  }

  /** Handle index agreement: at a launch the guest finds the kernel's declared parameters, which the driver reads. */
  lemma LaunchCountsAgree<D>(cfg: Config, drv: Driver<D>, pin: u64, g: Guest, s: Direct<D>, c: Call)
    requires c.LaunchKernel? && Matches(cfg, g, s) && HandlesAgree(cfg, drv, s) && WellFormed(cfg, drv, pin, s, c)
    ensures c.f in g.hashfunc && ParamCount(g, c.f) == |Declared(cfg, g.hashfunc[c.f])| == |drv.signature(c.f)|
    ensures drv.signature(c.f) == PtxPrototype.WidthsOf(Declared(cfg, g.hashfunc[c.f])) && Narrow(drv.signature(c.f))
  {
  }

  // ---------- request direction ----------

  function Widths(fields: seq<Field>): seq<nat> {
    seq(|fields|, i requires 0 <= i < |fields| => fields[i].width)
  }

  function WidthSum(fields: seq<Field>): nat {
    if fields == [] then 0 else fields[0].width + WidthSum(fields[1..])
  }

  lemma {:induction false} FieldsEncoded(fields: seq<Field>)
    ensures ShapesOf(Fields(fields)) == FieldShapes(Widths(fields))
    ensures AllSendable(Fields(fields))
    ensures |EncodeAll(Fields(fields))| == WidthSum(fields)
  {
    if fields != [] {
      FieldsEncoded(fields[1..]);
      assert Widths(fields)[1..] == Widths(fields[1..]);
    }
  }

  /** A field comes out of the tuple with the value it went in with. */
  lemma {:induction false} FieldFound(fields: seq<Field>, k: nat)
    requires k < |fields| && fields[k].value < Pow256(fields[k].width)
    ensures Num(Fields(fields), k) == fields[k].value
  {
    if k == 0 {
      FromLEOfLE(fields[0].width, fields[0].value);
    } else {
      FieldFound(fields[1..], k - 1);
    }
  }

  lemma TextEncoded(text: string)
    ensures var a := Cons(CStr(Ascii(text)), Nil);
            && ShapesOf(a) == Shapes(CStrOf, NoShapes) && |EncodeAll(a)| == 9 + |text|
            && (Printable(text) && |text| <= 9000 ==> AllSendable(a))
  {
    ConsUnfolds(CStr(Ascii(text)), Nil);
    if Printable(text) { AsciiHasNoNul(text); }
  }

  /** Both sides agree on the argument types of every name. */
  lemma ShapesAgree(c: Call, g: Guest)
    requires c.LaunchKernel? ==> ParamCount(g, c.f) <= BUFFER_SIZE
    ensures ShapesOf(Arguments(c, g)) == ArgumentShapes(ApiOf(c))
  {
    hide LE, FromLE, Pow256, Encode, Ascii, EncodeAll;
    match c
    case MemAlloc(dptr, bytesize) =>
      FieldTuple([P(dptr), P(bytesize)], Nil);
      assert Widths([P(dptr), P(bytesize)]) == [8, 8];
    case MemFree(devptr) =>
      FieldTuple([P(devptr)], Nil);
      assert Widths([P(devptr)]) == [8];
    case CopyIn(dst, src, count) =>
      FieldTuple([P(dst), P(src), P(count)], Nil);
      assert Widths([P(dst), P(src), P(count)]) == [8, 8, 8];
    case CopyOut(dst, src, count) =>
      FieldTuple([P(dst), P(src), P(count)], Nil);
      assert Widths([P(dst), P(src), P(count)]) == [8, 8, 8];
    case LaunchKernel(f, geometry, kernelParams, extra) =>
      LaunchTuple(f, geometry, kernelParams, extra, ScalarArgs(g.mem, kernelParams, ParamCount(g, f)));
    case ModuleLoad(module_, path) =>
      TextEncoded(path);
      ConsUnfolds(Raw(LE(8, module_)), Cons(CStr(Ascii(path)), Nil));
    case GetFunction(hfunc, hmod, name) =>
      TextEncoded(name);
      ConsUnfolds(Raw(LE(8, hmod)), Cons(CStr(Ascii(name)), Nil));
      ConsUnfolds(Raw(LE(8, hfunc)), Cons(Raw(LE(8, hmod)), Cons(CStr(Ascii(name)), Nil)));
  }

  lemma FieldTuple(fields: seq<Field>, rest: Args)
    ensures ShapesOf(Cons(Tuple(Fields(fields)), rest)) == Shapes(TupleOf(FieldShapes(Widths(fields))), ShapesOf(rest))
    ensures AllSendable(Cons(Tuple(Fields(fields)), rest)) <==> AllSendable(rest)
    ensures |EncodeAll(Cons(Tuple(Fields(fields)), rest))| == WidthSum(fields) + |EncodeAll(rest)|
  {
    FieldsEncoded(fields);
    ConsUnfolds(Tuple(Fields(fields)), rest);
  }

  lemma LaunchTuple(f: u64, g: Geometry, kernelParams: u64, extra: u64, words: seq<u64>)
    requires |words| <= BUFFER_SIZE
    ensures var a := Cons(Tuple(Fields(LaunchFields(f, g, kernelParams, extra))), Cons(Words(words), Nil));
            && ShapesOf(a) == ArgumentShapes(ApiLaunch) && AllSendable(a) && |EncodeAll(a)| == 68 + 8 * |words|
  {
    var fields := LaunchFields(f, g, kernelParams, extra);
    ConsUnfolds(Words(words), Nil);
    FieldTuple(fields, Cons(Words(words), Nil));
    LaunchWidthSum(f, g, kernelParams, extra);
    LaunchWidths(f, g, kernelParams, extra);
  }

  lemma LaunchWidths(f: u64, g: Geometry, kernelParams: u64, extra: u64)
    ensures Widths(LaunchFields(f, g, kernelParams, extra)) == LAUNCH_WIDTHS
  {
    var widths := Widths(LaunchFields(f, g, kernelParams, extra));
    assert widths == [widths[0], widths[1], widths[2], widths[3], widths[4], widths[5], widths[6], widths[7],
                      widths[8], widths[9], widths[10]];
  }

  lemma LaunchWidthSum(f: u64, g: Geometry, kernelParams: u64, extra: u64)
    ensures WidthSum(LaunchFields(f, g, kernelParams, extra)) == 60
  {
    var fields := LaunchFields(f, g, kernelParams, extra);
    assert fields[11..] == [];
    assert WidthSum(fields[10..]) == 8;
    assert WidthSum(fields[9..]) == 16;
    assert WidthSum(fields[8..]) == 24;
    assert WidthSum(fields[7..]) == 28;
    assert WidthSum(fields[6..]) == 32;
    assert WidthSum(fields[5..]) == 36;
    assert WidthSum(fields[4..]) == 40;
    assert WidthSum(fields[3..]) == 44;
    assert WidthSum(fields[2..]) == 48;
    assert WidthSum(fields[1..]) == 52;
  }

  lemma {:induction false} EightEach(fields: seq<Field>)
    requires forall i :: 0 <= i < |fields| ==> fields[i].width == 8
    ensures WidthSum(fields) == 8 * |fields|
  {
    if fields != [] { EightEach(fields[1..]); }
  }

  lemma ArgumentsSendable<D>(cfg: Config, drv: Driver<D>, pin: u64, g: Guest, s: Direct<D>, c: Call)
    requires Matches(cfg, g, s) && HandlesAgree(cfg, drv, s) && WellFormed(cfg, drv, pin, s, c)
    ensures AllSendable(Arguments(c, g)) && |EncodeAll(Arguments(c, g))| <= BUFFER_SIZE - 23
    ensures c.LaunchKernel? ==> |EncodeAll(Arguments(c, g))| == 68 + 8 * |drv.signature(c.f)|
    ensures !c.LaunchKernel? ==> |EncodeAll(Arguments(c, g))| <= 9025
  {
    match c
    case MemAlloc(dptr, bytesize) =>
      FieldTuple([P(dptr), P(bytesize)], Nil);
      EightEach([P(dptr), P(bytesize)]);
    case MemFree(devptr) =>
      FieldTuple([P(devptr)], Nil);
      EightEach([P(devptr)]);
    case CopyIn(dst, src, count) =>
      FieldTuple([P(dst), P(src), P(count)], Nil);
      EightEach([P(dst), P(src), P(count)]);
    case CopyOut(dst, src, count) =>
      FieldTuple([P(dst), P(src), P(count)], Nil);
      EightEach([P(dst), P(src), P(count)]);
    case ModuleLoad(module_, path) =>
      TextEncoded(path);
      ConsUnfolds(Raw(LE(8, module_)), Cons(CStr(Ascii(path)), Nil));
    case GetFunction(hfunc, hmod, text) =>
      TextEncoded(text);
      ConsUnfolds(Raw(LE(8, hmod)), Cons(CStr(Ascii(text)), Nil));
      ConsUnfolds(Raw(LE(8, hfunc)), Cons(Raw(LE(8, hmod)), Cons(CStr(Ascii(text)), Nil)));
    case LaunchKernel(f, geometry, kernelParams, extra) =>
      LaunchCountsAgree(cfg, drv, pin, g, s, c);
      LaunchTuple(f, geometry, kernelParams, extra, ScalarArgs(g.mem, kernelParams, ParamCount(g, f)));
  }

  /** Every request can be decoded, and a launch takes exactly 91 bytes and 8 for each parameter. */
  lemma RequestSendable<D>(cfg: Config, drv: Driver<D>, pin: u64, g: Guest, s: Direct<D>, c: Call)
    requires Matches(cfg, g, s) && HandlesAgree(cfg, drv, s) && WellFormed(cfg, drv, pin, s, c)
    ensures AllSendable(Request(c, g)) && |Message(c, g)| <= BUFFER_SIZE
    ensures c.LaunchKernel? ==> |Message(c, g)| == 91 + 8 * |drv.signature(c.f)|
  {
    NamesPrintable(ApiOf(c));
    AsciiHasNoNul(NameOf(ApiOf(c)));
    ArgumentsSendable(cfg, drv, pin, g, s, c);
    ConsUnfolds(CStr(Ascii(NameOf(ApiOf(c)))), Arguments(c, g));
  }

  /** Nothing checks a launch against the send buffer: its writes stay inside exactly up to 1238 parameters. */
  lemma LaunchFitsIff(c: Call, g: Guest)
    requires c.LaunchKernel?
    ensures |Message(c, g)| == 91 + 8 * ParamCount(g, c.f)
    ensures InBounds(AllWrites(Request(c, g), 0)) <==> ParamCount(g, c.f) <= 1238
  {
    var words := ScalarArgs(g.mem, c.kernelParams, ParamCount(g, c.f));
    ConsUnfolds(CStr(Ascii(NameOf(ApiLaunch))), Arguments(c, g));
    FieldTuple(LaunchFields(c.f, c.geometry, c.kernelParams, c.extra), Cons(Words(words), Nil));
    ConsUnfolds(Words(words), Nil);
    LaunchWidthSum(c.f, c.geometry, c.kernelParams, c.extra);
    AllWritesInBoundsIffFits(Request(c, g), 0);
  }

  /** The host finds the handler of the name that the guest encoded, and the arguments behind it. */
  lemma HostFindsHandler(c: Call, g: Guest, buf: seq<byte>)
    requires Holds(buf, 0, Message(c, g))
    ensures var name := Decode(CStrOf, buf, 0);
            && name.Got? && Dispatch(CString(buf, name.value.at)) == Some(ApiOf(c))
            && Holds(buf, name.next, EncodeAll(Arguments(c, g)))
            && name.next + |EncodeAll(Arguments(c, g))| == |Message(c, g)|
  {
    var name := CStr(Ascii(NameOf(ApiOf(c))));
    NamesPrintable(ApiOf(c));
    AsciiHasNoNul(NameOf(ApiOf(c)));
    ConsUnfolds(name, Arguments(c, g));
    HoldsSplit(buf, 0, Encode(name), EncodeAll(Arguments(c, g)));
    DecodeUndoesEncode(name, buf, 0);
    DispatchFindsName(ApiOf(c), Ascii(NameOf(ApiOf(c))));
  }

  /** The host decodes what the guest encoded; stale bytes behind the message do not matter. */
  lemma HostDecodes<D>(cfg: Config, drv: Driver<D>, pin: u64, g: Guest, s: Direct<D>, c: Call, buf: seq<byte>)
    requires Matches(cfg, g, s) && HandlesAgree(cfg, drv, s) && WellFormed(cfg, drv, pin, s, c)
    requires Holds(buf, 0, Message(c, g))
    ensures var name := Decode(CStrOf, buf, 0);
            && name.Got?
            && var d := DecodeAll(ArgumentShapes(ApiOf(c)), buf, name.next);
               d.Got? && FollowAll(buf, d.value) == Arguments(c, g) && d.next == |Message(c, g)|
  {
    HostFindsHandler(c, g, buf);
    ArgumentsSendable(cfg, drv, pin, g, s, c);
    if c.LaunchKernel? { LaunchCountsAgree(cfg, drv, pin, g, s, c); }
    ShapesAgree(c, g);
    DecodeAllUndoesEncodeAll(Arguments(c, g), buf, Decode(CStrOf, buf, 0).next);
  }

  lemma RequestDecodable<D>(cfg: Config, drv: Driver<D>, pin: u64, g: Guest, s: Direct<D>, c: Call, buf: seq<byte>)
    requires Matches(cfg, g, s) && HandlesAgree(cfg, drv, s) && WellFormed(cfg, drv, pin, s, c)
    requires Holds(buf, 0, Message(c, g))
    ensures Decodable(buf)
  {
    HostFindsHandler(c, g, buf);
    HostDecodes(cfg, drv, pin, g, s, c, buf);
  }

  lemma FieldsFound(fields: seq<Field>)
    requires forall k :: 0 <= k < |fields| ==> fields[k].value < Pow256(fields[k].width)
    ensures forall k :: 0 <= k < |fields| ==> Num(Fields(fields), k) == fields[k].value
  {
    forall k | 0 <= k < |fields|
      ensures Num(Fields(fields), k) == fields[k].value
    {
      FieldFound(fields, k);
    }
  }

  lemma GeometryFound(f: u64, g: Geometry, kernelParams: u64, extra: u64)
    ensures var items := Fields(LaunchFields(f, g, kernelParams, extra));
            Num64(items, 0) == f && GeometryOf(items) == g
  {
    var fields := LaunchFields(f, g, kernelParams, extra);
    Pow256Of8();
    FieldsFound(fields);
    assert forall k :: 0 <= k < |fields| ==> Num(Fields(fields), k) == fields[k].value;
  }

  /**
   * Launch transparency: following pointer i into the receive buffer, the driver reads exactly the bytes that
   * the application's kernelParams[i] points to, at the width the kernel declares.
   */
  lemma SlotsShowParameters(mem: seq<byte>, kernelParams: u64, buf: seq<byte>, slots: seq<nat>, widths: seq<nat>)
    requires Narrow(widths) && |slots| == |widths|
    requires forall i :: 0 <= i < |widths| ==> ParamAddress(mem, kernelParams, i) + 8 <= |mem|
    requires forall i :: 0 <= i < |slots| ==> slots[i] + 8 <= |buf|
    requires WordsAt(buf, slots) == ScalarArgs(mem, kernelParams, |widths|)
    ensures SlotParams(buf, slots, widths)
         == seq(|widths|, i requires 0 <= i < |widths| =>
                  Slice(mem, ParamAddress(mem, kernelParams, i), widths[i]))
  {
    hide LE, FromLE, Pow256, ReadU64;
    forall i | 0 <= i < |widths|
      ensures Slice(buf, slots[i], widths[i]) == Slice(mem, ParamAddress(mem, kernelParams, i), widths[i])
    {
      var at := ParamAddress(mem, kernelParams, i);
      assert WordsAt(buf, slots)[i] == WordAt(buf, slots[i]) == ReadU64(buf, slots[i]);
      assert ScalarArgs(mem, kernelParams, |widths|)[i] == ReadU64(mem, at);
      SameWordSameBytes(buf, slots[i], mem, at);
      assert buf[slots[i]..slots[i] + widths[i]] == buf[slots[i]..slots[i] + 8][..widths[i]];
      assert mem[at..at + widths[i]] == mem[at..at + 8][..widths[i]];
    }
  }

  /** What a slot shows, in terms of the application's memory alone: the variable that its pointer leads to. */
  lemma SlotShowsVariable(mem: seq<byte>, kernelParams: u64, buf: seq<byte>, slots: seq<nat>, widths: seq<nat>,
                          i: nat, p: u64)
    requires Narrow(widths) && |slots| == |widths| && i < |widths|
    requires kernelParams + 8 * i + 8 <= |mem| && p + 8 <= |mem| && slots[i] + 8 <= |buf|
    requires mem[kernelParams + 8 * i..kernelParams + 8 * i + 8] == LE(8, p)
    requires WordsAt(buf, slots) == ScalarArgs(mem, kernelParams, |widths|)
    ensures SlotParams(buf, slots, widths)[i] == mem[p..p + widths[i]]
  {
    hide FromLE, Pow256, LE;
    ScalarShowsVariable(mem, kernelParams, |widths|, i, p);
    assert WordsAt(buf, slots)[i] == WordAt(buf, slots[i]) == ReadU64(buf, slots[i]);
    LEOfFromLE(buf[slots[i]..slots[i] + 8]);
    assert buf[slots[i]..slots[i] + widths[i]] == buf[slots[i]..slots[i] + 8][..widths[i]];
    assert mem[p..p + widths[i]] == mem[p..p + 8][..widths[i]];
  }

  lemma SameWordSameBytes(a: seq<byte>, i: nat, b: seq<byte>, j: nat)
    requires i + 8 <= |a| && j + 8 <= |b| && ReadU64(a, i) == ReadU64(b, j)
    ensures a[i..i + 8] == b[j..j + 8]
  {
    LEOfFromLE(a[i..i + 8]);
    LEOfFromLE(b[j..j + 8]);
  }

  /** The fields that a handler decodes mean the application's call. */
  lemma FieldsMeanCall<D>(cfg: Config, drv: Driver<D>, g: Guest, s: Direct<D>, h: Host<D>, c: Call,
                          staging: seq<byte>, buf: seq<byte>, views: Views)
    requires !c.LaunchKernel? && WellFormed(cfg, drv, h.clientPinStart, s, c) && Staged(c, s.mem, staging)
    requires views.Views? && views.head.TupleView?
    requires FollowAll(buf, views.head.items) == Arguments(c, g).head.items
    ensures HostCall(cfg, drv, h, staging, buf, ApiOf(c), views) == Resolve(drv, c, s.mem)
  {
    hide LE, FromLE, ReadU64, Pow256, Fields, Ascii;
    ItemsMeanCall(c, g);
  }

  /** The fields and slots that the launch handler decodes mean the application's launch. */
  lemma SlotsMeanLaunch<D>(cfg: Config, drv: Driver<D>, h: Host<D>, c: Call, mem: seq<byte>,
                           staging: seq<byte>, buf: seq<byte>, views: Views)
    requires c.LaunchKernel?
    requires views.Views? && views.head.TupleView? && views.tail.Views? && views.tail.head.SlotsView?
    requires FollowAll(buf, views.head.items) == Fields(LaunchFields(c.f, c.geometry, c.kernelParams, c.extra))
    requires var widths := drv.signature(c.f);
             SlotParams(buf, views.tail.head.slots, widths)
             == seq(|widths|, i requires 0 <= i < |widths| =>
                      Slice(mem, ParamAddress(mem, c.kernelParams, i), widths[i]))
    ensures HostCall(cfg, drv, h, staging, buf, ApiLaunch, views) == Resolve(drv, c, mem)
  {
    GeometryFound(c.f, c.geometry, c.kernelParams, c.extra);
  }

  lemma LaunchCallIsDirect<D>(cfg: Config, drv: Driver<D>, g: Guest, s: Direct<D>, h: Host<D>, c: Call,
                              staging: seq<byte>, buf: seq<byte>, pos: nat, d: Decoded<Views>)
    requires c.LaunchKernel? && Matches(cfg, g, s) && HandlesAgree(cfg, drv, s)
    requires WellFormed(cfg, drv, h.clientPinStart, s, c)
    requires d == DecodeAll(ArgumentShapes(ApiLaunch), buf, pos) && d.Got? && d.next <= |buf|
    requires FollowAll(buf, d.value) == Arguments(c, g)
    ensures d.value.Views? && d.value.head.TupleView? && d.value.tail.Views? && d.value.tail.head.SlotsView?
    ensures HostCall(cfg, drv, h, staging, buf, ApiLaunch, d.value) == Resolve(drv, c, s.mem)
  {
    ArgumentsDecodedAs(ApiLaunch, buf, pos);
    SlotsInBuffer(c, g, buf, pos, d);
    LaunchCountsAgree(cfg, drv, h.clientPinStart, g, s, c);
    SlotsShowParameters(s.mem, c.kernelParams, buf, d.value.tail.head.slots, drv.signature(c.f));
    TupleFollowed(buf, d.value, Fields(LaunchFields(c.f, c.geometry, c.kernelParams, c.extra)), Arguments(c, g).tail);
    SlotsMeanLaunch(cfg, drv, h, c, s.mem, staging, buf, d.value);
  }

  lemma TupleFollowed(buf: seq<byte>, views: Views, items: Args, rest: Args)
    requires views.Views? && views.head.TupleView? && FollowAll(buf, views) == Cons(Tuple(items), rest)
    ensures FollowAll(buf, views.head.items) == items
  {
    assert FollowAll(buf, views).head == Follow(buf, views.head);
  }

  /** A host that has found the handler and decoded the arguments of a message makes the application's driver call. */
  lemma DecodedCallIsDirect<D>(cfg: Config, drv: Driver<D>, g: Guest, s: Direct<D>, h: Host<D>, c: Call,
                               staging: seq<byte>, buf: seq<byte>, pos: nat, d: Decoded<Views>)
    requires Matches(cfg, g, s) && HandlesAgree(cfg, drv, s) && WellFormed(cfg, drv, h.clientPinStart, s, c)
    requires Staged(c, s.mem, staging)
    requires d == DecodeAll(ArgumentShapes(ApiOf(c)), buf, pos) && d.Got? && d.next <= |buf|
    requires FollowAll(buf, d.value) == Arguments(c, g)
    ensures d.value.Views? && d.value.head.TupleView?
    ensures c.LaunchKernel? ==> d.value.tail.Views? && d.value.tail.head.SlotsView?
    ensures FollowAll(buf, d.value.head.items) == Arguments(c, g).head.items
    ensures HostCall(cfg, drv, h, staging, buf, ApiOf(c), d.value) == Resolve(drv, c, s.mem)
  {
    ArgumentsDecodedAs(ApiOf(c), buf, pos);
    TupleFollowed(buf, d.value, Arguments(c, g).head.items, Arguments(c, g).tail);
    if c.LaunchKernel? {
      LaunchCallIsDirect(cfg, drv, g, s, h, c, staging, buf, pos, d);
    } else {
      FieldsMeanCall(cfg, drv, g, s, h, c, staging, buf, d.value);
    }
  }

  /** What the host reads from a message is the driver call that the application made. */
  lemma HostCallIsDirect<D>(cfg: Config, drv: Driver<D>, g: Guest, s: Direct<D>, h: Host<D>, c: Call,
                            staging: seq<byte>, buf: seq<byte>)
    requires Matches(cfg, g, s) && HandlesAgree(cfg, drv, s) && WellFormed(cfg, drv, h.clientPinStart, s, c)
    requires Staged(c, s.mem, staging) && Holds(buf, 0, Message(c, g))
    ensures var name := Decode(CStrOf, buf, 0);
            && name.Got? && Dispatch(CString(buf, name.value.at)) == Some(ApiOf(c))
            && var d := DecodeAll(ArgumentShapes(ApiOf(c)), buf, name.next);
               && d.Got? && d.value.Views? && d.value.head.TupleView?
               && (c.LaunchKernel? ==> d.value.tail.Views? && d.value.tail.head.SlotsView?)
               && FollowAll(buf, d.value.head.items) == Arguments(c, g).head.items
               && HostCall(cfg, drv, h, staging, buf, ApiOf(c), d.value) == Resolve(drv, c, s.mem)
  {
    HostFindsHandler(c, g, buf);
    HostDecodes(cfg, drv, h.clientPinStart, g, s, c, buf);
    var name := Decode(CStrOf, buf, 0);
    var d := DecodeAll(ArgumentShapes(ApiOf(c)), buf, name.next);
    DecodedCallIsDirect(cfg, drv, g, s, h, c, staging, buf, name.next, d);
  }

  /** The fields of a decoded tuple are the C arguments. */
  lemma ItemsMeanCall(c: Call, g: Guest)
    ensures var items := Arguments(c, g).head.items;
            match c
            case MemAlloc(dptr, bytesize) => Num64(items, 1) == bytesize
            case MemFree(devptr) => Num64(items, 0) == devptr
            case CopyIn(dst, src, count) => Num64(items, 0) == dst && Num64(items, 1) == src && Num64(items, 2) == count
            case CopyOut(to, src, count) => Num64(items, 0) == to && Num64(items, 1) == src && Num64(items, 2) == count
            case ModuleLoad(_, _) => true
            case GetFunction(_, hmod, name) => Num64(items, 1) == hmod && Chars(items, 2) == Ascii(name)
            case LaunchKernel(f, geometry, _, _) => Num64(items, 0) == f && GeometryOf(items) == geometry
  {
    Pow256Of8();
    match c
    case MemAlloc(dptr, bytesize) => FieldsFound([P(dptr), P(bytesize)]);
    case MemFree(devptr) => FieldsFound([P(devptr)]);
    case CopyIn(dst, src, count) => FieldsFound([P(dst), P(src), P(count)]);
    case CopyOut(dst, src, count) => FieldsFound([P(dst), P(src), P(count)]);
    case ModuleLoad(_, _) =>
    case GetFunction(hfunc, hmod, name) =>
      FromLEOfLE(8, hmod);
      var inner := Cons(Raw(LE(8, hmod)), Cons(CStr(Ascii(name)), Nil));
      assert Num(inner, 0) == hmod && Chars(inner, 1) == Ascii(name);
    case LaunchKernel(f, geometry, kernelParams, extra) => GeometryFound(f, geometry, kernelParams, extra);
  }

  /** Slots that follow to a launch's words are as many as the words and hold them. */
  lemma SlotsFollowed(buf: seq<byte>, views: Views, tuple: Arg, words: seq<u64>)
    requires views.Views? && views.tail.Views? && views.tail.head.SlotsView?
    requires FollowAll(buf, views) == Cons(tuple, Cons(Words(words), Nil))
    ensures |views.tail.head.slots| == |words| && WordsAt(buf, views.tail.head.slots) == words
  {
    var slots := views.tail.head.slots;
    assert FollowAll(buf, views).tail == FollowAll(buf, views.tail);
    assert Follow(buf, views.tail.head) == Words(words);
    assert |WordsAt(buf, slots)| == |slots|;
  }

  lemma SlotsInBuffer(c: Call, g: Guest, buf: seq<byte>, pos: nat, d: Decoded<Views>)
    requires c.LaunchKernel? && d == DecodeAll(ArgumentShapes(ApiLaunch), buf, pos)
    requires d.Got? && d.next <= |buf| && FollowAll(buf, d.value) == Arguments(c, g)
    ensures d.value.Views? && d.value.tail.Views? && d.value.tail.head.SlotsView?
    ensures var slots := d.value.tail.head.slots;
            && |slots| == ParamCount(g, c.f)
            && WordsAt(buf, slots) == ScalarArgs(g.mem, c.kernelParams, |slots|)
            && (forall i :: 0 <= i < |slots| ==> slots[i] + 8 <= |buf|)
            && (forall i, j :: 0 <= i < j < |slots| ==> slots[i] + 8 <= slots[j])
  {
    hide LE, FromLE, ReadU64, Pow256, Holds, ScalarArgs, Fields;
    LastSlotsEndMessage(FieldShapes(LAUNCH_WIDTHS), buf, pos);
    SlotsFollowed(buf, d.value, Arguments(c, g).head, ScalarArgs(g.mem, c.kernelParams, ParamCount(g, c.f)));
  }

  /** The slots are the last 8-byte words before the place where decoding stops. */
  lemma LastSlotsEndMessage(fields: Shapes, buf: seq<byte>, pos: nat)
    requires DecodeAll(Shapes(TupleOf(fields), Shapes(WordsOf, NoShapes)), buf, pos).Got?
    ensures var d := DecodeAll(Shapes(TupleOf(fields), Shapes(WordsOf, NoShapes)), buf, pos);
            && d.value.Views? && d.value.tail.Views? && d.value.tail.head.SlotsView?
            && var slots := d.value.tail.head.slots;
               && (forall i :: 0 <= i < |slots| ==> slots[i] + 8 <= d.next)
               && (forall i, j :: 0 <= i < j < |slots| ==> slots[i] + 8 <= slots[j])
  {
    var head := Decode(TupleOf(fields), buf, pos);
    var tail := DecodeAll(Shapes(WordsOf, NoShapes), buf, head.next);
    assert head.Got? && tail.Got?;
    var words := Decode(WordsOf, buf, head.next);
    assert words.Got? && DecodeAll(NoShapes, buf, words.next) == Got(NoViews, words.next);
    assert tail == Got(Views(words.value, NoViews), words.next);
  }

  // ---------- reply direction ----------

  /** The module count once a call has been issued. */
  function LoadsAfter<D>(s: Direct<D>, c: Call): nat {
    if c.ModuleLoad? then s.loads + 1 else s.loads
  }

  /** Issuing a call parses a module or looks a kernel up; neither disturbs the agreement. */
  lemma PrepareMatches<D>(cfg: Config, drv: Driver<D>, pin: u64, g: Guest, s: Direct<D>, c: Call)
    requires Printed(cfg) && Matches(cfg, g, s) && WellFormed(cfg, drv, pin, s, c)
    ensures MatchesAt(cfg, Prepare(cfg, c, g), s, LoadsAfter(s, c)) && !ParseHangs(cfg, c, g)
  {
    if c.ModuleLoad? {
      PtxPrototype.CompiledHasBlocks(cfg.origin.sections, cfg.origin.after);
      PtxPrototype.ParseUndoesPrint(cfg.origin.sections, cfg.origin.after, g.protos);
    }
  }

  lemma WholeWord(bytes: seq<byte>)
    requires |bytes| == 8
    ensures LE(8, ReadU64(bytes, 0)) == bytes
  {
    assert bytes[0..8] == bytes;
    LEOfFromLE(bytes);
  }

  /** The result code is read back, whatever the handler wrote after it. */
  lemma CodeReadBack(response: seq<byte>, api: Api, items: Args, o: seq<byte>, written: bool, code: u32, stack: u64)
    requires |response| == RESPONSE_SIZE
    ensures FromLE(Answer(response, api, items, o, written, code, stack)[..4]) == code
  {
    var coded := Splice(response, 0, LE(4, code));
    var r := Answer(response, api, items, o, written, code, stack);
    assert r[..4] == coded[..4] == coded[0..0 + 4] == LE(4, code);
    Pow256Of8();
    FromLEOfLE(4, code);
  }

  /** The scalar that a handler answers with: the handle that the driver wrote, or what its local held before. */
  function Box(c: Call, o: seq<byte>, written: bool, stack: u64): u64 {
    if written && |o| == 8 then ReadU64(o, 0) else if c.ModuleLoad? && !written then stack else 0
  }

  /** A handle is read back byte for byte, through the pointer or as the scalar. */
  lemma HandleReadBack(response: seq<byte>, c: Call, items: Args, o: seq<byte>, written: bool, code: u32, stack: u64)
    requires |response| == RESPONSE_SIZE
    requires c.MemAlloc? || c.GetFunction? || c.ModuleLoad?
    ensures var reply := Answer(response, ApiOf(c), items, o, written, code, stack);
            var box := Box(c, o, written, stack);
            && ReadU64(reply, AREA) == box
            && (c.GetFunction? || (AllReadable(reply, AREA, ReplyWires(c))
                                   && FirstDelivered(reply, ReplyWires(c)) == Some(LE(8, box))))
  {
    var coded, box := Splice(response, 0, LE(4, code)), Box(c, o, written, stack);
    assert [Ptr(8)] + [Val(8)] == [Ptr(8), Val(8)] && [Ptr(8)] + [] == [Ptr(8)];
    ScalarReadByPointer(coded, box, []);
    ScalarReadByPointer(coded, box, [Val(8)]);
  }

  /** The box holds exactly what a remoted run writes through the out-pointer. */
  lemma BoxIsRemoteOut(c: Call, staging: seq<byte>, stack: u64, out: Option<seq<byte>>)
    requires c.MemAlloc? || c.GetFunction? || c.ModuleLoad?
    requires out.Some? ==> |out.value| == 8
    ensures var box := Box(c, if out.Some? then out.value else [], out.Some?, stack);
            LE(8, box) == RemoteOut(stack, c, staging, out) && (c.GetFunction? ==> box == HandleOf(out))
  {
    if out.Some? { WholeWord(out.value); }
  }

  /** The memory and the handle table after a hook that brings back a handle. */
  lemma FinishHandle<D>(g: Guest, h: Host<D>, c: Call, staging: seq<byte>, items: Args, o: Outcome<D>)
    requires |h.response| == RESPONSE_SIZE
    requires c.MemAlloc? || c.GetFunction? || c.ModuleLoad?
    requires o.out.Some? ==> |o.out.value| == 8
    ensures var served := Conclude(h, staging, ApiOf(c), items, o);
            var g' := Finish(c, g, served.host.response, served.staging);
            && g'.mem == Write(g.mem, OutAddress(c), Some(RemoteOut(h.stack, c, staging, o.out)))
            && g'.hashfunc == if c.GetFunction? then g.hashfunc[HandleOf(o.out) := c.name] else g.hashfunc
  {
    HandleReadBack(h.response, c, items, if o.out.Some? then o.out.value else [], o.out.Some?, o.code, h.stack);
    BoxIsRemoteOut(c, staging, h.stack, o.out);
  }

  /** The memory after a copy-out: staging carries the driver's bytes across, or what it held before. */
  lemma FinishCopyOut<D>(g: Guest, h: Host<D>, c: Call, staging: seq<byte>, items: Args, o: Outcome<D>)
    requires |h.response| == RESPONSE_SIZE && |staging| == STAGING_SIZE
    requires c.CopyOut? && c.count <= STAGING_SIZE
    requires Num64(items, 0) == c.dstHost && !PinnedMemory.IsPinned(h.clientPinStart, c.dstHost)
    requires o.out.Some? ==> |o.out.value| == c.count
    ensures var served := Conclude(h, staging, ApiOf(c), items, o);
            && served.staging == Write(staging, 0, o.out)
            && Finish(c, g, served.host.response, served.staging).mem
               == Write(g.mem, OutAddress(c), Some(RemoteOut(h.stack, c, staging, o.out)))
  {
    hide LE, FromLE, ReadU64, Pow256, PutItems, Num;
    if o.out.Some? {
      assert Slice(Write(staging, 0, o.out), 0, c.count) == o.out.value;
    }
  }

  /** A hook without an out-pointer writes nothing. */
  lemma FinishPlain<D>(g: Guest, h: Host<D>, c: Call, staging: seq<byte>, items: Args, o: Outcome<D>)
    requires |h.response| == RESPONSE_SIZE
    requires c.MemFree? || c.CopyIn? || c.LaunchKernel?
    requires o.out.Some? ==> |o.out.value| == 0
    ensures var served := Conclude(h, staging, ApiOf(c), items, o);
            var g' := Finish(c, g, served.host.response, served.staging);
            && g' == g.(codes := g'.codes) && served.staging == staging
            && g.mem == Write(g.mem, OutAddress(c), Some(RemoteOut(h.stack, c, staging, o.out)))
  {
    NothingWritten(g.mem, 0);
    assert RemoteOut(h.stack, c, staging, o.out) == [];
  }

  /** Memory, handle table and staging after any hook. */
  lemma FinishState<D(!new)>(cfg: Config, drv: Driver<D>, g: Guest, s: Direct<D>, h: Host<D>, c: Call,
                             staging: seq<byte>, items: Args, o: Outcome<D>)
    requires Lawful(drv) && WellFormed(cfg, drv, h.clientPinStart, s, c)
    requires |h.response| == RESPONSE_SIZE && |staging| == STAGING_SIZE
    requires c.CopyOut? ==> Num64(items, 0) == c.dstHost
    requires o == drv.run(s.dev, Resolve(drv, c, s.mem))
    ensures var served := Conclude(h, staging, ApiOf(c), items, o);
            var g' := Finish(c, g, served.host.response, served.staging);
            && g'.mem == Write(g.mem, OutAddress(c), Some(RemoteOut(h.stack, c, staging, o.out)))
            && g'.hashfunc == (if c.GetFunction? then g.hashfunc[HandleOf(o.out) := c.name] else g.hashfunc)
            && g'.protos == g.protos
            && served.staging == if c.CopyOut? then Write(staging, 0, o.out) else staging
  {
    if c.CopyOut? {
      FinishCopyOut(g, h, c, staging, items, o);
    } else if c.MemAlloc? || c.GetFunction? || c.ModuleLoad? {
      FinishHandle(g, h, c, staging, items, o);
    } else {
      FinishPlain(g, h, c, staging, items, o);
    }
  }

  lemma FinishCode<D>(g: Guest, h: Host<D>, c: Call, staging: seq<byte>, items: Args, o: Outcome<D>)
    requires |h.response| == RESPONSE_SIZE
    ensures var served := Conclude(h, staging, ApiOf(c), items, o);
            && Finish(c, g, served.host.response, served.staging).codes == g.codes + [o.code]
            && served.host.dev == o.state && served.host.stack == h.stack
            && served.host.clientPinStart == h.clientPinStart
  {
    CodeReadBack(h.response, ApiOf(c), items, if o.out.Some? then o.out.value else [], o.out.Some?, o.code, h.stack);
  }

  /** What the hook returns and writes, from the host's reply and staging, is one step of the remoted run. */
  lemma FinishIsRemoteStep<D(!new)>(cfg: Config, drv: Driver<D>, g: Guest, r: Remoted<D>, h: Host<D>, c: Call,
                                    items: Args)
    requires Lawful(drv) && MatchesAt(cfg, g, r.app, LoadsAfter(r.app, c))
    requires WellFormed(cfg, drv, h.clientPinStart, r.app, c)
    requires |h.response| == RESPONSE_SIZE && |r.staging| == STAGING_SIZE
    requires c.CopyOut? ==> Num64(items, 0) == c.dstHost
    ensures var staging := Stage(c, r.app.mem, r.staging);
            var served := Conclude(h, staging, ApiOf(c), items, drv.run(r.app.dev, Resolve(drv, c, r.app.mem)));
            var next := RemoteStep(drv, h.stack, r, c);
            && Matches(cfg, Finish(c, g, served.host.response, served.staging), next.app)
            && served.host.dev == next.app.dev && served.staging == next.staging
            && served.host.clientPinStart == h.clientPinStart && served.host.stack == h.stack
  {
    var o, staging := drv.run(r.app.dev, Resolve(drv, c, r.app.mem)), Stage(c, r.app.mem, r.staging);
    FinishState(cfg, drv, g, r.app, h, c, staging, items, o);
    FinishCode(g, h, c, staging, items, o);
  }

  /** On a message of the guest, the host makes the application's driver call and answers it. */
  lemma ServeMakesDirectCall<D>(cfg: Config, drv: Driver<D>, g: Guest, s: Direct<D>, h: Host<D>, c: Call,
                                staging: seq<byte>, buf: seq<byte>)
    requires Matches(cfg, g, s) && HandlesAgree(cfg, drv, s) && WellFormed(cfg, drv, h.clientPinStart, s, c)
    requires Staged(c, s.mem, staging) && Holds(buf, 0, Message(c, g)) && |h.response| == RESPONSE_SIZE
    ensures Serve(cfg, drv, h, staging, buf)
         == Conclude(h, staging, ApiOf(c), Arguments(c, g).head.items, drv.run(h.dev, Resolve(drv, c, s.mem)))
  {
    HostCallIsDirect(cfg, drv, g, s, h, c, staging, buf);
  }

  /**
   * The driver call that a remoted launch leads to, in terms of the application's memory alone: its handle, its
   * geometry, and for parameter `i` the bytes of its variable, as many as the kernel declares.
   */
  lemma LaunchServed<D>(cfg: Config, drv: Driver<D>, g: Guest, s: Direct<D>, h: Host<D>, c: Call,
                        staging: seq<byte>, buf: seq<byte>, i: nat, p: u64)
    requires Matches(cfg, g, s) && HandlesAgree(cfg, drv, s) && WellFormed(cfg, drv, h.clientPinStart, s, c)
    requires Staged(c, s.mem, staging) && Holds(buf, 0, Message(c, g)) && |h.response| == RESPONSE_SIZE
    requires c.LaunchKernel? && i < |drv.signature(c.f)| && p + drv.signature(c.f)[i] <= |s.mem|
    requires s.mem[c.kernelParams + 8 * i..c.kernelParams + 8 * i + 8] == LE(8, p)
    ensures var call := Resolve(drv, c, s.mem);
            && Serve(cfg, drv, h, staging, buf).host.dev == drv.run(h.dev, call).state
            && call.Launch? && call.f == c.f && call.geometry == c.geometry
            && |call.params| == |drv.signature(c.f)| && call.params[i] == s.mem[p..p + drv.signature(c.f)[i]]
  {
    hide LE, FromLE, Serve, Message, Holds;
    LaunchReadsVariables(drv, c, s.mem, i, p);
    ServeMakesDirectCall(cfg, drv, g, s, h, c, staging, buf);
  }

  /** A remoted lookup asks the driver for the application's own characters, in their order. */
  lemma LookupServed<D>(cfg: Config, drv: Driver<D>, g: Guest, s: Direct<D>, h: Host<D>, c: Call,
                        staging: seq<byte>, buf: seq<byte>, name: seq<byte>)
    requires Matches(cfg, g, s) && HandlesAgree(cfg, drv, s) && WellFormed(cfg, drv, h.clientPinStart, s, c)
    requires Staged(c, s.mem, staging) && Holds(buf, 0, Message(c, g)) && |h.response| == RESPONSE_SIZE
    requires c.GetFunction? && |name| == |c.name| && forall i :: 0 <= i < |name| ==> name[i] == c.name[i] as int
    ensures Serve(cfg, drv, h, staging, buf).host.dev == drv.run(h.dev, GetFn(c.hmod, name)).state
  {
    hide Serve, Message, Holds;
    assert name == Ascii(c.name);
    ServeMakesDirectCall(cfg, drv, g, s, h, c, staging, buf);
  }

  /** The guest before a call, the host waiting for it, and the application's view of both. */
  ghost predicate Between<D(!new)>(cfg: Config, drv: Driver<D>, g: Guest, r: Remoted<D>, h: Host<D>) {
    && Matches(cfg, g, r.app) && HandlesAgree(cfg, drv, r.app) && h.dev == r.app.dev
    && |h.response| == RESPONSE_SIZE && |r.staging| == STAGING_SIZE
  }

  /** One remoted call, start to finish, is one step of the remoted run, whatever the driver does. */
  lemma CallIsRemoteStep<D(!new)>(cfg: Config, drv: Driver<D>, g: Guest, r: Remoted<D>, h: Host<D>, c: Call,
                                  buf: seq<byte>)
    requires Honest(cfg, drv) && Between(cfg, drv, g, r, h)
    requires WellFormed(cfg, drv, h.clientPinStart, r.app, c) && Holds(buf, 0, Message(c, g))
    ensures var served := Serve(cfg, drv, h, Stage(c, r.app.mem, r.staging), buf);
            var next := RemoteStep(drv, h.stack, r, c);
            && Matches(cfg, Finish(c, Prepare(cfg, c, g), served.host.response, served.staging), next.app)
            && served.host.dev == next.app.dev && served.staging == next.staging
            && served.host.clientPinStart == h.clientPinStart && served.host.stack == h.stack
  {
    PrepareMatches(cfg, drv, h.clientPinStart, g, r.app, c);
    StageStages(c, r.app.mem, r.staging);
    ServeMakesDirectCall(cfg, drv, g, r.app, h, c, Stage(c, r.app.mem, r.staging), buf);
    ItemsMeanCall(c, g);
    FinishIsRemoteStep(cfg, drv, Prepare(cfg, c, g), r, h, c, Arguments(c, g).head.items);
  }

  /** A remoted step keeps every handle tied to its kernel: it differs from the direct one in memory only. */
  lemma RemoteHandlesKeepAgreeing<D(!new)>(cfg: Config, drv: Driver<D>, pin: u64, stack: u64, r: Remoted<D>, c: Call)
    requires Honest(cfg, drv) && HandlesAgree(cfg, drv, r.app) && WellFormed(cfg, drv, pin, r.app, c)
    ensures HandlesAgree(cfg, drv, RemoteStep(drv, stack, r, c).app)
  {
    HandlesKeepAgreeing(cfg, drv, pin, r.app, c);
  }

  // ---------- exactly when it is transparent ----------

  /**
   * Any well-formed call, whatever the driver does: the result code, the device and the handle table are always
   * the direct call's, and so is the application's memory exactly when the driver delivered or the leftovers
   * were already there.
   */
  lemma CallTransparentIff<D(!new)>(cfg: Config, drv: Driver<D>, g: Guest, r: Remoted<D>, h: Host<D>, c: Call,
                                    buf: seq<byte>)
    requires Honest(cfg, drv) && Between(cfg, drv, g, r, h)
    requires WellFormed(cfg, drv, h.clientPinStart, r.app, c) && Holds(buf, 0, Message(c, g))
    ensures var served := Serve(cfg, drv, h, Stage(c, r.app.mem, r.staging), buf);
            var after, direct := Finish(c, Prepare(cfg, c, g), served.host.response, served.staging),
                                 DirectStep(drv, r.app, c);
            && after.codes == direct.codes && after.hashfunc == direct.handles && served.host.dev == direct.dev
            && (after.mem == direct.mem <==> Transparent(drv, h.stack, r.app, r.staging, c))
  {
    CallIsRemoteStep(cfg, drv, g, r, h, c, buf);
    WellFormedFits(cfg, drv, h.clientPinStart, r.app, c);
    StepTransparentIff(drv, h.stack, r, c);
  }

  // ---------- pinned copies ----------

  /** A copy's message decodes to the application's arguments, wherever its pointer leads. */
  lemma CopyDecoded(c: Call, g: Guest, buf: seq<byte>)
    requires (c.CopyIn? || c.CopyOut?) && Holds(buf, 0, Message(c, g))
    ensures var name := Decode(CStrOf, buf, 0);
            && name.Got? && Dispatch(CString(buf, name.value.at)) == Some(ApiOf(c))
            && var d := DecodeAll(ArgumentShapes(ApiOf(c)), buf, name.next);
               && d.Got? && d.value.Views? && d.value.head.TupleView?
               && FollowAll(buf, d.value.head.items) == Arguments(c, g).head.items
  {
    hide LE, FromLE, Pow256, Ascii, CString, Encode, EncodeAll;
    HostFindsHandler(c, g, buf);
    var at := Decode(CStrOf, buf, 0).next;
    ShapesAgree(c, g);
    if c.CopyIn? {
      FieldTuple([P(c.dst), P(c.srcHost), P(c.count)], Nil);
    } else {
      FieldTuple([P(c.dstHost), P(c.src), P(c.count)], Nil);
    }
    DecodeAllUndoesEncodeAll(Arguments(c, g), buf, at);
    ArgumentsDecodedAs(ApiOf(c), buf, at);
    TupleFollowed(buf, DecodeAll(ArgumentShapes(ApiOf(c)), buf, at).value, Arguments(c, g).head.items,
                  Arguments(c, g).tail);
  }

  /** The range of the pinned area behind an address that the host recognises. */
  predicate PinnedRange<D>(h: Host<D>, ptr: u64, off: nat, count: nat) {
    && PinnedMemory.AreaFits(h.clientPinStart) && ptr == h.clientPinStart + off
    && off + count <= |h.pinned| <= PinnedMemory.PIN_SIZE
  }

  /** A copy-in from pinned memory gives the driver the bytes of the pinned area at that place, and not staging. */
  lemma PinnedCopyInServed<D>(cfg: Config, drv: Driver<D>, g: Guest, h: Host<D>, c: Call, staging: seq<byte>,
                              buf: seq<byte>, off: nat)
    requires c.CopyIn? && Holds(buf, 0, Message(c, g)) && |h.response| == RESPONSE_SIZE
    requires PinnedRange(h, c.srcHost, off, c.count)
    ensures Serve(cfg, drv, h, staging, buf).host.dev
         == drv.run(h.dev, HtoD(c.dst, h.pinned[off..off + c.count])).state
    ensures Serve(cfg, drv, h, staging, buf).host.pinned == h.pinned
  {
    hide LE, FromLE, Pow256, Ascii, CString, Encode, EncodeAll, Fields;
    CopyDecoded(c, g, buf);
    ItemsMeanCall(c, g);
  }

  /** Where the application's memory is the pinned area, that is the direct call. */
  lemma PinnedCopyInIsDirect<D>(cfg: Config, drv: Driver<D>, g: Guest, h: Host<D>, c: Call, mem: seq<byte>,
                                staging: seq<byte>, buf: seq<byte>, off: nat)
    requires c.CopyIn? && Holds(buf, 0, Message(c, g)) && |h.response| == RESPONSE_SIZE
    requires PinnedRange(h, c.srcHost, off, c.count) && c.srcHost + c.count <= |mem|
    requires mem[c.srcHost..c.srcHost + c.count] == h.pinned[off..off + c.count]
    ensures Serve(cfg, drv, h, staging, buf).host.dev == drv.run(h.dev, Resolve(drv, c, mem)).state
  {
    hide Serve, Message, Holds;
    PinnedCopyInServed(cfg, drv, g, h, c, staging, buf, off);
  }

  /** A copy-out to pinned memory puts the driver's bytes at that place of the pinned area, and nowhere else. */
  lemma PinnedCopyOutServed<D>(cfg: Config, drv: Driver<D>, g: Guest, h: Host<D>, c: Call, staging: seq<byte>,
                               buf: seq<byte>, off: nat, out: seq<byte>)
    requires c.CopyOut? && Holds(buf, 0, Message(c, g)) && |h.response| == RESPONSE_SIZE
    requires PinnedRange(h, c.dstHost, off, c.count) && |out| == c.count
    requires drv.run(h.dev, DtoH(c.src, c.count)).out == Some(out)
    ensures var served := Serve(cfg, drv, h, staging, buf);
            && served.staging == staging && |served.host.pinned| == |h.pinned|
            && forall k :: 0 <= k < |h.pinned| ==>
                 served.host.pinned[k] == if off <= k < off + c.count then out[k - off] else h.pinned[k]
  {
    hide LE, FromLE, Pow256, Ascii, CString, Encode, EncodeAll, Fields, Answer;
    CopyDecoded(c, g, buf);
    ItemsMeanCall(c, g);
    var after := Write(h.pinned, off, Some(out));
    forall k | off <= k < off + c.count
      ensures after[k] == out[k - off]
    {
      assert after[off..off + |out|][k - off] == out[k - off];
    }
  }

  /**
   * Byte `k` of a copy-in from guest block `i` is the byte of the pinned area that the translated address leads
   * to, and that address is in host block `i` and in no other.
   */
  lemma PinnedCopyReadsBlock<D>(h: Host<D>, hostStart: u64, sizes: seq<nat>, i: nat, j: nat, ptr: u64, count: nat,
                                k: nat)
    requires PinnedMemory.AreaFits(h.clientPinStart) && PinnedMemory.AreaFits(hostStart)
    requires PinnedMemory.Total(sizes) <= |h.pinned| == PinnedMemory.PIN_SIZE
    requires k < count && PinnedMemory.InBlock(h.clientPinStart, sizes, i, ptr)
    requires PinnedMemory.InBlock(h.clientPinStart, sizes, i, ptr + count - 1)
    ensures var off := ptr - h.clientPinStart;
            var address := PinnedMemory.ConvertPin(h.clientPinStart, hostStart, ptr) + k;
            && PinnedRange(h, ptr, off, count)
            && 0 <= address - hostStart < |h.pinned|
            && h.pinned[off..off + count][k] == h.pinned[address - hostStart]
            && PinnedMemory.InBlock(hostStart, sizes, i, address)
            && (PinnedMemory.InBlock(hostStart, sizes, j, address) ==> j == i)
  {
    PinnedMemory.TranslationRespectsBlocks(h.clientPinStart, hostStart, sizes, i, ptr, count, k, j);
    PinnedMemory.BlocksPartition(h.clientPinStart, sizes, i, i, ptr);
    PinnedMemory.BlocksPartition(h.clientPinStart, sizes, i, i, ptr + count - 1);
  }


  /** What the application's memory becomes: staging as it was, since the host wrote the pinned area. */
  lemma PinnedCopyOutMemory<D>(g: Guest, h: Host<D>, c: Call, staging: seq<byte>, items: Args, o: Outcome<D>)
    requires c.CopyOut? && |h.response| == RESPONSE_SIZE
    requires Num64(items, 0) == c.dstHost && PinnedMemory.IsPinned(h.clientPinStart, c.dstHost)
    ensures var served := Conclude(h, staging, ApiOf(c), items, o);
            Finish(c, g, served.host.response, served.staging).mem
            == Write(g.mem, c.dstHost, Some(Slice(staging, 0, c.count)))
  {
  }

  /** The call looks direct with this content of staging. */
  predicate PinnedLooksDirect<D>(drv: Driver<D>, g: Guest, s: Direct<D>, h: Host<D>, c: Call,
                                 staging: seq<byte>, items: Args)
    requires |h.response| == RESPONSE_SIZE
  {
    var served := Conclude(h, staging, ApiOf(c), items, drv.run(s.dev, Resolve(drv, c, s.mem)));
    Finish(c, g, served.host.response, served.staging).mem == DirectStep(drv, s, c).mem
  }

  /** A staging buffer whose first byte is not `b`. */
  function Other(b: byte): (staging: seq<byte>)
    ensures |staging| == STAGING_SIZE && staging[0] != b
  {
    seq(STAGING_SIZE, i => (b + 1) % 256)
  }

  /** A pinned destination whose range is not empty is spoilt by any staging that starts with another byte. */
  lemma PinnedCopyOutSpoilt<D(!new)>(drv: Driver<D>, g: Guest, s: Direct<D>, h: Host<D>, c: Call, items: Args)
    requires Lawful(drv) && c.CopyOut? && 0 < c.count <= STAGING_SIZE && c.dstHost + c.count <= |s.mem|
    requires g.mem == s.mem && |h.response| == RESPONSE_SIZE
    requires Num64(items, 0) == c.dstHost && PinnedMemory.IsPinned(h.clientPinStart, c.dstHost)
    ensures !PinnedLooksDirect(drv, g, s, h, c, Other(DirectStep(drv, s, c).mem[c.dstHost]), items)
  {
    var o := drv.run(s.dev, Resolve(drv, c, s.mem));
    var staging := Other(DirectStep(drv, s, c).mem[c.dstHost]);
    PinnedCopyOutMemory(g, h, c, staging, items, o);
    var after := Splice(s.mem, c.dstHost, staging[..c.count]);
    assert after[c.dstHost] == after[c.dstHost..c.dstHost + c.count][0] == staging[0];
  }

  /** A device that holds the byte 5 at address 1000. */
  function Fives(): Driver<()> {
    Driver((d: (), call: DriverCall) => Outcome((), 0, if call == DtoH(1000, 1) then Some([5]) else None), f => [])
  }

  /** For one: with staging all zero, the application reads 0 where the driver copied out 5. */
  lemma PinnedCopyOutShows(response: seq<byte>, staging: seq<byte>)
    requires |response| == RESPONSE_SIZE && |staging| == STAGING_SIZE && staging[0] == 0
    ensures var c, s := CopyOut(1, 1000, 1), Direct([3, 7], (), [], map[], 0);
            var h := Host((), response, 1, [9], 0);
            var served := Conclude(h, staging, ApiOf(c), Fields([P(1), P(1000), P(1)]),
                                   Fives().run((), Resolve(Fives(), c, s.mem)));
            && PinnedMemory.IsPinned(h.clientPinStart, c.dstHost) && served.host.pinned == [5]
            && Finish(c, Guest([3, 7], map[], map[], []), served.host.response, served.staging).mem == [3, 0]
            && DirectStep(Fives(), s, c).mem == [3, 5]
  {
    hide LE, FromLE, ReadU64;
    var c, s := CopyOut(1, 1000, 1), Direct([3, 7], (), [], map[], 0);
    var h := Host((), response, 1, [9], 0);
    var items := Fields([P(1), P(1000), P(1)]);
    var o := Fives().run((), Resolve(Fives(), c, s.mem));
    Pow256Of8();
    FieldFound([P(1), P(1000), P(1)], 0);
    PinnedCopyOutMemory(Guest([3, 7], map[], map[], []), h, c, staging, items, o);
    assert Splice([3, 7], 1, [0]) == [3, 0] && Splice([3, 7], 1, [5]) == [3, 5] && Splice([9], 0, [5]) == [5];
    assert Slice(staging, 0, 1) == [0];
  }

  /** A copy-out to a pinned destination can be relied on exactly when there is nothing to copy. */
  lemma PinnedCopyOutTransparentIff<D(!new)>(drv: Driver<D>, g: Guest, s: Direct<D>, h: Host<D>, c: Call, items: Args)
    requires Lawful(drv) && c.CopyOut? && c.count <= STAGING_SIZE && c.dstHost + c.count <= |s.mem|
    requires g.mem == s.mem && |h.response| == RESPONSE_SIZE
    requires Num64(items, 0) == c.dstHost && PinnedMemory.IsPinned(h.clientPinStart, c.dstHost)
    ensures (forall staging: seq<byte> :: |staging| == STAGING_SIZE ==>
               PinnedLooksDirect(drv, g, s, h, c, staging, items))
       <==> c.count == 0
  {
    if c.count > 0 {
      PinnedCopyOutSpoilt(drv, g, s, h, c, items);
    } else {
      var o := drv.run(s.dev, Resolve(drv, c, s.mem));
      forall staging: seq<byte> | |staging| == STAGING_SIZE
        ensures PinnedLooksDirect(drv, g, s, h, c, staging, items)
      {
        PinnedCopyOutMemory(g, h, c, staging, items, o);
        NothingWritten(s.mem, c.dstHost);
        assert o.out.Some? ==> o.out.value == [];
      }
    }
  }
}
