/** One remoted call: what the guest's hook sends, what the host does with it, what the hook does with the reply. */
module Protocol {
  import opened Bytes
  import opened Wrappers
  import opened Driver
  import opened RequestCodec
  import opened ReplyCodec
  import PtxPrototype
  import PinnedMemory

  const STAGING_SIZE := 9437184    // (1 << 20) * 9

  /**
   * The shipped PTX file: its lines, read by the guest, and its path, used by the host. The module that the
   * compiler printed as those lines is for reasoning; no step of either side reads it.
   */
  datatype Config = Config(ptx: seq<string>, shippedPath: string, origin: PtxPrototype.Module)

  // ---------- names ----------

  datatype Api = ApiMemAlloc | ApiHtoD | ApiLoad | ApiGetFunction | ApiLaunch | ApiDtoH | ApiMemFree

  function NameOf(api: Api): string {
    match api
    case ApiMemAlloc => "cuMemAlloc"
    case ApiHtoD => "cuMemcpyHtoD"
    case ApiLoad => "cuModuleLoad"
    case ApiGetFunction => "cuModuleGetFunction"
    case ApiLaunch => "cuLaunchKernel"
    case ApiDtoH => "cuMemcpyDtoH"
    case ApiMemFree => "cuMemFree"
  }

  function ApiOf(c: Call): Api {
    match c
    case MemAlloc(_, _) => ApiMemAlloc
    case MemFree(_) => ApiMemFree
    case CopyIn(_, _, _) => ApiHtoD
    case CopyOut(_, _, _) => ApiDtoH
    case ModuleLoad(_, _) => ApiLoad
    case GetFunction(_, _, _) => ApiGetFunction
    case LaunchKernel(_, _, _, _) => ApiLaunch
  }

  /** The host's chain of `strcmp`s, then its table of generic handlers. */
  function Dispatch(name: seq<byte>): Option<Api> {
    if name == Ascii("cuMemAlloc") then Some(ApiMemAlloc)
    else if name == Ascii("cuMemcpyHtoD") then Some(ApiHtoD)
    else if name == Ascii("cuModuleLoad") then Some(ApiLoad)
    else if name == Ascii("cuModuleGetFunction") then Some(ApiGetFunction)
    else if name == Ascii("cuLaunchKernel") then Some(ApiLaunch)
    else if name == Ascii("cuMemcpyDtoH") then Some(ApiDtoH)
    else if name == Ascii("cuMemFree") then Some(ApiMemFree)
    else None
  }

  lemma NamesPrintable(api: Api)
    ensures Printable(NameOf(api)) && |NameOf(api)| <= 19
  {
    match api
    case ApiMemAlloc => assert Printable("cuMemAlloc");
    case ApiHtoD => assert Printable("cuMemcpyHtoD");
    case ApiLoad => assert Printable("cuModuleLoad");
    case ApiGetFunction => assert Printable("cuModuleGetFunction");
    case ApiLaunch => assert Printable("cuLaunchKernel");
    case ApiDtoH => assert Printable("cuMemcpyDtoH");
    case ApiMemFree => assert Printable("cuMemFree");
  }

  /** The names differ in length, or else in their ninth character. */
  lemma NamesDiffer(a: Api, b: Api)
    ensures Ascii(NameOf(a)) == Ascii(NameOf(b)) ==> a == b
  {
    assert |NameOf(ApiMemAlloc)| == 10 && |NameOf(ApiGetFunction)| == 19 && |NameOf(ApiLaunch)| == 14;
    assert |NameOf(ApiHtoD)| == |NameOf(ApiDtoH)| == |NameOf(ApiLoad)| == 12 && |NameOf(ApiMemFree)| == 9;
    assert Ascii(NameOf(ApiHtoD))[8] == 'H' as int && Ascii(NameOf(ApiDtoH))[8] == 'D' as int;
    assert Ascii(NameOf(ApiLoad))[8] == 'L' as int;
  }

  /** Each handler is selected by its own name and by no other text. */
  lemma DispatchFindsName(api: Api, name: seq<byte>)
    ensures Dispatch(name) == Some(api) <==> name == Ascii(NameOf(api))
  {
    hide Ascii;
    NamesDiffer(api, ApiMemAlloc);
    NamesDiffer(api, ApiHtoD);
    NamesDiffer(api, ApiLoad);
    NamesDiffer(api, ApiGetFunction);
    NamesDiffer(api, ApiLaunch);
    NamesDiffer(api, ApiDtoH);
    NamesDiffer(api, ApiMemFree);
  }

  // ---------- the guest's half: request ----------

  /** The globals behind the hooks: application memory, `func_proto`, `hashfunc`, and the results returned. */
  datatype Guest = Guest(
    mem: seq<byte>, protos: PtxPrototype.Prototypes, hashfunc: map<u64, string>, codes: seq<u32>)

  function NameOfHandle(g: Guest, f: u64): string {
    if f in g.hashfunc then g.hashfunc[f] else ""
  }

  function ParamCount(g: Guest, f: u64): nat {
    |PtxPrototype.Params(g.protos, NameOfHandle(g, f))|
  }

  /** The kernel's arguments, each read as 8 bytes, however wide the parameter is. */
  function ScalarArgs(mem: seq<byte>, kernelParams: u64, count: nat): (words: seq<u64>)
    ensures |words| == count
  {
    seq(count, i requires 0 <= i < count =>
      var at := ParamAddress(mem, kernelParams, i);
      if at + 8 <= |mem| then ReadU64(mem, at) else 0)
  }

  /** Word `i` holds the 8 bytes of the variable that the application's pointer number `i` leads to. */
  lemma ScalarShowsVariable(mem: seq<byte>, kernelParams: u64, count: nat, i: nat, p: u64)
    requires i < count && kernelParams + 8 * i + 8 <= |mem| && p + 8 <= |mem|
    requires mem[kernelParams + 8 * i..kernelParams + 8 * i + 8] == LE(8, p)
    ensures LE(8, ScalarArgs(mem, kernelParams, count)[i]) == mem[p..p + 8]
  {
    hide LE, FromLE, Pow256;
    ParamAddressRead(mem, kernelParams, i, p);
    LEOfFromLE(mem[p..p + 8]);
  }

  /** A run of integer and pointer arguments: how wide each is, and its value. */
  datatype Field = Field(width: nat, value: nat)

  function Fields(fields: seq<Field>): Args {
    if fields == [] then Nil else Cons(Raw(LE(fields[0].width, fields[0].value)), Fields(fields[1..]))
  }

  function FieldShapes(widths: seq<nat>): Shapes {
    if widths == [] then NoShapes else Shapes(RawOf(widths[0]), FieldShapes(widths[1..]))
  }

  function P(n: u64): Field { Field(8, n) }
  function U(n: u32): Field { Field(4, n) }

  function LaunchFields(f: u64, g: Geometry, kernelParams: u64, extra: u64): seq<Field> {
    [P(f), U(g.gridX), U(g.gridY), U(g.gridZ), U(g.blockX), U(g.blockY), U(g.blockZ), U(g.sharedMem),
     P(g.stream), P(kernelParams), P(extra)]
  }

  const LAUNCH_WIDTHS: seq<nat> := [8, 4, 4, 4, 4, 4, 4, 4, 8, 8, 8]

  /** The arguments a hook passes on after the function name, grouped as the host decodes them. */
  function Arguments(c: Call, g: Guest): Args {
    match c
    case MemAlloc(dptr, bytesize) => Cons(Tuple(Fields([P(dptr), P(bytesize)])), Nil)
    case MemFree(devptr) => Cons(Tuple(Fields([P(devptr)])), Nil)
    case CopyIn(dst, srcHost, count) => Cons(Tuple(Fields([P(dst), P(srcHost), P(count)])), Nil)
    case CopyOut(dstHost, src, count) => Cons(Tuple(Fields([P(dstHost), P(src), P(count)])), Nil)
    case ModuleLoad(module_, path) => Cons(Tuple(Cons(Raw(LE(8, module_)), Cons(CStr(Ascii(path)), Nil))), Nil)
    case GetFunction(hfunc, hmod, name) =>
      Cons(Tuple(Cons(Raw(LE(8, hfunc)), Cons(Raw(LE(8, hmod)), Cons(CStr(Ascii(name)), Nil)))), Nil)
    case LaunchKernel(f, geometry, kernelParams, extra) =>
      Cons(Tuple(Fields(LaunchFields(f, geometry, kernelParams, extra))),
      Cons(Words(ScalarArgs(g.mem, kernelParams, ParamCount(g, f))), Nil))
  }

  function Request(c: Call, g: Guest): Args {
    Cons(CStr(Ascii(NameOf(ApiOf(c)))), Arguments(c, g))
  }

  function Message(c: Call, g: Guest): seq<byte> {
    EncodeAll(Request(c, g))
  }

  /** A string on the wire: its length, its characters, its terminator. */
  function Text(s: string): seq<byte> {
    LE(8, |s|) + Ascii(s) + [NUL]
  }

  /** Integers and pointers on the wire, one behind the other. */
  function FieldBytes(fields: seq<Field>): seq<byte> {
    if fields == [] then [] else LE(fields[0].width, fields[0].value) + FieldBytes(fields[1..])
  }

  lemma {:induction false} FieldsOnTheWire(fields: seq<Field>)
    ensures EncodeAll(Fields(fields)) == FieldBytes(fields)
  {
    if fields != [] { FieldsOnTheWire(fields[1..]); }
  }

  /** A tuple of fields, with what follows it. */
  lemma TupleOnTheWire(fields: seq<Field>, rest: Args)
    ensures EncodeAll(Cons(Tuple(Fields(fields)), rest)) == FieldBytes(fields) + EncodeAll(rest)
    ensures EncodeAll(Cons(Tuple(Fields(fields)), Nil)) == FieldBytes(fields)
  {
    FieldsOnTheWire(fields);
    LastOnTheWire(Tuple(Fields(fields)));
  }

  lemma LastOnTheWire(a: Arg)
    ensures EncodeAll(Cons(a, Nil)) == Encode(a)
  {
    assert Encode(a) + [] == Encode(a);
  }

  /** The message of every hook, byte for byte: the name of the function, then its arguments in C order. */
  lemma MessageLayout(c: Call, g: Guest)
    ensures Message(c, g) ==
      match c
      case MemAlloc(dptr, bytesize) => Text("cuMemAlloc") + (LE(8, dptr) + LE(8, bytesize))
      case MemFree(devptr) => Text("cuMemFree") + LE(8, devptr)
      case CopyIn(dst, srcHost, count) => Text("cuMemcpyHtoD") + (LE(8, dst) + (LE(8, srcHost) + LE(8, count)))
      case CopyOut(dstHost, src, count) => Text("cuMemcpyDtoH") + (LE(8, dstHost) + (LE(8, src) + LE(8, count)))
      case ModuleLoad(module_, path) => Text("cuModuleLoad") + (LE(8, module_) + Text(path))
      case GetFunction(hfunc, hmod, name) => Text("cuModuleGetFunction") + (LE(8, hfunc) + (LE(8, hmod) + Text(name)))
      case LaunchKernel(f, q, kernelParams, extra) =>
        var words := ScalarArgs(g.mem, kernelParams, ParamCount(g, f));
        Text("cuLaunchKernel") +
        (FieldBytes([Field(8, f), Field(4, q.gridX), Field(4, q.gridY), Field(4, q.gridZ), Field(4, q.blockX),
                     Field(4, q.blockY), Field(4, q.blockZ), Field(4, q.sharedMem), Field(8, q.stream),
                     Field(8, kernelParams), Field(8, extra)]) + (LE(8, |words|) + WordBytes(words)))
  {
    hide LE, Ascii, WordBytes, ScalarArgs, ParamCount, EncodeAll;
    ConsUnfolds(CStr(Ascii(NameOf(ApiOf(c)))), Arguments(c, g));
    match c
    case MemAlloc(dptr, bytesize) =>
      TupleOnTheWire([P(dptr), P(bytesize)], Nil);
      TwoFields(P(dptr), P(bytesize));
    case MemFree(devptr) =>
      TupleOnTheWire([P(devptr)], Nil);
      assert FieldBytes([P(devptr)]) == LE(8, devptr);
    case CopyIn(dst, srcHost, count) =>
      TupleOnTheWire([P(dst), P(srcHost), P(count)], Nil);
      ThreeFields(P(dst), P(srcHost), P(count));
    case CopyOut(dstHost, src, count) =>
      TupleOnTheWire([P(dstHost), P(src), P(count)], Nil);
      ThreeFields(P(dstHost), P(src), P(count));
    case ModuleLoad(module_, path) =>
      LastOnTheWire(Arguments(c, g).head);
      LastOnTheWire(CStr(Ascii(path)));
      ConsUnfolds(Raw(LE(8, module_)), Cons(CStr(Ascii(path)), Nil));
    case GetFunction(hfunc, hmod, name) =>
      LastOnTheWire(Arguments(c, g).head);
      LastOnTheWire(CStr(Ascii(name)));
      ConsUnfolds(Raw(LE(8, hmod)), Cons(CStr(Ascii(name)), Nil));
      ConsUnfolds(Raw(LE(8, hfunc)), Cons(Raw(LE(8, hmod)), Cons(CStr(Ascii(name)), Nil)));
    case LaunchKernel(f, q, kernelParams, extra) =>
      TupleOnTheWire(LaunchFields(f, q, kernelParams, extra),
                     Cons(Words(ScalarArgs(g.mem, kernelParams, ParamCount(g, f))), Nil));
      LastOnTheWire(Words(ScalarArgs(g.mem, kernelParams, ParamCount(g, f))));
  }

  lemma TwoFields(a: Field, b: Field)
    ensures FieldBytes([a, b]) == LE(a.width, a.value) + LE(b.width, b.value)
  {
    assert [a, b][1..] == [b] && [b][1..] == [];
    assert FieldBytes([b]) == LE(b.width, b.value);
  }

  lemma ThreeFields(a: Field, b: Field, c: Field)
    ensures FieldBytes([a, b, c]) == LE(a.width, a.value) + (LE(b.width, b.value) + LE(c.width, c.value))
  {
    assert [a, b, c][1..] == [b, c];
    assert FieldBytes([a, b, c]) == LE(a.width, a.value) + FieldBytes([b, c]);
    TwoFields(b, c);
  }

  /** What a hook does to its own tables before it waits for the reply. */
  function Prepare(cfg: Config, c: Call, g: Guest): Guest {
    match c
    case ModuleLoad(_, _) =>
      (match PtxPrototype.Parse(cfg.ptx, g.protos)
       case Parsed(m) => g.(protos := m)
       case Hangs => g)
    case LaunchKernel(f, _, _, _) =>
      var name := NameOfHandle(g, f);
      g.(hashfunc := g.hashfunc[f := name], protos := g.protos[name := PtxPrototype.Params(g.protos, name)])
    case _ => g
  }

  /** `to_device` ends the process: the data does not fit, or the source pointer is null. */
  predicate Aborts(c: Call) {
    c.CopyIn? && (c.count > STAGING_SIZE || c.srcHost == 0)
  }

  /** `add_module` never comes back, after the request is sent and before the reply is awaited. */
  predicate ParseHangs(cfg: Config, c: Call, g: Guest) {
    c.ModuleLoad? && PtxPrototype.Parse(cfg.ptx, g.protos).Hangs?
  }

  /** `to_device` before a copy-in. */
  function Stage(c: Call, mem: seq<byte>, staging: seq<byte>): (r: seq<byte>)
    ensures |r| == |staging|
  {
    if c.CopyIn? && !Aborts(c) then Write(staging, 0, Some(Slice(mem, c.srcHost, c.count))) else staging
  }

  /** The staging bytes the host would consume for a copy-in are the guest's source bytes. */
  predicate Staged(c: Call, mem: seq<byte>, staging: seq<byte>) {
    |staging| == STAGING_SIZE && (c.CopyIn? ==> Slice(staging, 0, c.count) == Slice(mem, c.srcHost, c.count))
  }

  /** A copy-in that does not abort, from a range of memory, is staged whole. */
  lemma StageStages(c: Call, mem: seq<byte>, staging: seq<byte>)
    requires |staging| == STAGING_SIZE && (c.CopyIn? ==> !Aborts(c) && c.srcHost + c.count <= |mem|)
    ensures Staged(c, mem, Stage(c, mem, staging))
  {
  }

  // ---------- the host's half ----------

  /** The host's objects: device, reply buffer, pinned area and its guest base, and what lies on its stack. */
  datatype Host<D> = Host(dev: D, response: seq<byte>, clientPinStart: u64, pinned: seq<byte>, stack: u64)

  function ArgumentShapes(api: Api): Shapes {
    match api
    case ApiMemAlloc => Shapes(TupleOf(FieldShapes([8, 8])), NoShapes)
    case ApiMemFree => Shapes(TupleOf(FieldShapes([8])), NoShapes)
    case ApiHtoD => Shapes(TupleOf(FieldShapes([8, 8, 8])), NoShapes)
    case ApiDtoH => Shapes(TupleOf(FieldShapes([8, 8, 8])), NoShapes)
    case ApiLoad => Shapes(TupleOf(Shapes(RawOf(8), Shapes(CStrOf, NoShapes))), NoShapes)
    case ApiGetFunction => Shapes(TupleOf(Shapes(RawOf(8), Shapes(RawOf(8), Shapes(CStrOf, NoShapes)))), NoShapes)
    case ApiLaunch => Shapes(TupleOf(FieldShapes(LAUNCH_WIDTHS)), Shapes(WordsOf, NoShapes))
  }

  /** A decoded argument list is a tuple, followed for a launch by the kernel's slots. */
  lemma ArgumentsDecodedAs(api: Api, buf: seq<byte>, pos: nat)
    requires DecodeAll(ArgumentShapes(api), buf, pos).Got?
    ensures var views := DecodeAll(ArgumentShapes(api), buf, pos).value;
            && views.Views? && views.head.TupleView?
            && (api.ApiLaunch? ==> views.tail.Views? && views.tail.head.SlotsView?)
  {
    var shapes := ArgumentShapes(api);
    TupleDecodedAs(shapes.head.items, shapes.tail, buf, pos);
  }

  lemma TupleDecodedAs(fields: Shapes, rest: Shapes, buf: seq<byte>, pos: nat)
    requires DecodeAll(Shapes(TupleOf(fields), rest), buf, pos).Got?
    ensures var views := DecodeAll(Shapes(TupleOf(fields), rest), buf, pos).value;
            && views.Views? && views.head.TupleView?
            && (rest == Shapes(WordsOf, NoShapes) ==> views.tail.Views? && views.tail.head.SlotsView?)
  {
    var head := Decode(TupleOf(fields), buf, pos);
    assert head.Got? && head.value.TupleView?;
    if rest == Shapes(WordsOf, NoShapes) {
      var words := Decode(WordsOf, buf, head.next);
      assert DecodeAll(rest, buf, head.next).Got? && words.Got?;
    }
  }

  /** Field `k` of a decoded tuple, as a number. */
  function Num(items: Args, k: nat): nat {
    match items
    case Nil => 0
    case Cons(head, tail) => if k > 0 then Num(tail, k - 1) else if head.Raw? then FromLE(head.bytes) else 0
  }

  function Num64(items: Args, k: nat): u64 {
    if Num(items, k) < TWO_TO_THE_64 then Num(items, k) else 0
  }

  function Num32(items: Args, k: nat): u32 {
    if Num(items, k) < TWO_TO_THE_32 then Num(items, k) else 0
  }

  /** Field `k` of a decoded tuple, as a C string. */
  function Chars(items: Args, k: nat): seq<byte> {
    match items
    case Nil => []
    case Cons(head, tail) => if k > 0 then Chars(tail, k - 1) else if head.CStr? then head.chars else []
  }

  function GeometryOf(items: Args): Geometry {
    Geometry(Num32(items, 1), Num32(items, 2), Num32(items, 3), Num32(items, 4), Num32(items, 5), Num32(items, 6),
             Num32(items, 7), Num64(items, 8))
  }

  /** The driver follows pointer `i` into the receive buffer and reads the width that the kernel declares. */
  function SlotParams(buf: seq<byte>, slots: seq<nat>, widths: seq<nat>): seq<seq<byte>> {
    seq(|widths|, i requires 0 <= i < |widths| => if i < |slots| then Slice(buf, slots[i], widths[i]) else [])
  }

  /** Where the host reads the source of a copy-in. */
  function CopySource<D>(h: Host<D>, staging: seq<byte>, clientPtr: u64, count: u64): seq<byte> {
    if PinnedMemory.IsPinned(h.clientPinStart, clientPtr) then
      Slice(h.pinned, clientPtr - h.clientPinStart, count)
    else Slice(staging, 0, count)
  }

  /** The driver call that a handler makes from its decoded arguments. */
  function HostCall<D>(cfg: Config, drv: Driver<D>, h: Host<D>, staging: seq<byte>, buf: seq<byte>,
                       api: Api, views: Views): DriverCall
    requires views.Views? && views.head.TupleView?
    requires api.ApiLaunch? ==> views.tail.Views? && views.tail.head.SlotsView?
  {
    var items := FollowAll(buf, views.head.items);
    match api
    case ApiMemAlloc => Alloc(Num64(items, 1))
    case ApiMemFree => Free(Num64(items, 0))
    case ApiHtoD => HtoD(Num64(items, 0), CopySource(h, staging, Num64(items, 1), Num64(items, 2)))
    case ApiDtoH => DtoH(Num64(items, 1), Num64(items, 2))
    case ApiLoad => Load(Ascii(cfg.shippedPath))
    case ApiGetFunction => GetFn(Num64(items, 1), Chars(items, 2))
    case ApiLaunch =>
      var f := Num64(items, 0);
      Launch(f, GeometryOf(items), SlotParams(buf, views.tail.head.slots, drv.signature(f)))
  }

  /** The reply buffer after a handler; a handle that the driver did not write is a zeroed box, a module is not. */
  function Answer(response: seq<byte>, api: Api, items: Args, o: seq<byte>, written: bool, code: u32, stack: u64)
    : (r: seq<byte>)
    requires |response| == RESPONSE_SIZE
    ensures |r| == RESPONSE_SIZE
  {
    var coded := Splice(response, 0, LE(4, code));
    var handle := if written && |o| == 8 then ReadU64(o, 0) else 0;
    match api
    case ApiMemAlloc => Splice(coded, AREA, LE(8, handle))
    case ApiGetFunction => Splice(coded, AREA, LE(8, handle))
    case ApiLoad => Splice(coded, AREA, LE(8, if written then handle else stack))
    case ApiMemFree =>
      PutOne(coded, AREA, Item(Val(8), LE(8, Num64(items, 0))));
      PutItems(coded, AREA, [Item(Val(8), LE(8, Num64(items, 0)))])
    case _ => coded
  }

  datatype Served<D> = Served(host: Host<D>, staging: seq<byte>)

  /** The host's reads stay inside its receive buffer. */
  predicate Decodable(buf: seq<byte>) {
    match Decode(CStrOf, buf, 0)
    case OutOfBuffer => false
    case Got(name, next) =>
      match Dispatch(CString(buf, name.at))
      case None => true
      case Some(api) => DecodeAll(ArgumentShapes(api), buf, next).Got?
  }

  /** One handled command; an unknown name, or a buffer that does not decode, leaves a stale reply to be sent. */
  function Serve<D>(cfg: Config, drv: Driver<D>, h: Host<D>, staging: seq<byte>, buf: seq<byte>): (r: Served<D>)
    requires |h.response| == RESPONSE_SIZE
    ensures |r.host.response| == RESPONSE_SIZE && |r.staging| == |staging|
  {
    match Decode(CStrOf, buf, 0)
    case OutOfBuffer => Served(h, staging)
    case Got(name, next) =>
      match Dispatch(CString(buf, name.at))
      case None => Served(h, staging)
      case Some(api) =>
        match DecodeAll(ArgumentShapes(api), buf, next)
        case OutOfBuffer => Served(h, staging)
        case Got(views, _) =>
          ArgumentsDecodedAs(api, buf, next);
          var call := HostCall(cfg, drv, h, staging, buf, api, views);
          Conclude(h, staging, api, FollowAll(buf, views.head.items), drv.run(h.dev, call))
  }

  /** After the driver call: where copied-out bytes land, and the reply. */
  function Conclude<D>(h: Host<D>, staging: seq<byte>, api: Api, items: Args, o: Outcome<D>): (r: Served<D>)
    requires |h.response| == RESPONSE_SIZE
    ensures |r.host.response| == RESPONSE_SIZE && |r.staging| == |staging|
  {
    var written, bytes := o.out.Some?, if o.out.Some? then o.out.value else [];
    var toPinned := api.ApiDtoH? && PinnedMemory.IsPinned(h.clientPinStart, Num64(items, 0));
    var pinned := if toPinned then Write(h.pinned, Num64(items, 0) - h.clientPinStart, o.out) else h.pinned;
    Served(
      h.(dev := o.state, response := Answer(h.response, api, items, bytes, written, o.code, h.stack), pinned := pinned),
      if api.ApiDtoH? && !toPinned then Write(staging, 0, o.out) else staging)
  }

  // ---------- the guest's half: reply ----------

  function FirstDelivered(reply: seq<byte>, wires: seq<Wire>): Option<seq<byte>>
    requires AllReadable(reply, AREA, wires) && wires != []
  {
    match ReadingAt(reply, AREA, wires, 0).delivery
    case Copied(bytes) => Some(bytes)
    case _ => None
  }

  /** The types a hook reads its reply at. */
  function ReplyWires(c: Call): seq<Wire> {
    match c
    case MemAlloc(_, _) => [Ptr(8), Val(8)]
    case MemFree(_) => [Val(8)]
    case ModuleLoad(_, _) => [Ptr(8)]
    case _ => []
  }

  lemma ReplyAlwaysReadable(c: Call, reply: seq<byte>)
    requires |reply| == RESPONSE_SIZE
    ensures AllReadable(reply, AREA, ReplyWires(c))
  {
    var wires := ReplyWires(c);
    forall i | 0 <= i < |wires|
      ensures Readable(reply, At(reply, AREA, wires, i), wires[i])
    {
      if i > 0 { SkipsReadNothing(reply, At(reply, AREA, wires, i), wires[i]); }
    }
  }

  /** The rest of a hook, once the whole reply is here. */
  function Finish(c: Call, g: Guest, reply: seq<byte>, staging: seq<byte>): Guest
    requires |reply| == RESPONSE_SIZE
  {
    Pow256Of8();
    ReplyAlwaysReadable(c, reply);
    var returned := g.(codes := g.codes + [FromLE(reply[..4]) as u32]);
    match c
    case MemAlloc(dptr, _) => returned.(mem := Write(g.mem, dptr, FirstDelivered(reply, ReplyWires(c))))
    case ModuleLoad(module_, _) => returned.(mem := Write(g.mem, module_, FirstDelivered(reply, ReplyWires(c))))
    case GetFunction(hfunc, _, name) =>
      var handle := ReadU64(reply, AREA);
      returned.(mem := Write(g.mem, hfunc, Some(LE(8, handle))), hashfunc := g.hashfunc[handle := name])
    case CopyOut(dstHost, _, count) => returned.(mem := Write(g.mem, dstHost, Some(Slice(staging, 0, count))))
    case _ => returned
  }
}
