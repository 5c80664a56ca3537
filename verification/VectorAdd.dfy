/**
 * The shipped kernel as a register machine: the 22 instructions of `vectorAdd`, run by a grid of threads
 * that share global memory and interleave instruction by instruction.
 */
module VectorAdd {
  import opened Bytes

  datatype Special = CtaId | NTid | TId

  /** The instructions that the kernel uses; register numbers are those of the PTX text. */
  datatype Instr =
    | LdParamU64(rd: nat, param: nat)
    | LdParamU32(r: nat, param: nat)
    | MovU32(r: nat, special: Special)
    | MadLoS32(r: nat, x: nat, y: nat, z: nat)
    | SetpGeS32(p: nat, x: nat, y: nat)
    | BraIf(p: nat, target: nat)
    | CvtaToGlobal(rd: nat, from: nat)
    | MulWideS32(rd: nat, x: nat, factor: int)
    | AddS64(rd: nat, x: nat, y: nat)
    | LdGlobalF32(f: nat, address: nat)
    | AddF32(f: nat, x: nat, y: nat)
    | StGlobalF32(address: nat, f: nat)
    | Ret

  const LENGTH := 22

  /** The body of the entry, by instruction number; the label $L__BB0_2 is number 21. */
  function Fetch(pc: nat): Instr {
    match pc
    case 0 => LdParamU64(1, 0)
    case 1 => LdParamU64(2, 1)
    case 2 => LdParamU64(3, 2)
    case 3 => LdParamU32(2, 3)
    case 4 => MovU32(3, CtaId)
    case 5 => MovU32(4, NTid)
    case 6 => MovU32(5, TId)
    case 7 => MadLoS32(1, 3, 4, 5)
    case 8 => SetpGeS32(1, 1, 2)
    case 9 => BraIf(1, 21)
    case 10 => CvtaToGlobal(4, 1)
    case 11 => MulWideS32(5, 1, 4)
    case 12 => AddS64(6, 4, 5)
    case 13 => CvtaToGlobal(7, 2)
    case 14 => AddS64(8, 7, 5)
    case 15 => LdGlobalF32(1, 8)
    case 16 => LdGlobalF32(2, 6)
    case 17 => AddF32(3, 2, 1)
    case 18 => CvtaToGlobal(9, 3)
    case 19 => AddS64(10, 9, 5)
    case 20 => StGlobalF32(10, 3)
    case _ => Ret
  }

  /** A 32-bit register read as a signed number. */
  function S32(x: u32): int {
    if x < TWO_TO_THE_31 then x else x - TWO_TO_THE_32
  }

  /** Arithmetic modulo the register width. */
  function Wrap32(x: int): u32 {
    if 0 <= x < TWO_TO_THE_32 then x else x % TWO_TO_THE_32
  }

  function Wrap64(x: int): u64 {
    if 0 <= x < TWO_TO_THE_64 then x else x % TWO_TO_THE_64
  }

  /** `add.f32` on the bit patterns; nothing is assumed about it. */
  type FloatAdd = (u32, u32) -> u32

  /** Global memory by 4-byte cell. */
  type Memory = map<u64, u32>

  function Load(m: Memory, at: u64): u32 {
    if at in m then m[at] else 0
  }

  datatype Launch = Launch(a: u64, b: u64, c: u64, n: u32, blocks: u32, blockSize: u32)
  datatype Tid = Tid(block: nat, thread: nat)

  /** Registers by class, .b64, .b32, .f32 and .pred; one that was never assigned reads as zero. */
  datatype Thread = Thread(pc: nat, rd: map<nat, u64>, r: map<nat, u32>, f: map<nat, u32>, p: map<nat, bool>) {
    function D(k: nat): u64 { if k in rd then rd[k] else 0 }
    function R(k: nat): u32 { if k in r then r[k] else 0 }
    function F(k: nat): u32 { if k in f then f[k] else 0 }
    function P(k: nat): bool { k in p && p[k] }

    predicate Running() { pc < LENGTH }
  }

  datatype State = State(threads: map<Tid, Thread>, memory: Memory)

  predicate InGrid(g: Launch, t: Tid) {
    t.block < g.blocks && t.thread < g.blockSize
  }

  function Param(g: Launch, k: nat): u64 {
    if k == 0 then g.a else if k == 1 then g.b else if k == 2 then g.c else g.n
  }

  function SpecialValue(g: Launch, t: Tid, s: Special): int {
    match s
    case CtaId => t.block
    case NTid => g.blockSize
    case TId => t.thread
  }

  /** `mad.lo.s32`: the low half of a product does not depend on its sign. */
  function MadLo(x: u32, y: u32, z: u32): u32 {
    Wrap32(x * y + z)
  }

  function Exec(g: Launch, add: FloatAdd, t: Tid, th: Thread, m: Memory): (Thread, Memory)
    requires th.Running()
  {
    Do(Fetch(th.pc), g, add, t, th, m)
  }

  /** One instruction of one thread. */
  function Do(instr: Instr, g: Launch, add: FloatAdd, t: Tid, th: Thread, m: Memory): (Thread, Memory)
  {
    var next := th.(pc := th.pc + 1);
    match instr
    case LdParamU64(rd, k) => (next.(rd := th.rd[rd := Param(g, k)]), m)
    case LdParamU32(r, k) => (next.(r := th.r[r := Wrap32(Param(g, k))]), m)
    case MovU32(r, s) => (next.(r := th.r[r := Wrap32(SpecialValue(g, t, s))]), m)
    case MadLoS32(r, x, y, z) => (next.(r := th.r[r := MadLo(th.R(x), th.R(y), th.R(z))]), m)
    case SetpGeS32(p, x, y) => (next.(p := th.p[p := S32(th.R(x)) >= S32(th.R(y))]), m)
    case BraIf(p, target) => (if th.P(p) then th.(pc := target) else next, m)
    case CvtaToGlobal(rd, from) => (next.(rd := th.rd[rd := th.D(from)]), m)
    case MulWideS32(rd, x, factor) => (next.(rd := th.rd[rd := Wrap64(S32(th.R(x)) * factor)]), m)
    case AddS64(rd, x, y) => (next.(rd := th.rd[rd := Wrap64(th.D(x) + th.D(y))]), m)
    case LdGlobalF32(f, address) => (next.(f := th.f[f := Load(m, th.D(address))]), m)
    case AddF32(f, x, y) => (next.(f := th.f[f := add(th.F(x), th.F(y))]), m)
    case StGlobalF32(address, f) => (next, m[th.D(address) := th.F(f)])
    case Ret => (th.(pc := LENGTH), m)
  }

  /** One turn of thread `t`; a thread that has returned, or is not in the grid, does nothing. */
  function Turn(g: Launch, add: FloatAdd, s: State, t: Tid): State {
    if t in s.threads && s.threads[t].Running() then
      var (th, m) := Exec(g, add, t, s.threads[t], s.memory);
      State(s.threads[t := th], m)
    else s
  }

  function Play(g: Launch, add: FloatAdd, s: State, schedule: seq<Tid>): State
    decreases |schedule|
  {
    if schedule == [] then s
    else Turn(g, add, Play(g, add, s, schedule[..|schedule| - 1]), schedule[|schedule| - 1])
  }

  /** Every thread of the grid is about to run its first instruction. */
  ghost predicate Started(g: Launch, s: State) {
    && (forall t :: t in s.threads <==> InGrid(g, t))
    && (forall t :: t in s.threads ==> s.threads[t].pc == 0)
  }

  // ---------- thread to index ----------

  function Index(g: Launch, t: Tid): nat {
    t.block * g.blockSize + t.thread
  }

  function Owner(g: Launch, i: nat): Tid
    requires g.blockSize > 0
  {
    Tid(i / g.blockSize, i % g.blockSize)
  }

  /** The grid and the indexes below blocks * blockSize correspond one to one. */
  lemma IndexIsBijection(g: Launch, t: Tid, i: nat)
    requires g.blockSize > 0
    ensures InGrid(g, t) ==> Index(g, t) < g.blocks * g.blockSize && Owner(g, Index(g, t)) == t
    ensures i < g.blocks * g.blockSize ==> InGrid(g, Owner(g, i)) && Index(g, Owner(g, i)) == i
  {
    if InGrid(g, t) {
      IndexBelow(t.block, t.thread, g.blocks, g.blockSize);
      DivisionIsUnique(t.block, t.thread, g.blockSize);
    }
    if i < g.blocks * g.blockSize {
      OwnerBelow(i, g.blocks, g.blockSize);
    }
  }

  lemma IndexBelow(q: nat, r: nat, count: nat, d: nat)
    requires q < count && r < d
    ensures q * d + r < count * d
  {
    assert (q + 1) * d <= count * d;
  }

  lemma OwnerBelow(i: nat, count: nat, d: nat)
    requires d > 0 && i < count * d
    ensures 0 <= i / d < count && (i / d) * d + i % d == i
  {
    var q := i / d;
    assert q * d + i % d == i;
    MultipleIsLarge(q, d);
    MultipleIsLarge(q - count, d);
    assert (q - count) * d == q * d - count * d;
  }

  lemma DivisionIsUnique(q: nat, r: nat, d: nat)
    requires r < d
    ensures (q * d + r) / d == q && (q * d + r) % d == r
  {
    var x := q * d + r;
    assert x == (x / d) * d + x % d;
    MultipleIsLarge(x / d - q, d);
  }

  lemma MultipleIsLarge(k: int, d: nat)
    ensures k >= 0 ==> k * d >= 0
    ensures k >= 1 ==> k * d >= d
    ensures k <= -1 ==> k * d + d <= 0
  {
  }

  // ---------- the exact safe bound ----------

  /** The signed 32-bit number that a 32-bit register shows for `x`. */
  function Signed(x: int): int {
    (x + TWO_TO_THE_31) % TWO_TO_THE_32 - TWO_TO_THE_31
  }

  /** Is the signed 32-bit index below the signed count? */
  predicate GuardPasses(g: Launch, t: Tid) {
    Signed(Index(g, t)) < Signed(g.n)
  }

  /** The bounds check keeps exactly the threads with an index below N, if and only if no index reaches 2^31. */
  lemma {:induction false} GuardExactIffNoWrap(g: Launch)
    requires 0 < g.n < TWO_TO_THE_31 && g.blockSize > 0
    ensures (forall t :: InGrid(g, t) ==> (GuardPasses(g, t) <==> Index(g, t) < g.n))
       <==> g.blocks * g.blockSize <= TWO_TO_THE_31
  {
    if g.blocks * g.blockSize > TWO_TO_THE_31 {
      var t := Owner(g, TWO_TO_THE_31);
      IndexIsBijection(g, t, TWO_TO_THE_31);
      assert InGrid(g, t) && GuardPasses(g, t) && Index(g, t) >= g.n;
    } else {
      forall t | InGrid(g, t)
        ensures GuardPasses(g, t) <==> Index(g, t) < g.n
      {
        IndexIsBijection(g, t, 0);
      }
    }
  }

  /** The cell of the output array at the signed index, wherever that is. */
  function StoreAddress(g: Launch, t: Tid): u64 {
    (g.c + 4 * Signed(Index(g, t))) % TWO_TO_THE_64
  }

  /** The number of blocks that the callers compute, ceil(N / T) by 32-bit division. */
  function GridSize(n: nat, blockSize: nat): int
    requires blockSize > 0
  {
    (n + blockSize - 1) / blockSize
  }

  /** It covers [0, N), and its indexes stay below 2^31 whenever the sum in it does not overflow. */
  lemma GridSizeCovers(n: nat, blockSize: nat)
    requires 0 < n && 0 < blockSize && n + blockSize - 1 < TWO_TO_THE_31
    ensures n <= GridSize(n, blockSize) * blockSize <= n + blockSize - 1 < TWO_TO_THE_31
  {
    var x := n + blockSize - 1;
    assert x == (x / blockSize) * blockSize + x % blockSize;
  }

  // ---------- what a thread knows at each instruction ----------

  /** The arrays fit the address space, are aligned, and the output is apart from the inputs. */
  ghost predicate ArraysApart(g: Launch) {
    && 0 < g.n < TWO_TO_THE_31
    && g.a + 4 * g.n <= TWO_TO_THE_64 && g.b + 4 * g.n <= TWO_TO_THE_64 && g.c + 4 * g.n <= TWO_TO_THE_64
    && g.a % 4 == 0 && g.b % 4 == 0 && g.c % 4 == 0
    && (g.c + 4 * g.n <= g.a || g.a + 4 * g.n <= g.c)
    && (g.c + 4 * g.n <= g.b || g.b + 4 * g.n <= g.c)
  }

  /** The grid covers the arrays and no index wraps. */
  ghost predicate GridSafe(g: Launch) {
    0 < g.blockSize && g.n <= g.blocks * g.blockSize <= TWO_TO_THE_31
  }

  /** The source kernel's value for C[i]. */
  function Sum(g: Launch, add: FloatAdd, m0: Memory, i: nat): u32
    requires g.a + 4 * i < TWO_TO_THE_64 && g.b + 4 * i < TWO_TO_THE_64
  {
    add(Load(m0, g.a + 4 * i), Load(m0, g.b + 4 * i))
  }

  /** What the live .b32 and predicate registers hold, with the parameter pointers not yet used. */
  ghost predicate KnowsIndex(g: Launch, t: Tid, i: nat, th: Thread) {
    && (1 <= th.pc <= 10 ==> th.D(1) == g.a)
    && (2 <= th.pc <= 13 ==> th.D(2) == g.b)
    && (3 <= th.pc <= 18 ==> th.D(3) == g.c)
    && (4 <= th.pc <= 8 ==> th.R(2) == g.n)
    && (5 <= th.pc <= 7 ==> th.R(3) == t.block)
    && (6 <= th.pc <= 7 ==> th.R(4) == g.blockSize)
    && (th.pc == 7 ==> th.R(5) == t.thread)
    && (8 <= th.pc <= 11 ==> th.R(1) == i)
    && (th.pc == 9 ==> th.P(1) == (i >= g.n))
  }

  /** Past the branch: addresses, the two loads, and their sum, each while it is live. */
  ghost predicate KnowsData(g: Launch, add: FloatAdd, m0: Memory, i: nat, th: Thread)
    requires ArraysApart(g)
  {
    10 <= th.pc <= 20 ==>
      && i < g.n
      && (11 <= th.pc <= 12 ==> th.D(4) == g.a)
      && (12 <= th.pc <= 19 ==> th.D(5) == 4 * i)
      && (13 <= th.pc <= 16 ==> th.D(6) == g.a + 4 * i)
      && (th.pc == 14 ==> th.D(7) == g.b)
      && (th.pc == 15 ==> th.D(8) == g.b + 4 * i)
      && (16 <= th.pc <= 17 ==> th.F(1) == Load(m0, g.b + 4 * i))
      && (th.pc == 17 ==> th.F(2) == Load(m0, g.a + 4 * i))
      && (th.pc >= 18 ==> th.F(3) == Sum(g, add, m0, i))
      && (th.pc == 19 ==> th.D(9) == g.c)
      && (th.pc == 20 ==> th.D(10) == g.c + 4 * i)
  }

  ghost predicate Knows(g: Launch, add: FloatAdd, m0: Memory, t: Tid, i: nat, th: Thread)
    requires ArraysApart(g)
  {
    th.pc <= LENGTH && KnowsIndex(g, t, i, th) && KnowsData(g, add, m0, i, th)
  }

  /** The thread has executed its store. */
  predicate HasStored(g: Launch, i: nat, th: Thread) {
    th.pc >= 21 && i < g.n
  }

  predicate InOutput(g: Launch, at: u64) {
    g.c <= at < g.c + 4 * g.n
  }

  /** An instruction keeps what its thread knows; only the store touches memory, at the thread's own cell. */
  ghost predicate Keeps(g: Launch, add: FloatAdd, m0: Memory, t: Tid, i: nat, th: Thread, m: Memory)
    requires ArraysApart(g) && th.Running()
  {
    var (next, after) := Exec(g, add, t, th, m);
    && Knows(g, add, m0, t, i, next)
    && next.pc > th.pc
    && (th.pc == 20 ==> i < g.n && next.pc == 21 && after == m[g.c + 4 * i := Sum(g, add, m0, i)])
    && (th.pc != 20 ==> after == m && HasStored(g, i, next) == HasStored(g, i, th))
  }

  /** A thread of the grid about to execute, with an index that does not wrap. */
  ghost predicate Ready(g: Launch, add: FloatAdd, m0: Memory, t: Tid, i: nat, th: Thread) {
    ArraysApart(g) && InGrid(g, t) && Knows(g, add, m0, t, i, th) && th.Running() && i < TWO_TO_THE_31
  }

  lemma SetupKeeps(g: Launch, add: FloatAdd, m0: Memory, t: Tid, i: nat, th: Thread, m: Memory)
    requires Ready(g, add, m0, t, i, th) && 0 <= th.pc < 4
    ensures Keeps(g, add, m0, t, i, th, m)
  {
    hide Load, Sum, InOutput;
    if th.pc == 0 { assert Keeps(g, add, m0, t, i, th, m); }
    else if th.pc == 1 { assert Keeps(g, add, m0, t, i, th, m); }
    else if th.pc == 2 { assert Keeps(g, add, m0, t, i, th, m); }
  }

  lemma SpecialsKeep(g: Launch, add: FloatAdd, m0: Memory, t: Tid, i: nat, th: Thread, m: Memory)
    requires Ready(g, add, m0, t, i, th) && 4 <= th.pc < 7
    ensures Keeps(g, add, m0, t, i, th, m)
  {
    hide Load, Sum, InOutput;
    if th.pc == 4 { assert Keeps(g, add, m0, t, i, th, m); }
    else if th.pc == 5 { assert Keeps(g, add, m0, t, i, th, m); }
  }

  lemma IndexKeeps(g: Launch, add: FloatAdd, m0: Memory, t: Tid, i: nat, th: Thread, m: Memory)
    requires Ready(g, add, m0, t, i, th) && th.pc == 7
    requires i == t.block * g.blockSize + t.thread
    ensures Keeps(g, add, m0, t, i, th, m)
  {
    hide Load, Sum, InOutput;
  }

  lemma GuardKeeps(g: Launch, add: FloatAdd, m0: Memory, t: Tid, i: nat, th: Thread, m: Memory)
    requires Ready(g, add, m0, t, i, th) && 8 <= th.pc < 10
    ensures Keeps(g, add, m0, t, i, th, m)
  {
    hide Load, Sum, InOutput;
    if th.pc == 8 { assert Keeps(g, add, m0, t, i, th, m); }
  }

  lemma OffsetKeeps(g: Launch, add: FloatAdd, m0: Memory, t: Tid, i: nat, th: Thread, m: Memory)
    requires Ready(g, add, m0, t, i, th) && 10 <= th.pc < 12
    ensures Keeps(g, add, m0, t, i, th, m)
  {
    hide Load, Sum, InOutput;
    if th.pc == 10 { assert Keeps(g, add, m0, t, i, th, m); }
  }

  lemma InputAddressKeeps(g: Launch, add: FloatAdd, m0: Memory, t: Tid, i: nat, th: Thread, m: Memory)
    requires Ready(g, add, m0, t, i, th) && th.pc == 12
    ensures Keeps(g, add, m0, t, i, th, m)
  {
    hide Load, Sum, InOutput;
  }

  lemma SecondAddressKeeps(g: Launch, add: FloatAdd, m0: Memory, t: Tid, i: nat, th: Thread, m: Memory)
    requires Ready(g, add, m0, t, i, th) && 13 <= th.pc < 15
    ensures Keeps(g, add, m0, t, i, th, m)
  {
    hide Load, Sum, InOutput;
    if th.pc == 13 { assert Keeps(g, add, m0, t, i, th, m); }
  }

  /** The inputs are apart from the output, so they read as they did at the start. */
  lemma InputsUnchanged(g: Launch, i: nat, m0: Memory, m: Memory)
    requires ArraysApart(g) && i < g.n
    requires forall at :: !InOutput(g, at) ==> Load(m, at) == Load(m0, at)
    ensures Load(m, g.a + 4 * i) == Load(m0, g.a + 4 * i) && Load(m, g.b + 4 * i) == Load(m0, g.b + 4 * i)
  {
    assert !InOutput(g, g.a + 4 * i) && !InOutput(g, g.b + 4 * i);
  }

  lemma SecondLoadKeeps(g: Launch, add: FloatAdd, m0: Memory, t: Tid, i: nat, th: Thread, m: Memory)
    requires Ready(g, add, m0, t, i, th) && th.pc == 15 && i < g.n
    requires Load(m, g.b + 4 * i) == Load(m0, g.b + 4 * i)
    ensures Keeps(g, add, m0, t, i, th, m)
  {
    hide Load, InOutput;
  }

  lemma FirstLoadKeeps(g: Launch, add: FloatAdd, m0: Memory, t: Tid, i: nat, th: Thread, m: Memory)
    requires Ready(g, add, m0, t, i, th) && th.pc == 16 && i < g.n
    requires Load(m, g.a + 4 * i) == Load(m0, g.a + 4 * i)
    ensures Keeps(g, add, m0, t, i, th, m)
  {
    hide Load, InOutput;
  }

  lemma LoadKeeps(g: Launch, add: FloatAdd, m0: Memory, t: Tid, i: nat, th: Thread, m: Memory)
    requires Ready(g, add, m0, t, i, th) && 15 <= th.pc < 17
    requires forall at :: !InOutput(g, at) ==> Load(m, at) == Load(m0, at)
    ensures Keeps(g, add, m0, t, i, th, m)
  {
    hide Load, InOutput, Keeps;
    InputsUnchanged(g, i, m0, m);
    if th.pc == 15 {
      SecondLoadKeeps(g, add, m0, t, i, th, m);
    } else {
      FirstLoadKeeps(g, add, m0, t, i, th, m);
    }
  }

  lemma SumKeeps(g: Launch, add: FloatAdd, m0: Memory, t: Tid, i: nat, th: Thread, m: Memory)
    requires Ready(g, add, m0, t, i, th) && 17 <= th.pc < 19
    ensures Keeps(g, add, m0, t, i, th, m)
  {
    hide InOutput;
    if th.pc == 17 { assert Keeps(g, add, m0, t, i, th, m); }
  }

  lemma StoreKeeps(g: Launch, add: FloatAdd, m0: Memory, t: Tid, i: nat, th: Thread, m: Memory)
    requires Ready(g, add, m0, t, i, th) && 19 <= th.pc < LENGTH
    ensures Keeps(g, add, m0, t, i, th, m)
  {
    hide Load, Sum, InOutput;
    if th.pc == 19 { assert Keeps(g, add, m0, t, i, th, m); }
    else if th.pc == 20 { assert Keeps(g, add, m0, t, i, th, m); }
  }

  /** Instruction by instruction: a thread computes the source kernel's value and stores it in its own cell. */
  lemma ExecKeeps(g: Launch, add: FloatAdd, m0: Memory, t: Tid, th: Thread, m: Memory)
    requires ArraysApart(g) && GridSafe(g) && InGrid(g, t)
    requires Knows(g, add, m0, t, Index(g, t), th) && th.Running()
    requires forall at :: !InOutput(g, at) ==> Load(m, at) == Load(m0, at)
    ensures Keeps(g, add, m0, t, Index(g, t), th, m)
  {
    var i := Index(g, t);
    IndexIsBijection(g, t, i);
    if th.pc < 4 { SetupKeeps(g, add, m0, t, i, th, m); }
    else if th.pc < 7 { SpecialsKeep(g, add, m0, t, i, th, m); }
    else if th.pc < 8 { IndexKeeps(g, add, m0, t, i, th, m); }
    else if th.pc < 10 { GuardKeeps(g, add, m0, t, i, th, m); }
    else if th.pc < 12 { OffsetKeeps(g, add, m0, t, i, th, m); }
    else if th.pc < 13 { InputAddressKeeps(g, add, m0, t, i, th, m); }
    else if th.pc < 15 { SecondAddressKeeps(g, add, m0, t, i, th, m); }
    else if th.pc < 17 { LoadKeeps(g, add, m0, t, i, th, m); }
    else if th.pc < 19 { SumKeeps(g, add, m0, t, i, th, m); }
    else { StoreKeeps(g, add, m0, t, i, th, m); }
  }

  // ---------- every interleaving ----------

  /** Cell i of the output array. */
  function Cell(g: Launch, i: nat): nat {
    g.c + 4 * i
  }

  predicate IsCell(g: Launch, at: u64) {
    InOutput(g, at) && (at - g.c) % 4 == 0
  }

  /** What the memory holds in the middle of any interleaving. */
  ghost predicate MemoryInv(g: Launch, add: FloatAdd, m0: Memory, s: State)
    requires ArraysApart(g) && GridSafe(g)
  {
    && (forall at :: !IsCell(g, at) ==> (at in s.memory <==> at in m0) && Load(s.memory, at) == Load(m0, at))
    && (forall i :: 0 <= i < g.n && Owner(g, i) in s.threads ==>
          Load(s.memory, Cell(g, i))
          == if HasStored(g, i, s.threads[Owner(g, i)]) then Sum(g, add, m0, i) else Load(m0, Cell(g, i)))
  }

  ghost predicate Inv(g: Launch, add: FloatAdd, m0: Memory, s: State)
    requires ArraysApart(g) && GridSafe(g)
  {
    && (forall t :: t in s.threads <==> InGrid(g, t))
    && (forall t :: t in s.threads ==> Knows(g, add, m0, t, Index(g, t), s.threads[t]))
    && MemoryInv(g, add, m0, s)
  }

  lemma StoreKeepsMemory(g: Launch, add: FloatAdd, m0: Memory, s: State, t: Tid, next: Thread)
    requires ArraysApart(g) && GridSafe(g) && MemoryInv(g, add, m0, s) && InGrid(g, t)
    requires Index(g, t) < g.n && next.pc == 21
    ensures var own := Index(g, t);
            MemoryInv(g, add, m0, State(s.threads[t := next], s.memory[Cell(g, own) := Sum(g, add, m0, own)]))
  {
    hide Sum, Owner, Index;
    var own := Index(g, t);
    var after := State(s.threads[t := next], s.memory[Cell(g, own) := Sum(g, add, m0, own)]);
    IndexIsBijection(g, t, own);
    assert IsCell(g, Cell(g, own));
    forall i | 0 <= i < g.n && Owner(g, i) in after.threads
      ensures Load(after.memory, Cell(g, i))
           == if HasStored(g, i, after.threads[Owner(g, i)]) then Sum(g, add, m0, i) else Load(m0, Cell(g, i))
    {
      IndexIsBijection(g, t, i);
      assert i == own <==> Owner(g, i) == t;
    }
  }

  lemma OtherTurnsKeepMemory(g: Launch, add: FloatAdd, m0: Memory, s: State, t: Tid, next: Thread)
    requires ArraysApart(g) && GridSafe(g) && MemoryInv(g, add, m0, s) && t in s.threads
    requires HasStored(g, Index(g, t), next) == HasStored(g, Index(g, t), s.threads[t])
    ensures MemoryInv(g, add, m0, State(s.threads[t := next], s.memory))
  {
    hide Sum, Owner, Index, Load;
    var after := State(s.threads[t := next], s.memory);
    forall i | 0 <= i < g.n && Owner(g, i) in after.threads
      ensures HasStored(g, i, after.threads[Owner(g, i)]) == HasStored(g, i, s.threads[Owner(g, i)])
    {
      IndexIsBijection(g, t, i);
    }
  }

  lemma OutsideUnchanged(g: Launch, add: FloatAdd, m0: Memory, s: State)
    requires ArraysApart(g) && GridSafe(g) && MemoryInv(g, add, m0, s)
    ensures forall at :: !InOutput(g, at) ==> Load(s.memory, at) == Load(m0, at)
  {
  }

  lemma TurnKeepsInv(g: Launch, add: FloatAdd, m0: Memory, s: State, t: Tid)
    requires ArraysApart(g) && GridSafe(g) && Inv(g, add, m0, s)
    ensures Inv(g, add, m0, Turn(g, add, s, t))
  {
    hide Load, Sum, Exec, Knows, MemoryInv, HasStored, InOutput;
    if t in s.threads && s.threads[t].Running() {
      OutsideUnchanged(g, add, m0, s);
      ExecKeeps(g, add, m0, t, s.threads[t], s.memory);
      var next := Exec(g, add, t, s.threads[t], s.memory).0;
      if s.threads[t].pc == 20 {
        StoreKeepsMemory(g, add, m0, s, t, next);
      } else {
        OtherTurnsKeepMemory(g, add, m0, s, t, next);
      }
    }
  }

  lemma {:induction false} InvAlways(g: Launch, add: FloatAdd, s: State, schedule: seq<Tid>)
    requires ArraysApart(g) && GridSafe(g) && Started(g, s)
    ensures Inv(g, add, s.memory, Play(g, add, s, schedule))
    decreases |schedule|
  {
    if schedule != [] {
      InvAlways(g, add, s, schedule[..|schedule| - 1]);
      var before := Play(g, add, s, schedule[..|schedule| - 1]);
      TurnKeepsInv(g, add, s.memory, before, schedule[|schedule| - 1]);
    }
  }

  /** How often the schedule lets a thread run. */
  function Turns(schedule: seq<Tid>, t: Tid): nat
    decreases |schedule|
  {
    if schedule == [] then 0
    else Turns(schedule[..|schedule| - 1], t) + if schedule[|schedule| - 1] == t then 1 else 0
  }

  /** A turn takes its own thread further and leaves the others where they are. */
  lemma TurnAdvances(g: Launch, add: FloatAdd, m0: Memory, s: State, last: Tid, t: Tid)
    requires ArraysApart(g) && GridSafe(g) && Inv(g, add, m0, s) && t in s.threads
    ensures var next := Turn(g, add, s, last);
            && t in next.threads
            && next.threads[t].pc >= s.threads[t].pc
            && (last == t && s.threads[t].Running() ==> next.threads[t].pc > s.threads[t].pc)
  {
    if last == t && s.threads[t].Running() {
      ExecKeeps(g, add, m0, t, s.threads[t], s.memory);
    }
  }

  /** No thread waits for another: each of its turns takes it at least one instruction further. */
  lemma {:induction false} TurnsAdvance(g: Launch, add: FloatAdd, s: State, schedule: seq<Tid>, t: Tid)
    requires ArraysApart(g) && GridSafe(g) && Started(g, s) && InGrid(g, t)
    ensures var now := Play(g, add, s, schedule);
            t in now.threads && (now.threads[t].pc >= Turns(schedule, t) || now.threads[t].pc >= LENGTH)
    decreases |schedule|
  {
    hide Exec, Turn, Knows, MemoryInv, Load, Sum;
    InvAlways(g, add, s, schedule);
    if schedule != [] {
      var before, last := schedule[..|schedule| - 1], schedule[|schedule| - 1];
      TurnsAdvance(g, add, s, before, t);
      InvAlways(g, add, s, before);
      TurnAdvances(g, add, s.memory, Play(g, add, s, before), last, t);
    }
  }

  /**
   * Whatever the interleaving, once every thread has had its 22 turns the output holds the source kernel's
   * sums, every thread has returned, and no other cell of memory has changed.
   */
  lemma VectorAddCorrect(g: Launch, add: FloatAdd, s: State, schedule: seq<Tid>)
    requires ArraysApart(g) && GridSafe(g) && Started(g, s)
    requires forall t :: InGrid(g, t) ==> Turns(schedule, t) >= LENGTH
    ensures var done := Play(g, add, s, schedule);
            && (forall t :: t in done.threads ==> !done.threads[t].Running())
            && (forall i :: 0 <= i < g.n ==> Load(done.memory, Cell(g, i)) == Sum(g, add, s.memory, i))
            && (forall at :: !IsCell(g, at) ==>
                  (at in done.memory <==> at in s.memory) && Load(done.memory, at) == Load(s.memory, at))
  {
    InvAlways(g, add, s, schedule);
    var done := Play(g, add, s, schedule);
    forall t | t in done.threads
      ensures !done.threads[t].Running()
    {
      TurnsAdvance(g, add, s, schedule, t);
    }
    forall i | 0 <= i < g.n
      ensures Load(done.memory, Cell(g, i)) == Sum(g, add, s.memory, i)
    {
      IndexIsBijection(g, Owner(g, i), i);
      assert HasStored(g, i, done.threads[Owner(g, i)]);
    }
  }

  /** For the callers' own grid size, N + T - 1 < 2^31 is enough. */
  lemma CallersGridIsSafe(g: Launch)
    requires 0 < g.n && 0 < g.blockSize && g.n + g.blockSize - 1 < TWO_TO_THE_31
    requires g.blocks == GridSize(g.n, g.blockSize)
    ensures GridSafe(g)
    ensures forall t :: InGrid(g, t) ==> (GuardPasses(g, t) <==> Index(g, t) < g.n)
  {
    GridSizeCovers(g.n, g.blockSize);
    GuardExactIffNoWrap(g);
  }

  // ---------- any launch ----------

  /** A register read as a signed number shows what it was loaded with. */
  lemma SignedRegister(x: int)
    ensures S32(Wrap32(x)) == Signed(x)
  {
  }

  lemma AddressWraps(base: u64, offset: int)
    ensures Wrap64(base + Wrap64(offset)) == (base + offset) % TWO_TO_THE_64
  {
  }

  /** What the registers hold at each instruction, whatever the grid, the count and the arrays. */
  ghost predicate Tracks(g: Launch, t: Tid, th: Thread) {
    && th.pc <= LENGTH
    && (3 <= th.pc <= 18 ==> th.D(3) == g.c)
    && (4 <= th.pc <= 8 ==> th.R(2) == g.n)
    && (5 <= th.pc <= 7 ==> th.R(3) == t.block)
    && (6 <= th.pc <= 7 ==> th.R(4) == g.blockSize)
    && (th.pc == 7 ==> th.R(5) == t.thread)
    && (8 <= th.pc <= 11 ==> S32(th.R(1)) == Signed(Index(g, t)))
    && (th.pc == 9 ==> th.P(1) == !GuardPasses(g, t))
    && (10 <= th.pc <= 20 ==> GuardPasses(g, t))
    && (12 <= th.pc <= 19 ==> th.D(5) == Wrap64(4 * Signed(Index(g, t))))
    && (th.pc == 19 ==> th.D(9) == g.c)
    && (th.pc == 20 ==> th.D(10) == StoreAddress(g, t))
  }

  /** Where an instruction takes its thread. */
  function NextPc(g: Launch, t: Tid, pc: nat): nat {
    if pc == 9 && !GuardPasses(g, t) then 21 else if pc >= 21 then LENGTH else pc + 1
  }

  /** An instruction goes on as the guard says and stores at most into the thread's one cell. */
  ghost predicate Follows(g: Launch, add: FloatAdd, t: Tid, th: Thread, m: Memory)
    requires th.Running()
  {
    var (next, after) := Exec(g, add, t, th, m);
    && Tracks(g, t, next) && next.pc == NextPc(g, t, th.pc)
    && after == if th.pc == 20 then m[StoreAddress(g, t) := th.F(3)] else m
  }

  lemma IndexFollows(g: Launch, add: FloatAdd, t: Tid, th: Thread, m: Memory)
    requires InGrid(g, t) && Tracks(g, t, th) && th.pc < 8
    ensures Follows(g, add, t, th, m)
  {
    hide StoreAddress, GuardPasses, Signed, S32;
    if th.pc == 7 {
      SignedRegister(Index(g, t));
    }
  }

  lemma GuardFollows(g: Launch, add: FloatAdd, t: Tid, th: Thread, m: Memory)
    requires InGrid(g, t) && Tracks(g, t, th) && 8 <= th.pc < 10
    ensures Follows(g, add, t, th, m)
  {
    hide StoreAddress, Signed, S32, Index;
    SignedRegister(g.n);
  }

  lemma OffsetFollows(g: Launch, add: FloatAdd, t: Tid, th: Thread, m: Memory)
    requires InGrid(g, t) && Tracks(g, t, th) && 10 <= th.pc < 12
    ensures Follows(g, add, t, th, m)
  {
    hide GuardPasses, StoreAddress, Signed, S32, Index, Wrap64;
    if th.pc == 10 { assert Follows(g, add, t, th, m); }
  }

  lemma AddressesFollow(g: Launch, add: FloatAdd, t: Tid, th: Thread, m: Memory)
    requires InGrid(g, t) && Tracks(g, t, th) && 12 <= th.pc < 15
    ensures Follows(g, add, t, th, m)
  {
    hide GuardPasses, StoreAddress, Signed, S32, Index, Wrap64, Load;
    if th.pc == 12 { assert Follows(g, add, t, th, m); }
    else if th.pc == 13 { assert Follows(g, add, t, th, m); }
  }

  lemma LoadsFollow(g: Launch, add: FloatAdd, t: Tid, th: Thread, m: Memory)
    requires InGrid(g, t) && Tracks(g, t, th) && 15 <= th.pc < 19
    ensures Follows(g, add, t, th, m)
  {
    hide GuardPasses, StoreAddress, Signed, S32, Index, Wrap64, Load;
    if th.pc == 15 { assert Follows(g, add, t, th, m); }
    else if th.pc == 16 { assert Follows(g, add, t, th, m); }
    else if th.pc == 17 { assert Follows(g, add, t, th, m); }
  }

  lemma StoreFollows(g: Launch, add: FloatAdd, t: Tid, th: Thread, m: Memory)
    requires InGrid(g, t) && Tracks(g, t, th) && 19 <= th.pc < LENGTH
    ensures Follows(g, add, t, th, m)
  {
    hide GuardPasses, Signed, S32, Index, Wrap64;
    if th.pc == 19 {
      AddressWraps(g.c, 4 * Signed(Index(g, t)));
    }
  }

  lemma ExecFollows(g: Launch, add: FloatAdd, t: Tid, th: Thread, m: Memory)
    requires InGrid(g, t) && Tracks(g, t, th) && th.Running()
    ensures Follows(g, add, t, th, m)
  {
    if th.pc < 8 { IndexFollows(g, add, t, th, m); }
    else if th.pc < 10 { GuardFollows(g, add, t, th, m); }
    else if th.pc < 12 { OffsetFollows(g, add, t, th, m); }
    else if th.pc < 15 { AddressesFollow(g, add, t, th, m); }
    else if th.pc < 19 { LoadsFollow(g, add, t, th, m); }
    else { StoreFollows(g, add, t, th, m); }
  }

  /** The threads of the grid, each with what it knows. */
  ghost predicate AllTrack(g: Launch, s: State) {
    && (forall t :: t in s.threads <==> InGrid(g, t))
    && (forall t :: t in s.threads ==> Tracks(g, t, s.threads[t]))
  }

  lemma {:induction false} AlwaysTrack(g: Launch, add: FloatAdd, s: State, schedule: seq<Tid>)
    requires Started(g, s)
    ensures AllTrack(g, Play(g, add, s, schedule))
    decreases |schedule|
  {
    hide Exec;
    if schedule != [] {
      var before, t := Play(g, add, s, schedule[..|schedule| - 1]), schedule[|schedule| - 1];
      AlwaysTrack(g, add, s, schedule[..|schedule| - 1]);
      if t in before.threads && before.threads[t].Running() {
        ExecFollows(g, add, t, before.threads[t], before.memory);
      }
    }
  }

  /** Where a thread stands after `k` turns: at the branch it goes on or skips to the end. */
  function StandsAt(passes: bool, k: nat): nat {
    if k <= 9 then k
    else if passes then if k < LENGTH then k else LENGTH
    else if k == 10 then 21 else LENGTH
  }

  /**
   * In every interleaving of any grid, a thread is where its own turns have taken it: past the branch, its tenth
   * turn, at instruction 10 if the signed index is below the signed count, and at 21 otherwise.
   */
  lemma {:induction false} GuardDecides(g: Launch, add: FloatAdd, s: State, schedule: seq<Tid>, t: Tid)
    requires Started(g, s) && InGrid(g, t)
    ensures t in Play(g, add, s, schedule).threads
    ensures Play(g, add, s, schedule).threads[t].pc == StandsAt(GuardPasses(g, t), Turns(schedule, t))
    decreases |schedule|
  {
    hide Exec, GuardPasses, Tracks;
    AlwaysTrack(g, add, s, schedule);
    if schedule != [] {
      var last := |schedule| - 1;
      var before := Play(g, add, s, schedule[..last]);
      GuardDecides(g, add, s, schedule[..last], t);
      AlwaysTrack(g, add, s, schedule[..last]);
      if schedule[last] == t && before.threads[t].Running() {
        ExecFollows(g, add, t, before.threads[t], before.memory);
      }
    }
  }

  /**
   * In every interleaving of any grid, a turn leaves memory alone unless it is the store of a thread whose guard
   * passed, and then it writes the cell at that thread's signed index and no other.
   */
  lemma OnlyOwnCellWritten(g: Launch, add: FloatAdd, s: State, schedule: seq<Tid>, t: Tid)
    requires Started(g, s) && InGrid(g, t)
    ensures var before := Play(g, add, s, schedule);
            && t in before.threads
            && Turn(g, add, before, t).memory
               == if GuardPasses(g, t) && Turns(schedule, t) == 20
                  then before.memory[StoreAddress(g, t) := before.threads[t].F(3)]
                  else before.memory
  {
    hide Exec, StoreAddress, Tracks;
    var before := Play(g, add, s, schedule);
    AlwaysTrack(g, add, s, schedule);
    GuardDecides(g, add, s, schedule, t);
    if before.threads[t].Running() {
      ExecFollows(g, add, t, before.threads[t], before.memory);
    }
  }

  /** A thread with more than `j` turns has one before which it had `j`. */
  lemma {:induction false} TurnNumber(schedule: seq<Tid>, t: Tid, j: nat) returns (k: nat)
    requires Turns(schedule, t) > j
    ensures k < |schedule| && schedule[k] == t && Turns(schedule[..k], t) == j
    decreases |schedule|
  {
    var last := |schedule| - 1;
    if Turns(schedule[..last], t) > j {
      k := TurnNumber(schedule[..last], t, j);
      assert schedule[..last][..k] == schedule[..k];
    } else {
      k := last;
    }
  }

  /** At turn number `k` of the interleaving thread `t` executes its store, and stores at `at`. */
  ghost predicate StoresAt(g: Launch, add: FloatAdd, s: State, schedule: seq<Tid>, k: nat, t: Tid, at: u64)
    requires k < |schedule|
  {
    var before := Play(g, add, s, schedule[..k]);
    && schedule[k] == t && t in before.threads && Fetch(before.threads[t].pc).StGlobalF32?
    && Turn(g, add, before, t).memory == before.memory[at := before.threads[t].F(3)]
  }

  /** A thread whose guard passes executes its store, at its own cell, in every interleaving that lets it. */
  lemma PassingThreadStores(g: Launch, add: FloatAdd, s: State, schedule: seq<Tid>, t: Tid)
    requires Started(g, s) && InGrid(g, t) && GuardPasses(g, t) && Turns(schedule, t) > 20
    ensures exists k: nat :: k < |schedule| && StoresAt(g, add, s, schedule, k, t, StoreAddress(g, t))
  {
    var k := TurnNumber(schedule, t, 20);
    OnlyOwnCellWritten(g, add, s, schedule[..k], t);
    GuardDecides(g, add, s, schedule[..k], t);
    assert StoresAt(g, add, s, schedule, k, t, StoreAddress(g, t));
  }

  /** Beyond 2^31 threads one of them stores outside the output array, in every interleaving that lets it. */
  lemma WrappedThreadStoresOutside(g: Launch, add: FloatAdd, s: State) returns (t: Tid, at: u64)
    requires 0 < g.n < TWO_TO_THE_31 && g.blockSize > 0 && g.c + 4 * g.n <= TWO_TO_THE_64
    requires g.blocks * g.blockSize > TWO_TO_THE_31 && Started(g, s)
    ensures InGrid(g, t) && !(g.c <= at < g.c + 4 * g.n)
    ensures forall schedule :: Turns(schedule, t) > 20 ==>
              exists k: nat :: k < |schedule| && StoresAt(g, add, s, schedule, k, t, at)
  {
    t := Owner(g, TWO_TO_THE_31);
    IndexIsBijection(g, t, TWO_TO_THE_31);
    assert Signed(Index(g, t)) == -TWO_TO_THE_31;
    at := StoreAddress(g, t);
    forall schedule | Turns(schedule, t) > 20
      ensures exists k: nat :: k < |schedule| && StoresAt(g, add, s, schedule, k, t, at)
    {
      PassingThreadStores(g, add, s, schedule, t);
    }
  }

  // ---------- the running grid ----------

  class Grid {
    const launch: Launch
    const add: FloatAdd
    var threads: map<Tid, Thread>
    var memory: Memory

    function Now(): State
      reads this
    {
      State(threads, memory)
    }

    constructor (launch: Launch, add: FloatAdd, memory: Memory)
      ensures this.launch == launch && this.add == add && this.memory == memory
      ensures Started(launch, Now())
    {
      this.launch, this.add, this.memory := launch, add, memory;
      var tids := set b: nat, x: nat | b < launch.blocks && x < launch.blockSize :: Tid(b, x);
      this.threads := map t | t in tids :: Thread(0, map[], map[], map[], map[]);
    }

    /** One thread executes its next instruction. */
    method Step(t: Tid)
      modifies this
      ensures Now() == Turn(launch, add, old(Now()), t)
    {
      if t !in threads || !threads[t].Running() {
        return;
      }
      var th := threads[t];
      var pc, rd, r, f, p := th.pc + 1, th.rd, th.r, th.f, th.p;
      match Fetch(th.pc) {
        case LdParamU64(to, k) => rd := rd[to := Param(launch, k)];
        case LdParamU32(to, k) => r := r[to := Wrap32(Param(launch, k))];
        case MovU32(to, special) => r := r[to := Wrap32(SpecialValue(launch, t, special))];
        case MadLoS32(to, x, y, z) => r := r[to := MadLo(th.R(x), th.R(y), th.R(z))];
        case SetpGeS32(to, x, y) => p := p[to := S32(th.R(x)) >= S32(th.R(y))];
        case BraIf(guard, target) => if th.P(guard) { pc := target; }
        case CvtaToGlobal(to, from) => rd := rd[to := th.D(from)];
        case MulWideS32(to, x, factor) => rd := rd[to := Wrap64(S32(th.R(x)) * factor)];
        case AddS64(to, x, y) => rd := rd[to := Wrap64(th.D(x) + th.D(y))];
        case LdGlobalF32(to, address) => f := f[to := Load(memory, th.D(address))];
        case AddF32(to, x, y) => f := f[to := add(th.F(x), th.F(y))];
        case StGlobalF32(address, x) => memory := memory[th.D(address) := th.F(x)];
        case Ret => pc := LENGTH;
      }
      threads := threads[t := Thread(pc, rd, r, f, p)];
    }

    /** One interleaving of the grid, from its launch until every thread has had its turns. */
    method Run(schedule: seq<Tid>)
      requires ArraysApart(launch) && GridSafe(launch) && Started(launch, Now())
      requires forall t :: InGrid(launch, t) ==> Turns(schedule, t) >= LENGTH
      modifies this
      ensures forall i :: 0 <= i < launch.n ==>
                Load(memory, Cell(launch, i)) == Sum(launch, add, old(memory), i)
      ensures forall at :: !IsCell(launch, at) ==>
                (at in memory <==> at in old(memory)) && Load(memory, at) == Load(old(memory), at)
    {
      ghost var start := Now();
      for k := 0 to |schedule|
        invariant Now() == Play(launch, add, start, schedule[..k])
      {
        assert schedule[..k + 1][..k] == schedule[..k];
        Step(schedule[k]);
      }
      assert schedule[..|schedule|] == schedule;
      VectorAddCorrect(launch, add, start, schedule);
    }
  }
}
