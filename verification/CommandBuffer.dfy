/**
 * The shared-memory command buffer: one guest pushes commands, one host pulls and answers them, and two
 * semaphores order their accesses to one shared string and one shared response. Every semaphore operation
 * and every access to a shared cell is a step of its own, and the two sides interleave in any order.
 */
module CommandBuffer {
  import opened Bytes

  const ARG_SIZE := 96    // sizeof(char) * 100 less the int in front of the string

  type Command = seq<byte>
  datatype Reply = Reply(scalar: u64, code: u32)

  /** The host's answer to its latest command, given every command it pulled so far. */
  type Driver = seq<Command> -> Reply

  datatype GuestPc =
    | WriteSize
    | WriteChar(k: nat)       // strncpy, one character a step
    | PostHost
    | AwaitFinish
    | ReadScalar
    | ReadCode(scalar: u64)
  datatype HostPc =
    | AwaitCommand
    | ReadChar(prefix: seq<byte>)   // std::string(const char*), one character a step
    | WriteScalar
    | WriteCode
    | PostGuest

  datatype State = State(
    size: nat, arg: seq<byte>,              // StringArg
    hostTrigger: nat, guestTrigger: nat,    // the two semaphores
    scalar: u64, code: u32,                 // ResponseBuffer
    guest: GuestPc, host: HostPc,
    pushed: seq<Command>, pulled: seq<Command>, collected: seq<Reply>)

  datatype Actor = Guest | Host

  predicate Storable(c: Command) {
    NUL !in c && |c| + 1 <= ARG_SIZE
  }

  /** What a guest pushes, in order. */
  type Script = s: seq<Command> | forall i :: 0 <= i < |s| ==> Storable(s[i]) witness []

  predicate Finished(s: State, script: Script) {
    |s.collected| >= |script|
  }

  predicate Enabled(s: State, script: Script, a: Actor) {
    match a
    case Guest => !Finished(s, script) && (s.guest.AwaitFinish? ==> s.guestTrigger > 0)
    case Host => s.host.AwaitCommand? ==> s.hostTrigger > 0
  }

  function GuestNext(s: State, script: Script): State
    requires Enabled(s, script, Guest)
  {
    var c := script[|s.collected|];
    match s.guest
    case WriteSize => s.(size := |c| + 1, guest := WriteChar(0))
    case WriteChar(k) =>
      if k < |c| + 1 && k < |s.arg| then s.(arg := s.arg[k := (c + [NUL])[k]], guest := WriteChar(k + 1))
      else s.(guest := PostHost)
    case PostHost => s.(hostTrigger := s.hostTrigger + 1, pushed := s.pushed + [c], guest := AwaitFinish)
    case AwaitFinish => s.(guestTrigger := s.guestTrigger - 1, guest := ReadScalar)
    case ReadScalar => s.(guest := ReadCode(s.scalar))
    case ReadCode(scalar) => s.(collected := s.collected + [Reply(scalar, s.code)], guest := WriteSize)
  }

  function HostNext(s: State, driver: Driver): State
    requires s.host.AwaitCommand? ==> s.hostTrigger > 0
  {
    match s.host
    case AwaitCommand => s.(hostTrigger := s.hostTrigger - 1, host := ReadChar([]))
    case ReadChar(prefix) =>
      if |prefix| < |s.arg| && s.arg[|prefix|] != NUL then s.(host := ReadChar(prefix + [s.arg[|prefix|]]))
      else s.(pulled := s.pulled + [prefix], host := WriteScalar)
    case WriteScalar => s.(scalar := driver(s.pulled).scalar, host := WriteCode)
    case WriteCode => s.(code := driver(s.pulled).code, host := PostGuest)
    case PostGuest => s.(guestTrigger := s.guestTrigger + 1, host := AwaitCommand)
  }

  function Next(s: State, script: Script, driver: Driver, a: Actor): State {
    if !Enabled(s, script, a) then s        // blocked in sem_wait, or the guest is done
    else if a == Guest then GuestNext(s, script)
    else HostNext(s, driver)
  }

  function Play(s: State, script: Script, driver: Driver, schedule: seq<Actor>): State
    decreases |schedule|
  {
    if schedule == [] then s
    else
      var before := Play(s, script, driver, schedule[..|schedule| - 1]);
      Next(before, script, driver, schedule[|schedule| - 1])
  }

  predicate Initial(s: State) {
    && |s.arg| == ARG_SIZE
    && s.hostTrigger == 0 && s.guestTrigger == 0
    && s.guest == WriteSize && s.host == AwaitCommand
    && s.pushed == [] && s.pulled == [] && s.collected == []
  }

  // ---------- the invariant ----------

  ghost predicate ArgHolds(s: State, c: Command, n: nat) {
    n <= |c| + 1 <= |s.arg| && forall k :: 0 <= k < n ==> s.arg[k] == (c + [NUL])[k]
  }

  /** The answers to the first `n` commands. */
  ghost predicate Answers(replies: seq<Reply>, script: Script, driver: Driver) {
    |replies| <= |script| && forall i :: 0 <= i < |replies| ==> replies[i] == driver(script[..i + 1])
  }

  /** The guest prepares command number `i`; the host has answered every earlier one and waits. */
  ghost predicate Preparing(s: State, script: Script) {
    var i := |s.collected|;
    && i <= |script|
    && s.host == AwaitCommand && s.hostTrigger == 0 && s.guestTrigger == 0
    && s.pushed == script[..i] && s.pulled == script[..i]
    && (s.guest.WriteSize?
        || (i < |script| && s.size == |script[i]| + 1
            && ((s.guest.WriteChar? && ArgHolds(s, script[i], s.guest.k))
                || (s.guest.PostHost? && ArgHolds(s, script[i], |script[i]| + 1)))))
  }

  /** The guest is blocked on command number `i`, which the host has not pulled yet. */
  ghost predicate Pending(s: State, script: Script) {
    var i := |s.collected|;
    && i < |script|
    && s.guest == AwaitFinish && s.guestTrigger == 0
    && s.pushed == script[..i + 1] && s.pulled == script[..i]
    && s.size == |script[i]| + 1 && ArgHolds(s, script[i], |script[i]| + 1)
    && ((s.host == AwaitCommand && s.hostTrigger == 1)
        || (s.hostTrigger == 0 && s.host.ReadChar? && s.host.prefix <= script[i]))
  }

  /** The host has pulled command number `i` and answers it. */
  ghost predicate Answering(s: State, script: Script, driver: Driver) {
    var i := |s.collected|;
    && i < |script|
    && s.hostTrigger == 0
    && s.pushed == script[..i + 1] && s.pulled == script[..i + 1]
    && (var reply := driver(script[..i + 1]);
        || (s.guest == AwaitFinish && s.guestTrigger == 0
            && (s.host == WriteScalar
                || (s.host == WriteCode && s.scalar == reply.scalar)
                || (s.host == PostGuest && s.scalar == reply.scalar && s.code == reply.code)))
        || (s.host == AwaitCommand && s.scalar == reply.scalar && s.code == reply.code
            && ((s.guest == AwaitFinish && s.guestTrigger == 1)
                || (s.guestTrigger == 0 && (s.guest == ReadScalar || s.guest == ReadCode(reply.scalar))))))
  }

  ghost predicate Inv(s: State, script: Script, driver: Driver) {
    && |s.arg| == ARG_SIZE
    && Answers(s.collected, script, driver)
    && (Preparing(s, script) || Pending(s, script) || Answering(s, script, driver))
  }

  lemma GuestKeepsInv(s: State, script: Script, driver: Driver)
    requires Inv(s, script, driver) && Enabled(s, script, Guest)
    ensures Inv(GuestNext(s, script), script, driver)
  {
    var i := |s.collected|;
    var c := script[i];
    assert Storable(c);
    assert script[..i] + [c] == script[..i + 1];
  }

  lemma HostKeepsInv(s: State, script: Script, driver: Driver)
    requires Inv(s, script, driver) && Enabled(s, script, Host)
    ensures Inv(HostNext(s, driver), script, driver)
  {
    if s.host.ReadChar? {
      var i := |s.collected|;
      var c, k := script[i], |s.host.prefix|;
      assert Storable(c);
      assert s.arg[k] == (c + [NUL])[k];
      if k < |c| {
        assert s.arg[k] == c[k] && c[k] in c;
        assert s.host.prefix + [c[k]] == c[..k + 1];
      } else {
        assert s.host.prefix == c;
        assert script[..i] + [c] == script[..i + 1];
      }
    }
  }

  lemma {:induction false} InvAlways(s: State, script: Script, driver: Driver, schedule: seq<Actor>)
    requires Initial(s)
    ensures Inv(Play(s, script, driver, schedule), script, driver)
    decreases |schedule|
  {
    if schedule != [] {
      var before, a := Play(s, script, driver, schedule[..|schedule| - 1]), schedule[|schedule| - 1];
      InvAlways(s, script, driver, schedule[..|schedule| - 1]);
      if Enabled(before, script, a) {
        if a == Guest { GuestKeepsInv(before, script, driver); } else { HostKeepsInv(before, script, driver); }
      }
    }
  }

  // ---------- what the rendezvous is for ----------

  predicate GuestWritesString(s: State) {
    s.guest.WriteSize? || s.guest.WriteChar?
  }

  /** In every reachable state of every interleaving, whatever the driver answers. */
  lemma RendezvousSafety(s: State, script: Script, driver: Driver, schedule: seq<Actor>)
    requires Initial(s)
    ensures var now := Play(s, script, driver, schedule);
            // the guest never writes the string while the host copies it, nor reads an answer being written
            && !(GuestWritesString(now) && now.host.ReadChar?)
            && !((now.guest.ReadScalar? || now.guest.ReadCode?) && (now.host.WriteScalar? || now.host.WriteCode?))
            && (now.host.ReadChar? ==> |now.collected| < |script|)
            // while the host copies it, the string is the command just pushed, with its terminator and its size
            && (now.host.ReadChar? ==>
                  var c := script[|now.collected|];
                  now.size == |c| + 1 <= |now.arg| && now.arg[..now.size] == c + [NUL])
            // commands are pulled whole, in order, and at most one is outstanding
            && now.pushed <= script
            && now.pulled <= now.pushed && |now.pushed| <= |now.pulled| + 1
            && |now.collected| <= |now.pulled| <= |now.collected| + 1
            // each answer collected belongs to the command it was pushed with
            && (forall i :: 0 <= i < |now.collected| ==> now.collected[i] == driver(now.pulled[..i + 1]))
  {
    InvAlways(s, script, driver, schedule);
    var now := Play(s, script, driver, schedule);
    forall i | 0 <= i < |now.collected|
      ensures now.collected[i] == driver(now.pulled[..i + 1])
    {
      assert now.pulled[..i + 1] == script[..i + 1];
    }
  }

  /** No reachable state is stuck: until every push has returned, one of the two sides can move. */
  lemma NeverStuck(s: State, script: Script, driver: Driver, schedule: seq<Actor>)
    requires Initial(s)
    ensures var now := Play(s, script, driver, schedule);
            Enabled(now, script, Guest) || Enabled(now, script, Host) || Finished(now, script)
  {
    InvAlways(s, script, driver, schedule);
  }

  // ---------- every push returns ----------

  /** The steps both sides take for one command. */
  function Cost(c: Command): nat {
    2 * |c| + 12
  }

  function TotalCost(script: seq<Command>): nat {
    if script == [] then 0 else Cost(script[0]) + TotalCost(script[1..])
  }

  /** The steps already taken for the command in progress. */
  ghost function Progress(s: State, script: Script): int {
    if Finished(s, script) then 0
    else
      var c := script[|s.collected|];
      match s.guest
      case WriteSize => 0
      case WriteChar(k) => 1 + k
      case PostHost => |c| + 3
      case AwaitFinish =>
        |c| + 4 + (match s.host
                   case AwaitCommand => if s.hostTrigger > 0 then 0 else |c| + 5
                   case ReadChar(prefix) => 1 + |prefix|
                   case WriteScalar => |c| + 2
                   case WriteCode => |c| + 3
                   case PostGuest => |c| + 4)
      case ReadScalar => 2 * |c| + 10
      case ReadCode(_) => 2 * |c| + 11
  }

  ghost function StepsLeft(s: State, script: Script): int {
    if Finished(s, script) then 0 else TotalCost(script[|s.collected|..]) - Progress(s, script)
  }

  lemma StepTakesOne(s: State, script: Script, driver: Driver, a: Actor)
    requires Inv(s, script, driver) && Enabled(s, script, a)
    ensures StepsLeft(Next(s, script, driver, a), script) == StepsLeft(s, script) - 1
  {
    var i := |s.collected|;
    assert Storable(script[i]);
    assert script[i..][1..] == script[i + 1..];
    if a == Host && s.host.ReadChar? {
      var c, k := script[i], |s.host.prefix|;
      assert s.arg[k] == (c + [NUL])[k];
      if k < |c| {
        assert s.arg[k] == c[k] && c[k] in c;
      }
    }
  }

  /** Every entry of the schedule is a side that can move when its turn comes. */
  ghost predicate Effective(s: State, script: Script, driver: Driver, schedule: seq<Actor>) {
    forall n :: 0 <= n < |schedule| ==> Enabled(Play(s, script, driver, schedule[..n]), script, schedule[n])
  }

  lemma EffectivePrefix(s: State, script: Script, driver: Driver, schedule: seq<Actor>, k: nat)
    requires Effective(s, script, driver, schedule) && k <= |schedule|
    ensures Effective(s, script, driver, schedule[..k])
  {
    forall n | 0 <= n < k
      ensures Enabled(Play(s, script, driver, schedule[..k][..n]), script, schedule[..k][n])
    {
      assert schedule[..k][..n] == schedule[..n];
    }
  }

  lemma {:induction false} StepsCount(s: State, script: Script, driver: Driver, schedule: seq<Actor>)
    requires Initial(s) && Effective(s, script, driver, schedule)
    ensures StepsLeft(Play(s, script, driver, schedule), script) == TotalCost(script) - |schedule|
    decreases |schedule|
  {
    if schedule == [] {
      assert script[0..] == script;
    } else {
      var last := |schedule| - 1;
      var before := schedule[..last];
      EffectivePrefix(s, script, driver, schedule, last);
      StepsCount(s, script, driver, before);
      InvAlways(s, script, driver, before);
      var now := Play(s, script, driver, before);
      assert Enabled(now, script, schedule[last]);
      StepTakesOne(now, script, driver, schedule[last]);
    }
  }

  lemma {:induction false} TotalCostCovers(script: seq<Command>)
    ensures TotalCost(script) >= 12 * |script|
  {
    if script != [] { TotalCostCovers(script[1..]); }
  }

  lemma UnfinishedHasStepsLeft(s: State, script: Script, driver: Driver)
    requires Inv(s, script, driver) && !Finished(s, script)
    ensures StepsLeft(s, script) >= 1
  {
    var i := |s.collected|;
    assert Storable(script[i]);
    assert script[i..][0] == script[i];
    TotalCostCovers(script[i..][1..]);
  }

  /**
   * Any run of moves that are not blocked has at most `TotalCost` of them, and the pushes have all returned,
   * with the driver's own answers, exactly when it has that many.
   */
  lemma {:induction false} EveryPushReturns(s: State, script: Script, driver: Driver, schedule: seq<Actor>)
    requires Initial(s) && Effective(s, script, driver, schedule)
    ensures |schedule| <= TotalCost(script)
    ensures var now := Play(s, script, driver, schedule);
            && (Finished(now, script) <==> |schedule| == TotalCost(script))
            && (Finished(now, script) ==>
                  && now.pulled == script && |now.collected| == |script|
                  && forall i :: 0 <= i < |script| ==> now.collected[i] == driver(script[..i + 1]))
  {
    var now := Play(s, script, driver, schedule);
    StepsCount(s, script, driver, schedule);
    InvAlways(s, script, driver, schedule);
    if Finished(now, script) {
      assert script[..|script|] == script;
    } else {
      UnfinishedHasStepsLeft(now, script, driver);
    }
  }

  // ---------- the shared object ----------

  class SharedCommandBuffer {
    var size: nat
    const arg: array<byte>
    var hostTrigger: nat
    var guestTrigger: nat
    var scalar: u64
    var code: u32
    var guest: GuestPc
    var host: HostPc
    var pushed: seq<Command>
    var pulled: seq<Command>
    var collected: seq<Reply>

    function Now(): State
      reads this, arg
    {
      State(size, arg[..], hostTrigger, guestTrigger, scalar, code, guest, host, pushed, pulled, collected)
    }

    constructor ()
      ensures Initial(Now()) && fresh(arg) && arg.Length == 96
    {
      arg := new byte[ARG_SIZE](_ => 0);
      size, hostTrigger, guestTrigger, scalar, code := 0, 0, 0, 0, 0;
      guest, host := WriteSize, AwaitCommand;
      pushed, pulled, collected := [], [], [];
    }

    /** The next step of `push`, then of reading the answer. */
    method GuestStep(script: Script)
      requires Enabled(Now(), script, Guest)
      modifies this, arg
      ensures Now() == GuestNext(old(Now()), script)
    {
      var c := script[|collected|];
      match guest {
        case WriteSize =>
          size, guest := |c| + 1, WriteChar(0);
        case WriteChar(k) =>
          if k < |c| + 1 && k < arg.Length {
            arg[k] := (c + [NUL])[k];
            guest := WriteChar(k + 1);
          } else {
            guest := PostHost;
          }
        case PostHost =>
          hostTrigger := hostTrigger + 1;
          pushed, guest := pushed + [c], AwaitFinish;
        case AwaitFinish =>
          guestTrigger := guestTrigger - 1;
          guest := ReadScalar;
        case ReadScalar =>
          guest := ReadCode(scalar);
        case ReadCode(read) =>
          collected, guest := collected + [Reply(read, code)], WriteSize;
      }
    }

    /** The next step of `pull`, of answering, then of `impl_finish`. */
    method HostStep(driver: Driver)
      requires host.AwaitCommand? ==> hostTrigger > 0
      modifies this
      ensures Now() == HostNext(old(Now()), driver)
    {
      match host {
        case AwaitCommand =>
          hostTrigger := hostTrigger - 1;
          host := ReadChar([]);
        case ReadChar(prefix) =>
          if |prefix| < arg.Length && arg[|prefix|] != NUL {
            host := ReadChar(prefix + [arg[|prefix|]]);
          } else {
            pulled, host := pulled + [prefix], WriteScalar;
          }
        case WriteScalar =>
          scalar, host := driver(pulled).scalar, WriteCode;
        case WriteCode =>
          code, host := driver(pulled).code, PostGuest;
        case PostGuest =>
          guestTrigger := guestTrigger + 1;
          host := AwaitCommand;
      }
    }

    /** One interleaving of the two sides. */
    method Run(script: Script, driver: Driver, schedule: seq<Actor>)
      requires Initial(Now())
      modifies this, arg
      ensures Now() == Play(old(Now()), script, driver, schedule)
      ensures Inv(Now(), script, driver)
    {
      for n := 0 to |schedule|
        invariant Now() == Play(old(Now()), script, driver, schedule[..n])
      {
        assert schedule[..n + 1][..n] == schedule[..n];
        if Enabled(Now(), script, schedule[n]) {
          if schedule[n] == Guest { GuestStep(script); } else { HostStep(driver); }
        }
      }
      assert schedule[..|schedule|] == schedule;
      InvAlways(old(Now()), script, driver, schedule);
    }
  }
}
