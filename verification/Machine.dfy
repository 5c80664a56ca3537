/**
 * Guest and host as two machines joined by two byte streams and a shared staging buffer. Sends and receives
 * split anywhere, the two sides interleave freely, and the application chooses each call from what it has seen.
 * What is proved here holds whatever the driver and the calls are, as long as a request fits its buffer.
 */
module Machine {
  import opened Bytes
  import opened Driver
  import opened RequestCodec
  import opened ReplyCodec
  import opened Protocol
  import opened Transport
  import PtxPrototype

  /** `before` is the guest when it issued the call, before its own tables changed. */
  datatype GuestPc =
    | Idle
    | Sending(call: Call, before: Guest, rest: seq<byte>)
    | Receiving(call: Call, before: Guest, got: seq<byte>)
    | Hung(call: Call, before: Guest)    // parsing the shipped file does not end
    | Aborted                            // `to_device` ended the process
  datatype HostPc = Waiting | Serving | Replying

  datatype System<D> = System(
    guest: Guest, gpc: GuestPc,
    host: Host<D>, hpc: HostPc,
    staging: seq<byte>,                               // the shared file behind both VirtualGPU objects
    buf: seq<byte>,                                   // the host's receive buffer
    toHost: seq<byte>, toGuest: seq<byte>,            // the socket
    completed: nat, pulled: nat, replied: nat)        // calls returned, commands pulled, replies sent

  /** One step of one side; a count is how much the kernel moves at once. */
  datatype Label =
    | Issue
    | Send(count: nat)
    | Pull
    | Execute
    | Reply
    | Receive(count: nat)
    | Return

  predicate Enabled<D>(program: Program, s: System<D>, l: Label) {
    match l
    case Issue => s.gpc.Idle? && program(s.guest.mem, s.guest.codes).Some?
    case Send(count) => s.gpc.Sending? && s.gpc.rest != [] && count > 0
    case Pull => s.hpc.Waiting? && s.toHost != [] && !s.gpc.Sending?   // one read returns a whole command
    case Execute => s.hpc.Serving?
    case Reply => s.hpc.Replying?
    case Receive(count) => s.gpc.Receiving? && |s.gpc.got| < RESPONSE_SIZE && s.toGuest != [] && count > 0
    case Return => s.gpc.Receiving? && |s.gpc.got| == RESPONSE_SIZE
  }

  /** The buffers have their fixed sizes. */
  predicate Sized<D>(s: System<D>) {
    |s.host.response| == RESPONSE_SIZE && |s.staging| == STAGING_SIZE && |s.buf| == BUFFER_SIZE
  }

  /** Where a hook is once its request has been sent. */
  function Sent(cfg: Config, c: Call, before: Guest): GuestPc {
    if ParseHangs(cfg, c, before) then Hung(c, before) else Receiving(c, before, [])
  }

  function Next<D>(cfg: Config, drv: Driver<D>, program: Program, s: System<D>, l: Label): (r: System<D>)
    requires Sized(s)
    ensures Sized(r)
  {
    if !Enabled(program, s, l) then s
    else
      match l
      case Issue =>
        var c := program(s.guest.mem, s.guest.codes).value;
        if Aborts(c) then s.(gpc := Aborted)
        else
          s.(guest := Prepare(cfg, c, s.guest), staging := Stage(c, s.guest.mem, s.staging),
             gpc := Sending(c, s.guest, Message(c, s.guest)))
      case Send(count) =>
        var moved, rest := Min(count, |s.gpc.rest|), s.gpc.rest;
        s.(toHost := s.toHost + rest[..moved],
           gpc := if moved < |rest| then Sending(s.gpc.call, s.gpc.before, rest[moved..])
                  else Sent(cfg, s.gpc.call, s.gpc.before))
      case Pull =>
        var moved := Min(|s.toHost|, BUFFER_SIZE);
        s.(buf := Splice(s.buf, 0, s.toHost[..moved]), toHost := s.toHost[moved..],
           hpc := Serving, pulled := s.pulled + 1)
      case Execute =>
        var served := Serve(cfg, drv, s.host, s.staging, s.buf);
        s.(host := served.host, staging := served.staging, hpc := Replying)
      case Reply =>
        s.(toGuest := s.toGuest + s.host.response, hpc := Waiting, replied := s.replied + 1)
      case Receive(count) =>
        var moved := Min(Min(count, RESPONSE_SIZE - |s.gpc.got|), |s.toGuest|);
        s.(gpc := Receiving(s.gpc.call, s.gpc.before, s.gpc.got + s.toGuest[..moved]), toGuest := s.toGuest[moved..])
      case Return =>
        s.(guest := Finish(s.gpc.call, s.guest, s.gpc.got, s.staging), gpc := Idle, completed := s.completed + 1)
  }

  function Play<D>(cfg: Config, drv: Driver<D>, program: Program, s: System<D>, schedule: seq<Label>): (r: System<D>)
    requires Sized(s)
    ensures Sized(r)
    decreases |schedule|
  {
    if schedule == [] then s
    else Next(cfg, drv, program, Play(cfg, drv, program, s, schedule[..|schedule| - 1]), schedule[|schedule| - 1])
  }

  /** The kernel may cut anywhere: any first part of what is left to send, or of what has arrived, moves at once. */
  lemma CutAnywhere<D>(cfg: Config, drv: Driver<D>, program: Program, s: System<D>, first: seq<byte>, rest: seq<byte>)
    requires Sized(s) && first != []
    ensures s.gpc.Sending? && s.gpc.rest == first + rest ==>
              var next := Next(cfg, drv, program, s, Send(|first|));
              && next.toHost == s.toHost + first
              && (rest != [] ==> next.gpc == Sending(s.gpc.call, s.gpc.before, rest))
              && (rest == [] ==> !next.gpc.Sending?)
    ensures s.gpc.Receiving? && s.toGuest == first + rest && |s.gpc.got| + |first| <= RESPONSE_SIZE ==>
              var next := Next(cfg, drv, program, s, Receive(|first|));
              next.gpc == Receiving(s.gpc.call, s.gpc.before, s.gpc.got + first) && next.toGuest == rest
  {
    hide Message, Serve, Finish, Prepare, Stage, ParseHangs;
    assert (first + rest)[..|first|] == first && (first + rest)[|first|..] == rest;
  }

  // ---------- the phases of a call ----------

  datatype Phase = Resting | Requested | Fetched | Answered

  function PhaseOf<D>(s: System<D>): Phase {
    if s.gpc.Idle? || s.gpc.Aborted? then Resting
    else if s.hpc.Serving? then Fetched
    else if s.hpc.Replying? || s.replied > s.completed then Answered
    else Requested
  }

  predicate InProgress<D>(s: System<D>) {
    s.gpc.Sending? || s.gpc.Receiving? || s.gpc.Hung?
  }

  /** What the guest still has to send of its request, and what it has received of its reply. */
  function Unsent<D>(s: System<D>): seq<byte> {
    if s.gpc.Sending? then s.gpc.rest else []
  }

  function Got<D>(s: System<D>): seq<byte> {
    if s.gpc.Receiving? then s.gpc.got else []
  }

  /** The socket and the counters in each phase. */
  ghost predicate Framed<D>(s: System<D>) {
    match PhaseOf(s)
    case Resting =>
      && s.hpc.Waiting? && s.toHost == [] && s.toGuest == [] && s.pulled == s.replied == s.completed
    case Requested =>
      && s.hpc.Waiting? && s.toGuest == [] && Got(s) == [] && s.pulled == s.replied == s.completed
      && s.toHost + Unsent(s) == Message(s.gpc.call, s.gpc.before) && (s.gpc.Sending? ==> s.gpc.rest != [])
    case Fetched =>
      && !s.gpc.Sending? && s.toHost == [] && s.toGuest == [] && Got(s) == []
      && s.pulled == s.completed + 1 && s.replied == s.completed
      && Holds(s.buf, 0, Message(s.gpc.call, s.gpc.before))
    case Answered =>
      && !s.gpc.Sending? && s.toHost == [] && s.pulled == s.completed + 1
      && if s.hpc.Replying? then Got(s) == [] && s.toGuest == [] && s.replied == s.completed
         else Got(s) + s.toGuest == s.host.response && s.replied == s.completed + 1
  }

  /** A copy-in from a range of memory. */
  predicate CopiesIn(c: Call, mem: seq<byte>) {
    c.CopyIn? && c.srcHost + c.count <= |mem|
  }

  /** The call in progress: its request fits, and until the host has served it staging holds what it copies in. */
  ghost predicate CallKept<D>(cfg: Config, s: System<D>)
    requires InProgress(s)
  {
    && 0 < |Message(s.gpc.call, s.gpc.before)| <= BUFFER_SIZE
    && (s.gpc.Hung? ==> ParseHangs(cfg, s.gpc.call, s.gpc.before))
    && ((PhaseOf(s).Requested? || PhaseOf(s).Fetched?) && CopiesIn(s.gpc.call, s.guest.mem) ==>
          Staged(s.gpc.call, s.guest.mem, s.staging))
  }

  ghost predicate FrameInv<D>(cfg: Config, program: Program, s: System<D>) {
    && Sized(s) && Framed(s) && (InProgress(s) ==> CallKept(cfg, s))
    && (s.gpc.Aborted? ==> var c := program(s.guest.mem, s.guest.codes); c.Some? && Aborts(c.value))
  }

  /** Both sides at their start. */
  predicate AtStart<D>(s: System<D>) {
    && Sized(s) && s.gpc == Idle && s.hpc == Waiting && s.toHost == [] && s.toGuest == []
    && s.completed == s.pulled == s.replied == 0
  }

  /** A call that is about to be issued, and does not end the process, has a request that fits the send buffer. */
  predicate RequestFits<D>(program: Program, s: System<D>) {
    Enabled(program, s, Issue) ==>
      var c := program(s.guest.mem, s.guest.codes).value;
      Aborts(c) || |Message(c, s.guest)| <= BUFFER_SIZE
  }

  ghost predicate RequestsFit<D>(cfg: Config, drv: Driver<D>, program: Program, s: System<D>, schedule: seq<Label>)
    requires Sized(s)
  {
    forall k :: 0 <= k < |schedule| && schedule[k].Issue? ==>
      RequestFits(program, Play(cfg, drv, program, s, schedule[..k]))
  }

  lemma MessageNotEmpty(c: Call, g: Guest)
    ensures |Message(c, g)| > 0
  {
    ConsUnfolds(CStr(Ascii(NameOf(ApiOf(c)))), Arguments(c, g));
  }

  /** Issuing a call does not touch the application's memory or results. */
  lemma PrepareKeepsMemory(cfg: Config, c: Call, g: Guest)
    ensures Prepare(cfg, c, g).mem == g.mem && Prepare(cfg, c, g).codes == g.codes
  {
  }

  lemma FrameIssue<D>(cfg: Config, drv: Driver<D>, program: Program, s: System<D>)
    requires FrameInv(cfg, program, s) && Enabled(program, s, Issue) && RequestFits(program, s)
    ensures FrameInv(cfg, program, Next(cfg, drv, program, s, Issue))
  {
    var c := program(s.guest.mem, s.guest.codes).value;
    MessageNotEmpty(c, s.guest);
    PrepareKeepsMemory(cfg, c, s.guest);
    if CopiesIn(c, s.guest.mem) && !Aborts(c) {
      StageStages(c, s.guest.mem, s.staging);
    }
  }

  lemma FrameSend<D>(cfg: Config, drv: Driver<D>, program: Program, s: System<D>, count: nat)
    requires FrameInv(cfg, program, s) && Enabled(program, s, Send(count))
    ensures FrameInv(cfg, program, Next(cfg, drv, program, s, Send(count)))
  {
    hide Message, Holds, Staged, CopiesIn, Serve;
    var moved := Min(count, |s.gpc.rest|);
    assert s.toHost + s.gpc.rest[..moved] + s.gpc.rest[moved..] == s.toHost + s.gpc.rest;
    if moved == |s.gpc.rest| {
      assert s.gpc.rest[..moved] == s.gpc.rest;
    }
  }

  lemma FramePull<D>(cfg: Config, drv: Driver<D>, program: Program, s: System<D>)
    requires FrameInv(cfg, program, s) && Enabled(program, s, Pull)
    ensures FrameInv(cfg, program, Next(cfg, drv, program, s, Pull))
  {
    assert PhaseOf(s) == Requested;
    assert s.toHost + [] == s.toHost == Message(s.gpc.call, s.gpc.before);
    assert s.toHost[..|s.toHost|] == s.toHost;
  }

  lemma FrameExecute<D>(cfg: Config, drv: Driver<D>, program: Program, s: System<D>)
    requires FrameInv(cfg, program, s) && Enabled(program, s, Execute)
    ensures FrameInv(cfg, program, Next(cfg, drv, program, s, Execute))
  {
    hide Serve, Message, Holds, Staged, CopiesIn, ParseHangs;
  }

  lemma FrameReply<D>(cfg: Config, drv: Driver<D>, program: Program, s: System<D>)
    requires FrameInv(cfg, program, s) && Enabled(program, s, Reply)
    ensures FrameInv(cfg, program, Next(cfg, drv, program, s, Reply))
  {
    assert [] + s.host.response == s.host.response == [] + ([] + s.host.response);
  }

  lemma FrameReceive<D>(cfg: Config, drv: Driver<D>, program: Program, s: System<D>, count: nat)
    requires FrameInv(cfg, program, s) && Enabled(program, s, Receive(count))
    ensures FrameInv(cfg, program, Next(cfg, drv, program, s, Receive(count)))
  {
    var moved := Min(Min(count, RESPONSE_SIZE - |s.gpc.got|), |s.toGuest|);
    assert s.gpc.got + s.toGuest[..moved] + s.toGuest[moved..] == s.gpc.got + s.toGuest;
  }

  /** A hook returns with exactly the bytes of its own reply, and nothing is left on the socket. */
  lemma WholeReplyIsHere<D>(cfg: Config, program: Program, s: System<D>)
    requires FrameInv(cfg, program, s) && Enabled(program, s, Return)
    ensures PhaseOf(s) == Answered && s.gpc.got == s.host.response && s.toGuest == [] && s.hpc.Waiting?
    ensures s.replied == s.completed + 1
  {
    assert |s.gpc.got + s.toGuest| == |s.gpc.got| + |s.toGuest|;
    assert s.gpc.got + [] == s.gpc.got;
  }

  lemma FrameReturn<D>(cfg: Config, drv: Driver<D>, program: Program, s: System<D>)
    requires FrameInv(cfg, program, s) && Enabled(program, s, Return)
    ensures FrameInv(cfg, program, Next(cfg, drv, program, s, Return))
  {
    WholeReplyIsHere(cfg, program, s);
  }

  lemma StandsStill<D>(cfg: Config, drv: Driver<D>, program: Program, s: System<D>, l: Label)
    requires Sized(s) && !Enabled(program, s, l)
    ensures Next(cfg, drv, program, s, l) == s
  {
  }

  lemma FrameKeeps<D>(cfg: Config, drv: Driver<D>, program: Program, s: System<D>, l: Label)
    requires FrameInv(cfg, program, s) && (l.Issue? ==> RequestFits(program, s))
    ensures FrameInv(cfg, program, Next(cfg, drv, program, s, l))
  {
    hide Next, Framed, CallKept, RequestFits;
    if Enabled(program, s, l) {
      match l
      case Issue => FrameIssue(cfg, drv, program, s);
      case Send(count) => FrameSend(cfg, drv, program, s, count);
      case Pull => FramePull(cfg, drv, program, s);
      case Execute => FrameExecute(cfg, drv, program, s);
      case Reply => FrameReply(cfg, drv, program, s);
      case Receive(count) => FrameReceive(cfg, drv, program, s, count);
      case Return => FrameReturn(cfg, drv, program, s);
    } else {
      StandsStill(cfg, drv, program, s, l);
    }
  }

  lemma {:induction false} FrameAlways<D>(cfg: Config, drv: Driver<D>, program: Program, s: System<D>,
                                          schedule: seq<Label>)
    requires AtStart(s) && RequestsFit(cfg, drv, program, s, schedule)
    ensures FrameInv(cfg, program, Play(cfg, drv, program, s, schedule))
    decreases |schedule|
  {
    if schedule != [] {
      var earlier, l := schedule[..|schedule| - 1], schedule[|schedule| - 1];
      assert forall k :: 0 <= k < |earlier| ==> earlier[k] == schedule[k] && earlier[..k] == schedule[..k];
      FrameAlways(cfg, drv, program, s, earlier);
      FrameKeeps(cfg, drv, program, Play(cfg, drv, program, s, earlier), l);
    }
  }

  // ---------- framing ----------

  /** Commands pulled, replies sent and calls returned, and what is on the socket. */
  ghost predicate ExactlyOneOutstanding<D>(now: System<D>) {
    && now.completed <= now.replied <= now.pulled <= now.completed + 1
    && (now.gpc.Idle? ==> now.pulled == now.completed && now.toHost == [] && now.toGuest == [])
    && (now.toHost == [] || now.toGuest == [])
    && |now.toGuest| + |Got(now)| == RESPONSE_SIZE * (now.replied - now.completed)
    && (now.hpc.Serving? ==> InProgress(now) && Holds(now.buf, 0, Message(now.gpc.call, now.gpc.before)))
  }

  lemma FrameMeansOneOutstanding<D>(cfg: Config, program: Program, now: System<D>)
    requires FrameInv(cfg, program, now)
    ensures ExactlyOneOutstanding(now)
  {
    assert |Got(now) + now.toGuest| == |Got(now)| + |now.toGuest|;
  }

  /**
   * Exactly-once framing, for every driver and every application: commands pulled, replies sent and calls
   * returned never drift apart.
   */
  lemma {:induction false} ExactlyOnce<D>(cfg: Config, drv: Driver<D>, program: Program, s: System<D>,
                                          schedule: seq<Label>)
    requires AtStart(s) && RequestsFit(cfg, drv, program, s, schedule)
    ensures ExactlyOneOutstanding(Play(cfg, drv, program, s, schedule))
  {
    FrameAlways(cfg, drv, program, s, schedule);
    FrameMeansOneOutstanding(cfg, program, Play(cfg, drv, program, s, schedule));
  }

  /**
   * The two sides are never both at a step that touches staging, and when the host is about to serve a copy-in,
   * staging holds what the guest's source holds.
   */
  lemma {:induction false} StagingNotShared<D>(cfg: Config, drv: Driver<D>, program: Program, s: System<D>,
                                               schedule: seq<Label>)
    requires AtStart(s) && RequestsFit(cfg, drv, program, s, schedule)
    ensures var now := Play(cfg, drv, program, s, schedule);
            && !(Enabled(program, now, Execute) && (Enabled(program, now, Issue) || Enabled(program, now, Return)))
            && (now.hpc.Serving? ==> InProgress(now))
            && (now.hpc.Serving? && CopiesIn(now.gpc.call, now.guest.mem) ==>
                  Slice(now.staging, 0, now.gpc.call.count)
                  == Slice(now.guest.mem, now.gpc.call.srcHost, now.gpc.call.count))
  {
    FrameAlways(cfg, drv, program, s, schedule);
    var now := Play(cfg, drv, program, s, schedule);
    if Enabled(program, now, Return) {
      WholeReplyIsHere(cfg, program, now);
    }
  }

  // ---------- every call returns ----------

  /** Some side can take a step. */
  predicate SomeoneMoves<D>(program: Program, s: System<D>) {
    || Enabled(program, s, Issue) || Enabled(program, s, Send(1)) || Enabled(program, s, Pull)
    || Enabled(program, s, Execute) || Enabled(program, s, Reply) || Enabled(program, s, Receive(1))
    || Enabled(program, s, Return)
  }

  /** The application makes no further call, has been ended by `to_device`, or is parsing a file that never ends. */
  predicate Stopped<D>(cfg: Config, program: Program, s: System<D>) {
    var c := program(s.guest.mem, s.guest.codes);
    match s.gpc
    case Idle => c.None?
    case Aborted => c.Some? && Aborts(c.value)
    case Hung(call, before) => ParseHangs(cfg, call, before)
    case _ => false
  }

  /** The steps of a call with the longest request, from its issue to its return. */
  const STEPS_OF_CALL: nat := 1 + BUFFER_SIZE + RESPONSE_SIZE + 5

  /** An upper bound on the steps before the call in progress returns or its reply is on the way to a hung guest. */
  function StepsBound<D>(s: System<D>): int {
    match s.gpc
    case Sending(_, _, rest) => |rest| + RESPONSE_SIZE + 5
    case Receiving(_, _, got) => if s.replied > s.completed then RESPONSE_SIZE - |got| + 1 else HostBound(s)
    case Hung(_, _) => if s.replied > s.completed then 0 else HostBound(s)
    case _ => 0
  }

  function HostBound<D>(s: System<D>): int {
    match s.hpc
    case Waiting => RESPONSE_SIZE + 4
    case Serving => RESPONSE_SIZE + 3
    case Replying => RESPONSE_SIZE + 2
  }

  lemma SomeoneCanMove<D>(cfg: Config, program: Program, now: System<D>)
    requires FrameInv(cfg, program, now)
    ensures SomeoneMoves(program, now) || Stopped(cfg, program, now)
  {
    if PhaseOf(now) == Requested && !now.gpc.Sending? {
      assert now.toHost + [] == now.toHost;
    } else if PhaseOf(now) == Answered && now.hpc.Waiting? && now.gpc.Receiving? {
      assert |now.gpc.got| + |now.toGuest| == |now.gpc.got + now.toGuest|;
    }
  }

  lemma StepsBoundFalls<D>(cfg: Config, drv: Driver<D>, program: Program, now: System<D>, l: Label)
    requires FrameInv(cfg, program, now)
    ensures StepsBound(now) >= 0
    ensures Enabled(program, now, l) && l != Issue ==> StepsBound(Next(cfg, drv, program, now, l)) < StepsBound(now)
  {
    hide Message, Holds, Staged, CopiesIn, Serve, Finish, Prepare, Stage;
    if PhaseOf(now) == Answered && now.hpc.Waiting? {
      assert |Got(now)| + |now.toGuest| == |Got(now) + now.toGuest|;
    }
  }

  /**
   * For every driver and every application: a state in which neither side can move is one where the application
   * has stopped, and every step but the issue of a new call brings the current call nearer its end.
   */
  lemma {:induction false} EveryCallReturns<D>(cfg: Config, drv: Driver<D>, program: Program, s: System<D>,
                                               schedule: seq<Label>, l: Label)
    requires AtStart(s) && RequestsFit(cfg, drv, program, s, schedule)
    ensures var now := Play(cfg, drv, program, s, schedule);
            && (SomeoneMoves(program, now) || Stopped(cfg, program, now))
            && StepsBound(now) >= 0
            && (Enabled(program, now, l) && l != Issue ==>
                  StepsBound(Next(cfg, drv, program, now, l)) < StepsBound(now))
  {
    var now := Play(cfg, drv, program, s, schedule);
    FrameAlways(cfg, drv, program, s, schedule);
    SomeoneCanMove(cfg, program, now);
    StepsBoundFalls(cfg, drv, program, now, l);
  }

  // ---------- how long a run can be ----------

  /** Every entry of the schedule is a step that some side can take when its turn comes. */
  ghost predicate Effective<D>(cfg: Config, drv: Driver<D>, program: Program, s: System<D>, schedule: seq<Label>)
    requires Sized(s)
  {
    forall k :: 0 <= k < |schedule| ==> Enabled(program, Play(cfg, drv, program, s, schedule[..k]), schedule[k])
  }

  /** How many calls a schedule issues. */
  function Issues(schedule: seq<Label>): nat
    decreases |schedule|
  {
    if schedule == [] then 0
    else Issues(schedule[..|schedule| - 1]) + if schedule[|schedule| - 1] == Issue then 1 else 0
  }

  /** How many calls have been sent on their way: those returned, and the one in progress. */
  function Issued<D>(s: System<D>): nat {
    s.completed + if InProgress(s) then 1 else 0
  }

  /** A step raises the count only by issuing, and never lowers it. */
  lemma IssuedAfter<D>(cfg: Config, drv: Driver<D>, program: Program, s: System<D>, l: Label)
    requires Sized(s) && Enabled(program, s, l)
    ensures var next := Next(cfg, drv, program, s, l);
            var aborted := if next.gpc.Aborted? then 1 else 0;
            && Issued(s) <= Issued(next)
            && Issued(next) + aborted == Issued(s) + (if s.gpc.Aborted? then 1 else 0) + if l == Issue then 1 else 0
  {
    hide Prepare, Stage, Message, Serve, Finish;
  }

  /** Issuing a call starts a bound of at most the steps of a call; it takes one of them itself. */
  lemma IssueStartsBound<D>(cfg: Config, drv: Driver<D>, program: Program, now: System<D>)
    requires FrameInv(cfg, program, now) && Enabled(program, now, Issue) && RequestFits(program, now)
    ensures StepsBound(now) == 0 && StepsBound(Next(cfg, drv, program, now, Issue)) + 1 <= STEPS_OF_CALL
  {
    hide Message, Prepare, Stage, Framed, CallKept;
  }

  lemma StepKeepsBudget<D>(cfg: Config, drv: Driver<D>, program: Program, now: System<D>, l: Label, taken: nat,
                           issued: nat)
    requires FrameInv(cfg, program, now) && Enabled(program, now, l) && (l.Issue? ==> RequestFits(program, now))
    requires taken + StepsBound(now) <= STEPS_OF_CALL * issued
    ensures taken + 1 + StepsBound(Next(cfg, drv, program, now, l))
         <= STEPS_OF_CALL * (issued + if l == Issue then 1 else 0)
  {
    hide Next, StepsBound, FrameInv, RequestFits;
    if l == Issue {
      IssueStartsBound(cfg, drv, program, now);
    } else {
      StepsBoundFalls(cfg, drv, program, now, l);
    }
  }

  /** What holds along a schedule holds before its last entry, and of it. */
  lemma BeforeLast<D>(cfg: Config, drv: Driver<D>, program: Program, s: System<D>, schedule: seq<Label>)
    requires Sized(s) && schedule != []
    requires RequestsFit(cfg, drv, program, s, schedule) && Effective(cfg, drv, program, s, schedule)
    ensures var earlier, l := schedule[..|schedule| - 1], schedule[|schedule| - 1];
            var before := Play(cfg, drv, program, s, earlier);
            && RequestsFit(cfg, drv, program, s, earlier) && Effective(cfg, drv, program, s, earlier)
            && Enabled(program, before, l) && (l.Issue? ==> RequestFits(program, before))
  {
    hide Play, Enabled, RequestFits;
    var earlier := schedule[..|schedule| - 1];
    assert forall k :: 0 <= k < |earlier| ==> earlier[k] == schedule[k] && earlier[..k] == schedule[..k];
  }

  lemma {:induction false} BudgetHolds<D>(cfg: Config, drv: Driver<D>, program: Program, s: System<D>,
                                          schedule: seq<Label>)
    requires AtStart(s) && RequestsFit(cfg, drv, program, s, schedule) && Effective(cfg, drv, program, s, schedule)
    ensures |schedule| + StepsBound(Play(cfg, drv, program, s, schedule)) <= STEPS_OF_CALL * Issues(schedule)
    decreases |schedule|
  {
    hide Next, FrameInv, RequestFits, Enabled, RequestsFit, Effective;
    if schedule == [] {
      assert Play(cfg, drv, program, s, schedule) == s;
    } else {
      hide StepsBound;
      var earlier, l := schedule[..|schedule| - 1], schedule[|schedule| - 1];
      BeforeLast(cfg, drv, program, s, schedule);
      BudgetHolds(cfg, drv, program, s, earlier);
      FrameAlways(cfg, drv, program, s, earlier);
      StepKeepsBudget(cfg, drv, program, Play(cfg, drv, program, s, earlier), l, |earlier|, Issues(earlier));
    }
  }

  /** The issues of a run are the calls returned, the one in progress, and one that ended the process. */
  lemma {:induction false} IssuesCounted<D>(cfg: Config, drv: Driver<D>, program: Program, s: System<D>,
                                            schedule: seq<Label>)
    requires AtStart(s) && RequestsFit(cfg, drv, program, s, schedule) && Effective(cfg, drv, program, s, schedule)
    ensures var now := Play(cfg, drv, program, s, schedule);
            Issues(schedule) == Issued(now) + if now.gpc.Aborted? then 1 else 0
    decreases |schedule|
  {
    hide Next, FrameInv, RequestFits, Enabled, RequestsFit, Effective, Issued;
    if schedule == [] {
      assert Play(cfg, drv, program, s, schedule) == s && Issued(s) == 0 by { NothingIssued(s); }
    } else {
      var earlier := schedule[..|schedule| - 1];
      BeforeLast(cfg, drv, program, s, schedule);
      IssuesCounted(cfg, drv, program, s, earlier);
      IssuedAfter(cfg, drv, program, Play(cfg, drv, program, s, earlier), schedule[|schedule| - 1]);
    }
  }

  lemma NothingIssued<D>(s: System<D>)
    requires AtStart(s)
    ensures Issued(s) == 0
  {
  }

  /**
   * For every driver and every application: a run of steps that are not blocked has at most a fixed number for each
   * call it issues, all but one of which have returned; where it cannot go on the application has stopped.
   */
  lemma {:induction false} RunsAreBounded<D>(cfg: Config, drv: Driver<D>, program: Program, s: System<D>,
                                             schedule: seq<Label>)
    requires AtStart(s) && RequestsFit(cfg, drv, program, s, schedule) && Effective(cfg, drv, program, s, schedule)
    ensures var now := Play(cfg, drv, program, s, schedule);
            && |schedule| <= STEPS_OF_CALL * Issues(schedule)
            && Issues(schedule) <= now.completed + 1
            && (SomeoneMoves(program, now) || Stopped(cfg, program, now))
  {
    hide SomeoneMoves, Stopped, StepsBound;
    IssuesCounted(cfg, drv, program, s, schedule);
    BudgetHolds(cfg, drv, program, s, schedule);
    EveryCallReturns(cfg, drv, program, s, schedule, Issue);
  }

  // ---------- a read that comes early ----------

  /** The host's `read` as the source has it: it returns whatever is there, also in the middle of a message. */
  function ReadNow<D>(s: System<D>): System<D>
    requires Sized(s)
  {
    var moved := Min(|s.toHost|, BUFFER_SIZE);
    s.(buf := Splice(s.buf, 0, s.toHost[..moved]), toHost := s.toHost[moved..], hpc := Serving, pulled := s.pulled + 1)
  }

  /** The host reads, serves and replies; the guest sends the rest of its message; the host reads again. */
  function ReadTwice<D>(cfg: Config, drv: Driver<D>, program: Program, s: System<D>): System<D>
    requires Sized(s) && s.gpc.Sending?
  {
    var replied := Next(cfg, drv, program, Next(cfg, drv, program, ReadNow(s), Execute), Reply);
    ReadNow(Next(cfg, drv, program, replied, Send(|s.gpc.rest|)))
  }

  /**
   * Why a read must wait for the whole command: wherever a message is cut by an early read, the host takes its
   * second part for another command, and two commands are pulled for one call.
   */
  lemma EarlyReadPullsTwice<D>(cfg: Config, drv: Driver<D>, program: Program, s: System<D>)
    requires FrameInv(cfg, program, s) && s.gpc.Sending? && s.toHost != []
    ensures var now := ReadTwice(cfg, drv, program, s);
            && now.completed == s.completed && now.pulled == now.completed + 2
            && !ExactlyOneOutstanding(now)
  {
    hide Serve, Message, Prepare;
  }

  /** A hung guest can only come from a file with an unclosed header. */
  lemma HangsOnlyIfUnclosed(cfg: Config, c: Call, g: Guest)
    ensures ParseHangs(cfg, c, g) <==> c.ModuleLoad? && PtxPrototype.HasUnclosedHeader(cfg.ptx)
  {
    PtxPrototype.HangsIffUnclosed(cfg.ptx, g.protos);
  }
}
