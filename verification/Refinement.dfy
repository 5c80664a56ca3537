/** The two machines against the run that `Remoting` defines, and so against direct execution. */
module Refinement {
  import opened Bytes
  import opened Wrappers
  import opened Driver
  import opened RequestCodec
  import opened ReplyCodec
  import opened Protocol
  import opened Remoting
  import opened Transparency
  import opened Machine

  // ---------- the setting ----------

  /** Both sides at their start, sharing the state of a run that is about to begin. */
  ghost predicate Initial<D(!new)>(cfg: Config, drv: Driver<D>, pin: u64, s: System<D>, r: Remoted<D>) {
    && AtStart(s) && Between(cfg, drv, s.guest, r, s.host) && s.staging == r.staging && s.host.clientPinStart == pin
  }

  /** The first `n` calls that the application makes are well formed; any of them may fail. */
  ghost predicate Setting<D(!new)>(cfg: Config, drv: Driver<D>, pin: u64, stack: u64, program: Program, r: Remoted<D>,
                                   n: nat) {
    && Honest(cfg, drv)
    && forall k: nat :: k < n ==> NextWellFormed(cfg, drv, pin, program, RemoteRun(drv, stack, program, r, k).app)
  }

  // ---------- the invariant ----------

  /** What the guest has done for the call in progress. */
  ghost predicate InCall<D>(cfg: Config, program: Program, s: System<D>, d: Direct<D>)
    requires InProgress(s)
  {
    && program(d.mem, d.codes) == Some(s.gpc.call)
    && Matches(cfg, s.gpc.before, d) && s.guest == Prepare(cfg, s.gpc.call, s.gpc.before)
  }

  /** Guest, device and staging in each phase of the call that comes after `r`. */
  ghost predicate Values<D(!new)>(cfg: Config, drv: Driver<D>, program: Program, s: System<D>, r: Remoted<D>)
    requires Sized(s)
  {
    match PhaseOf(s)
    case Resting => Matches(cfg, s.guest, r.app) && s.host.dev == r.app.dev && s.staging == r.staging
    case Answered =>
      && InProgress(s) && InCall(cfg, program, s, r.app)
      && var next := RemoteStep(drv, s.host.stack, r, s.gpc.call);
         && s.host.dev == next.app.dev && s.staging == next.staging
         && Matches(cfg, Finish(s.gpc.call, s.guest, s.host.response, s.staging), next.app)
    case _ =>
      && InProgress(s) && InCall(cfg, program, s, r.app)
      && s.host.dev == r.app.dev && s.staging == Stage(s.gpc.call, r.app.mem, r.staging)
  }

  /** The invariant, with the remoted run at `r` after the calls that have returned. */
  ghost predicate InvAt<D(!new)>(cfg: Config, drv: Driver<D>, pin: u64, stack: u64, program: Program, s: System<D>,
                                 r: Remoted<D>) {
    && FrameInv(cfg, program, s)
    && s.host.clientPinStart == pin && s.host.stack == stack && HandlesAgree(cfg, drv, r.app)
    && |r.staging| == STAGING_SIZE
    && Values(cfg, drv, program, s, r)
  }

  ghost predicate Inv<D(!new)>(cfg: Config, drv: Driver<D>, pin: u64, stack: u64, program: Program, s: System<D>,
                               r0: Remoted<D>) {
    InvAt(cfg, drv, pin, stack, program, s, RemoteRun(drv, stack, program, r0, s.completed))
  }

  lemma IssueFits<D(!new)>(cfg: Config, drv: Driver<D>, pin: u64, program: Program, s: System<D>, r: Remoted<D>)
    requires Sized(s) && Values(cfg, drv, program, s, r) && HandlesAgree(cfg, drv, r.app)
    requires NextWellFormed(cfg, drv, pin, program, r.app)
    ensures RequestFits(program, s)
  {
    if Enabled(program, s, Issue) {
      RequestSendable(cfg, drv, pin, s.guest, r.app, program(r.app.mem, r.app.codes).value);
    }
  }

  lemma IssueKeeps<D(!new)>(cfg: Config, drv: Driver<D>, pin: u64, program: Program, s: System<D>, r: Remoted<D>)
    requires FrameInv(cfg, program, s) && Enabled(program, s, Issue)
    requires Values(cfg, drv, program, s, r) && NextWellFormed(cfg, drv, pin, program, r.app)
    ensures Values(cfg, drv, program, Next(cfg, drv, program, s, Issue), r)
  {
    WellFormedFits(cfg, drv, pin, r.app, program(r.app.mem, r.app.codes).value);
  }

  /** Sending, pulling, replying and receiving move bytes and counters only. */
  predicate Moved<D(==)>(s: System<D>, t: System<D>) {
    && InProgress(s) && InProgress(t) && s.gpc.call == t.gpc.call && s.gpc.before == t.gpc.before
    && t.guest == s.guest && t.host == s.host && t.staging == s.staging
    && (PhaseOf(t) == PhaseOf(s) || (PhaseOf(s) == Requested && PhaseOf(t) == Fetched))
  }

  lemma MovesOnly<D>(cfg: Config, drv: Driver<D>, program: Program, s: System<D>, l: Label)
    requires FrameInv(cfg, program, s) && Enabled(program, s, l)
    requires l.Send? || l.Pull? || l.Reply? || l.Receive?
    ensures Moved(s, Next(cfg, drv, program, s, l))
  {
    match l
    case Send(count) => assert Moved(s, Next(cfg, drv, program, s, l));
    case Pull => assert Moved(s, Next(cfg, drv, program, s, l));
    case Reply => assert Moved(s, Next(cfg, drv, program, s, l));
    case Receive(count) => assert Moved(s, Next(cfg, drv, program, s, l));
  }

  lemma MovesKeep<D(!new)>(cfg: Config, drv: Driver<D>, program: Program, s: System<D>, t: System<D>, r: Remoted<D>)
    requires Sized(s) && Sized(t) && Moved(s, t) && Values(cfg, drv, program, s, r)
    ensures Values(cfg, drv, program, t, r)
  {
  }

  lemma ServingMeansFetched<D>(cfg: Config, program: Program, s: System<D>)
    requires FrameInv(cfg, program, s) && s.hpc.Serving?
    ensures PhaseOf(s) == Fetched && InProgress(s) && Holds(s.buf, 0, Message(s.gpc.call, s.gpc.before))
  {
  }

  lemma ExecuteKeeps<D(!new)>(cfg: Config, drv: Driver<D>, program: Program, s: System<D>, r: Remoted<D>)
    requires Sized(s) && Enabled(program, s, Execute) && PhaseOf(s) == Fetched && InProgress(s)
    requires Holds(s.buf, 0, Message(s.gpc.call, s.gpc.before))
    requires Values(cfg, drv, program, s, r) && HandlesAgree(cfg, drv, r.app) && |r.staging| == STAGING_SIZE
    requires Honest(cfg, drv) && NextWellFormed(cfg, drv, s.host.clientPinStart, program, r.app)
    ensures var next := Next(cfg, drv, program, s, Execute);
            && Values(cfg, drv, program, next, r)
            && next.host.clientPinStart == s.host.clientPinStart && next.host.stack == s.host.stack
  {
    CallIsRemoteStep(cfg, drv, s.gpc.before, r, s.host, s.gpc.call, s.buf);
    ServedKeeps(cfg, drv, program, s, r, Serve(cfg, drv, s.host, s.staging, s.buf));
  }

  lemma ServedKeeps<D(!new)>(cfg: Config, drv: Driver<D>, program: Program, s: System<D>, r: Remoted<D>,
                             served: Served<D>)
    requires Sized(s) && InProgress(s) && InCall(cfg, program, s, r.app)
    requires |served.host.response| == RESPONSE_SIZE && |served.staging| == STAGING_SIZE
    requires served.host.stack == s.host.stack
    requires var next := RemoteStep(drv, s.host.stack, r, s.gpc.call);
             && served.host.dev == next.app.dev && served.staging == next.staging
             && Matches(cfg, Finish(s.gpc.call, s.guest, served.host.response, served.staging), next.app)
    ensures Values(cfg, drv, program, s.(host := served.host, staging := served.staging, hpc := Replying), r)
  {
  }

  lemma ReturnKeeps<D(!new)>(cfg: Config, drv: Driver<D>, program: Program, s: System<D>, r: Remoted<D>)
    requires FrameInv(cfg, program, s) && Enabled(program, s, Return)
    requires Values(cfg, drv, program, s, r)
    ensures program(r.app.mem, r.app.codes) == Some(s.gpc.call)
    ensures Values(cfg, drv, program, Next(cfg, drv, program, s, Return), RemoteStep(drv, s.host.stack, r, s.gpc.call))
  {
    WholeReplyIsHere(cfg, program, s);
  }

  /** A copy-in that `to_device` refuses ends the process and changes nothing else. */
  lemma AbortKeeps<D(!new)>(cfg: Config, drv: Driver<D>, program: Program, s: System<D>, r: Remoted<D>)
    requires Sized(s) && Enabled(program, s, Issue) && Aborts(program(s.guest.mem, s.guest.codes).value)
    requires Values(cfg, drv, program, s, r)
    ensures var next := Next(cfg, drv, program, s, Issue);
            next == s.(gpc := Aborted) && Values(cfg, drv, program, next, r) && Issued(next) == s.completed
  {
  }

  /** A call that has been issued, and did not end the process, is counted. */
  lemma IssueCounts<D>(cfg: Config, drv: Driver<D>, program: Program, s: System<D>)
    requires Sized(s) && Enabled(program, s, Issue) && !Aborts(program(s.guest.mem, s.guest.codes).value)
    ensures Issued(Next(cfg, drv, program, s, Issue)) == s.completed + 1
  {
  }

  lemma ExecuteCounts<D>(cfg: Config, drv: Driver<D>, program: Program, s: System<D>)
    requires Sized(s) && Enabled(program, s, Execute) && InProgress(s)
    ensures Issued(Next(cfg, drv, program, s, Execute)) == s.completed + 1
  {
  }

  /** The step leaves a call on its way only if that call is well formed. */
  predicate StepWellFormed<D>(cfg: Config, drv: Driver<D>, pin: u64, program: Program, s: System<D>, r: Remoted<D>,
                              l: Label)
    requires Sized(s)
  {
    Issued(Next(cfg, drv, program, s, l)) > s.completed ==> NextWellFormed(cfg, drv, pin, program, r.app)
  }

  lemma IssueStepKeeps<D(!new)>(cfg: Config, drv: Driver<D>, pin: u64, stack: u64, program: Program, s: System<D>,
                                r: Remoted<D>)
    requires InvAt(cfg, drv, pin, stack, program, s, r) && Enabled(program, s, Issue)
    requires StepWellFormed(cfg, drv, pin, program, s, r, Issue)
    ensures InvAt(cfg, drv, pin, stack, program, Next(cfg, drv, program, s, Issue), r)
  {
    hide Values, Framed, CallKept, WellFormed, HandlesAgree;
    if Aborts(program(s.guest.mem, s.guest.codes).value) {
      AbortKeeps(cfg, drv, program, s, r);
    } else {
      IssueCounts(cfg, drv, program, s);
      IssueFits(cfg, drv, pin, program, s, r);
      IssueKeeps(cfg, drv, pin, program, s, r);
    }
    FrameKeeps(cfg, drv, program, s, Issue);
  }

  lemma ExecuteStepKeeps<D(!new)>(cfg: Config, drv: Driver<D>, pin: u64, stack: u64, program: Program, s: System<D>,
                                  r: Remoted<D>)
    requires Honest(cfg, drv) && InvAt(cfg, drv, pin, stack, program, s, r) && Enabled(program, s, Execute)
    requires StepWellFormed(cfg, drv, pin, program, s, r, Execute)
    ensures InvAt(cfg, drv, pin, stack, program, Next(cfg, drv, program, s, Execute), r)
  {
    hide Values, Framed, CallKept, WellFormed, HandlesAgree, Honest, Next;
    ServingMeansFetched(cfg, program, s);
    ExecuteCounts(cfg, drv, program, s);
    ExecuteKeeps(cfg, drv, program, s, r);
    FrameKeeps(cfg, drv, program, s, Execute);
  }

  lemma MoveStepKeeps<D(!new)>(cfg: Config, drv: Driver<D>, pin: u64, stack: u64, program: Program, s: System<D>,
                               r: Remoted<D>, l: Label)
    requires InvAt(cfg, drv, pin, stack, program, s, r) && Enabled(program, s, l)
    requires l.Send? || l.Pull? || l.Reply? || l.Receive?
    ensures InvAt(cfg, drv, pin, stack, program, Next(cfg, drv, program, s, l), r)
  {
    hide Values, Framed, CallKept, HandlesAgree, Next;
    MovesOnly(cfg, drv, program, s, l);
    MovesKeep(cfg, drv, program, s, Next(cfg, drv, program, s, l), r);
    FrameKeeps(cfg, drv, program, s, l);
  }

  /** A step within a call keeps the invariant at the same point of the remoted run. */
  lemma WithinCallKeeps<D(!new)>(cfg: Config, drv: Driver<D>, pin: u64, stack: u64, program: Program, s: System<D>,
                                 r: Remoted<D>, l: Label)
    requires Honest(cfg, drv) && InvAt(cfg, drv, pin, stack, program, s, r) && Enabled(program, s, l) && l != Return
    requires StepWellFormed(cfg, drv, pin, program, s, r, l)
    ensures InvAt(cfg, drv, pin, stack, program, Next(cfg, drv, program, s, l), r)
  {
    hide Values, Framed, CallKept, HandlesAgree, Honest, Next, Enabled;
    if l == Issue {
      IssueStepKeeps(cfg, drv, pin, stack, program, s, r);
    } else if l == Execute {
      ExecuteStepKeeps(cfg, drv, pin, stack, program, s, r);
    } else {
      MoveStepKeeps(cfg, drv, pin, stack, program, s, r, l);
    }
  }

  /** The return of a call takes it to the next point. */
  lemma AcrossCallsKeeps<D(!new)>(cfg: Config, drv: Driver<D>, pin: u64, stack: u64, program: Program, s: System<D>,
                                  r: Remoted<D>)
    requires Honest(cfg, drv) && NextWellFormed(cfg, drv, pin, program, r.app)
    requires InvAt(cfg, drv, pin, stack, program, s, r) && Enabled(program, s, Return)
    ensures program(r.app.mem, r.app.codes) == Some(s.gpc.call)
    ensures InvAt(cfg, drv, pin, stack, program, Next(cfg, drv, program, s, Return),
                  RemoteStep(drv, stack, r, s.gpc.call))
  {
    FrameKeeps(cfg, drv, program, s, Return);
    ReturnKeeps(cfg, drv, program, s, r);
    RemoteHandlesKeepAgreeing(cfg, drv, pin, stack, r, s.gpc.call);
  }

  /** Only a return counts a call as completed. */
  lemma CompletedAfter<D>(cfg: Config, drv: Driver<D>, program: Program, s: System<D>, l: Label)
    requires Sized(s) && Enabled(program, s, l)
    ensures Next(cfg, drv, program, s, l).completed == s.completed + if l == Return then 1 else 0
  {
  }

  /** Call number `n` of a remoted run is `c`. */
  predicate Calls<D>(drv: Driver<D>, stack: u64, program: Program, r0: Remoted<D>, n: nat, c: Call) {
    var d := RemoteRun(drv, stack, program, r0, n).app;
    program(d.mem, d.codes) == Some(c)
  }

  lemma CallStep<D>(drv: Driver<D>, stack: u64, program: Program, r0: Remoted<D>, n: nat, c: Call)
    requires Calls(drv, stack, program, r0, n, c)
    ensures RemoteRun(drv, stack, program, r0, n + 1)
         == RemoteStep(drv, stack, RemoteRun(drv, stack, program, r0, n), c)
  {
  }

  lemma InvFrom<D(!new)>(cfg: Config, drv: Driver<D>, pin: u64, stack: u64, program: Program, t: System<D>,
                         r0: Remoted<D>, r: Remoted<D>)
    requires r == RemoteRun(drv, stack, program, r0, t.completed) && InvAt(cfg, drv, pin, stack, program, t, r)
    ensures Inv(cfg, drv, pin, stack, program, t, r0)
  {
  }

  /** The setting is about fewer calls when asked of fewer. */
  lemma SettingOf<D(!new)>(cfg: Config, drv: Driver<D>, pin: u64, stack: u64, program: Program, r0: Remoted<D>,
                           n: nat, m: nat)
    requires Setting(cfg, drv, pin, stack, program, r0, n) && m <= n
    ensures Setting(cfg, drv, pin, stack, program, r0, m) && Honest(cfg, drv)
    ensures m < n ==> NextWellFormed(cfg, drv, pin, program, RemoteRun(drv, stack, program, r0, m).app)
  {
  }

  lemma WithinCallStep<D(!new)>(cfg: Config, drv: Driver<D>, pin: u64, stack: u64, program: Program, s: System<D>,
                                r0: Remoted<D>, l: Label)
    requires Inv(cfg, drv, pin, stack, program, s, r0) && Enabled(program, s, l) && l != Return
    requires Setting(cfg, drv, pin, stack, program, r0, Issued(Next(cfg, drv, program, s, l)))
    ensures Inv(cfg, drv, pin, stack, program, Next(cfg, drv, program, s, l), r0)
  {
    hide Next, Framed, CallKept, Values, Honest, HandlesAgree, WellFormed, RemoteStep, RemoteRun, Setting;
    var r := RemoteRun(drv, stack, program, r0, s.completed);
    CompletedAfter(cfg, drv, program, s, l);
    SettingOf(cfg, drv, pin, stack, program, r0, Issued(Next(cfg, drv, program, s, l)), s.completed);
    WithinCallKeeps(cfg, drv, pin, stack, program, s, r, l);
    InvFrom(cfg, drv, pin, stack, program, Next(cfg, drv, program, s, l), r0, r);
  }

  lemma AcrossCallsStep<D(!new)>(cfg: Config, drv: Driver<D>, pin: u64, stack: u64, program: Program, s: System<D>,
                                 r0: Remoted<D>)
    requires Inv(cfg, drv, pin, stack, program, s, r0) && Enabled(program, s, Return)
    requires Setting(cfg, drv, pin, stack, program, r0, Issued(Next(cfg, drv, program, s, Return)))
    ensures Inv(cfg, drv, pin, stack, program, Next(cfg, drv, program, s, Return), r0)
  {
    hide Next, Framed, CallKept, Values, Honest, HandlesAgree, WellFormed, RemoteStep, RemoteRun, Setting;
    var r := RemoteRun(drv, stack, program, r0, s.completed);
    CompletedAfter(cfg, drv, program, s, Return);
    SettingOf(cfg, drv, pin, stack, program, r0, Issued(Next(cfg, drv, program, s, Return)), s.completed);
    AcrossCallsKeeps(cfg, drv, pin, stack, program, s, r);
    CallStep(drv, stack, program, r0, s.completed, s.gpc.call);
    InvFrom(cfg, drv, pin, stack, program, Next(cfg, drv, program, s, Return), r0,
            RemoteStep(drv, stack, r, s.gpc.call));
  }

  lemma StepKeeps<D(!new)>(cfg: Config, drv: Driver<D>, pin: u64, stack: u64, program: Program, s: System<D>,
                           r0: Remoted<D>, l: Label)
    requires Inv(cfg, drv, pin, stack, program, s, r0) && Enabled(program, s, l)
    requires Setting(cfg, drv, pin, stack, program, r0, Issued(Next(cfg, drv, program, s, l)))
    ensures Inv(cfg, drv, pin, stack, program, Next(cfg, drv, program, s, l), r0)
  {
    hide Next, Enabled, InvAt, Setting, Issued;
    if l == Return {
      AcrossCallsStep(cfg, drv, pin, stack, program, s, r0);
    } else {
      WithinCallStep(cfg, drv, pin, stack, program, s, r0, l);
    }
  }

  lemma {:induction false} InvAlways<D(!new)>(cfg: Config, drv: Driver<D>, pin: u64, program: Program,
                                              s: System<D>, r0: Remoted<D>, schedule: seq<Label>)
    requires Initial(cfg, drv, pin, s, r0)
    requires Setting(cfg, drv, pin, s.host.stack, program, r0, Issued(Play(cfg, drv, program, s, schedule)))
    ensures Inv(cfg, drv, pin, s.host.stack, program, Play(cfg, drv, program, s, schedule), r0)
    decreases |schedule|
  {
    if schedule != [] {
      hide Next, Issued, Setting, Values, Framed, CallKept, Honest, HandlesAgree;
      var earlier, l := schedule[..|schedule| - 1], schedule[|schedule| - 1];
      var before := Play(cfg, drv, program, s, earlier);
      if Enabled(program, before, l) {
        IssuedAfter(cfg, drv, program, before, l);
      } else {
        StandsStill(cfg, drv, program, before, l);
      }
      SettingOf(cfg, drv, pin, s.host.stack, program, r0, Issued(Next(cfg, drv, program, before, l)), Issued(before));
      InvAlways(cfg, drv, pin, program, s, r0, earlier);
      if Enabled(program, before, l) {
        StepKeeps(cfg, drv, pin, s.host.stack, program, before, r0, l);
      }
    }
  }

  /** Every handle of a run stays tied to its kernel. */
  lemma {:induction false} RunKeepsHandles<D(!new)>(cfg: Config, drv: Driver<D>, pin: u64, stack: u64,
                                                    program: Program, r0: Remoted<D>, n: nat)
    requires Setting(cfg, drv, pin, stack, program, r0, n) && HandlesAgree(cfg, drv, r0.app)
    ensures HandlesAgree(cfg, drv, RemoteRun(drv, stack, program, r0, n).app)
  {
    if n > 0 {
      RunKeepsHandles(cfg, drv, pin, stack, program, r0, n - 1);
      var before := RemoteRun(drv, stack, program, r0, n - 1);
      assert NextWellFormed(cfg, drv, pin, program, before.app);
      match program(before.app.mem, before.app.codes)
      case None =>
      case Some(c) => RemoteHandlesKeepAgreeing(cfg, drv, pin, stack, before, c);
    }
  }

  // ---------- what the stack is for ----------

  /** What the application can see: its memory, its results and the names behind its handles. */
  predicate Shows(g: Guest, mem: seq<byte>, codes: seq<u32>, handles: map<u64, string>) {
    g.mem == mem && g.codes == codes && g.hashfunc == handles
  }

  /**
   * The application sees `app`, the run after the calls that have returned, and so does the device between calls;
   * during a call the device may be one call further.
   */
  predicate ShowsRun<D(==)>(now: System<D>, app: Direct<D>, next: Direct<D>) {
    && Shows(now.guest, app.mem, app.codes, app.handles)
    && (now.gpc.Idle? ==> now.host.dev == app.dev)
    && (now.host.dev == app.dev || now.host.dev == next.dev)
  }

  /** Issuing a call changes nothing that the application can see. */
  lemma PrepareIsInvisible<D>(cfg: Config, drv: Driver<D>, pin: u64, g: Guest, d: Direct<D>, c: Call)
    requires Matches(cfg, g, d) && WellFormed(cfg, drv, pin, d, c)
    ensures Shows(Prepare(cfg, c, g), d.mem, d.codes, d.handles)
  {
    if c.LaunchKernel? {
      assert g.hashfunc[c.f := g.hashfunc[c.f]] == g.hashfunc;
    }
  }

  /** In any phase, what the guest shows is the remoted run's, and so is the device up to the call in progress. */
  lemma GuestShowsRun<D(!new)>(cfg: Config, drv: Driver<D>, pin: u64, stack: u64, program: Program,
                               now: System<D>, r0: Remoted<D>)
    requires Setting(cfg, drv, pin, stack, program, r0, Issued(now)) && Inv(cfg, drv, pin, stack, program, now, r0)
    ensures ShowsRun(now, RemoteRun(drv, stack, program, r0, now.completed).app,
                          RemoteRun(drv, stack, program, r0, now.completed + 1).app)
  {
    var r := RemoteRun(drv, stack, program, r0, now.completed);
    if InProgress(now) {
      assert NextWellFormed(cfg, drv, pin, program, r.app);
      PrepareIsInvisible(cfg, drv, pin, now.gpc.before, r.app, now.gpc.call);
    }
  }

  /**
   * After any interleaving, the calls that have returned are those of the remoted run, failing calls and their
   * leftovers included.
   */
  lemma {:induction false} StackIsRemoteRun<D(!new)>(cfg: Config, drv: Driver<D>, pin: u64, program: Program,
                                                     s: System<D>, r0: Remoted<D>, schedule: seq<Label>)
    requires Initial(cfg, drv, pin, s, r0)
    requires Setting(cfg, drv, pin, s.host.stack, program, r0, Issued(Play(cfg, drv, program, s, schedule)))
    ensures var now := Play(cfg, drv, program, s, schedule);
            ShowsRun(now, RemoteRun(drv, s.host.stack, program, r0, now.completed).app,
                          RemoteRun(drv, s.host.stack, program, r0, now.completed + 1).app)
  {
    hide Play, RemoteRun, Setting, Issued, Inv, ShowsRun, Between;
    InvAlways(cfg, drv, pin, program, s, r0, schedule);
    GuestShowsRun(cfg, drv, pin, s.host.stack, program, Play(cfg, drv, program, s, schedule), r0);
  }

  /**
   * Remoting refines direct execution. After any interleaving, if every call that has returned was transparent
   * (it delivered, or found its leftovers in place), the application's memory, results and handles are those of
   * the direct run of the same calls in the same order, and between calls so is the device.
   */
  lemma {:induction false} RemotingRefinesDirect<D(!new)>(cfg: Config, drv: Driver<D>, pin: u64, program: Program,
                                                          s: System<D>, r0: Remoted<D>, schedule: seq<Label>)
    requires Initial(cfg, drv, pin, s, r0)
    requires Setting(cfg, drv, pin, s.host.stack, program, r0, Issued(Play(cfg, drv, program, s, schedule)))
    requires TransparentBelow(drv, s.host.stack, program, r0.app, r0.staging,
                              Play(cfg, drv, program, s, schedule).completed)
    ensures var now := Play(cfg, drv, program, s, schedule);
            ShowsRun(now, DirectRun(drv, program, r0.app, now.completed),
                          DirectRun(drv, program, r0.app, now.completed + 1))
  {
    hide Play, RemoteRun, DirectRun, Honest, Setting, Between, ShowsRun, TransparentBelow, StagingRun;
    var stack, n := s.host.stack, Play(cfg, drv, program, s, schedule).completed;
    assert r0 == Remoted(r0.app, r0.staging);
    StackIsRemoteRun(cfg, drv, pin, program, s, r0, schedule);
    TransparentRun(drv, stack, program, r0.app, r0.staging, n);
    NextDeviceIsDirect(drv, stack, program, r0, n);
    SameRunShown(Play(cfg, drv, program, s, schedule), RemoteRun(drv, stack, program, r0, n).app,
                 RemoteRun(drv, stack, program, r0, n + 1).app, DirectRun(drv, program, r0.app, n + 1));
  }

  /** Of the next call only the device matters. */
  lemma SameRunShown<D>(now: System<D>, app: Direct<D>, next: Direct<D>, other: Direct<D>)
    requires ShowsRun(now, app, next) && next.dev == other.dev
    ensures ShowsRun(now, app, other)
  {
  }

  /** The device never depends on what a hook writes into the application's memory after the call. */
  lemma NextDeviceIsDirect<D>(drv: Driver<D>, stack: u64, program: Program, r0: Remoted<D>, n: nat)
    requires RemoteRun(drv, stack, program, r0, n).app == DirectRun(drv, program, r0.app, n)
    ensures RemoteRun(drv, stack, program, r0, n + 1).app.dev == DirectRun(drv, program, r0.app, n + 1).dev
  {
  }

  /**
   * And exactly then: when all calls but the last were transparent, the application sees the direct run's memory
   * if and only if the last one was too.
   */
  lemma {:induction false} FirstLeftoverShows<D(!new)>(cfg: Config, drv: Driver<D>, pin: u64, program: Program,
                                                       s: System<D>, r0: Remoted<D>, schedule: seq<Label>, n: nat)
    requires Initial(cfg, drv, pin, s, r0)
    requires Setting(cfg, drv, pin, s.host.stack, program, r0, Issued(Play(cfg, drv, program, s, schedule)))
    requires Play(cfg, drv, program, s, schedule).completed == n + 1
    requires TransparentBelow(drv, s.host.stack, program, r0.app, r0.staging, n)
    ensures Play(cfg, drv, program, s, schedule).guest.mem == DirectRun(drv, program, r0.app, n + 1).mem
       <==> TransparentAt(drv, s.host.stack, program, r0.app, r0.staging, n)
  {
    hide Play, RemoteRun, DirectRun, Honest, Setting, Issued, Between, TransparentBelow, TransparentAt, StagingRun,
         FitsAt;
    var stack := s.host.stack;
    assert r0 == Remoted(r0.app, r0.staging);
    StackIsRemoteRun(cfg, drv, pin, program, s, r0, schedule);
    ReturnedWasIssued(Play(cfg, drv, program, s, schedule));
    SettingOf(cfg, drv, pin, stack, program, r0, Issued(Play(cfg, drv, program, s, schedule)), n);
    TransparentRun(drv, stack, program, r0.app, r0.staging, n);
    NextFits(cfg, drv, pin, program, r0.app, n);
    StagingSized(cfg, drv, pin, s, r0);
    LastCallDecides(drv, stack, program, r0.app, r0.staging, n);
  }

  lemma ReturnedWasIssued<D>(now: System<D>)
    ensures now.completed <= Issued(now)
  {
  }

  lemma NextFits<D>(cfg: Config, drv: Driver<D>, pin: u64, program: Program, d: Direct<D>, n: nat)
    requires NextWellFormed(cfg, drv, pin, program, DirectRun(drv, program, d, n))
    ensures FitsAt(drv, program, d, n)
  {
    hide DirectRun, WellFormed, Fits;
    var s := DirectRun(drv, program, d, n);
    match program(s.mem, s.codes)
    case None =>
    case Some(c) => WellFormedFits(cfg, drv, pin, s, c);
  }

  lemma StagingSized<D(!new)>(cfg: Config, drv: Driver<D>, pin: u64, s: System<D>, r0: Remoted<D>)
    requires Initial(cfg, drv, pin, s, r0)
    ensures |r0.staging| == STAGING_SIZE
  {
  }

  // ---------- staging and copies ----------

  /** When a copy-out is about to return, staging holds what the driver copied out for it. */
  lemma {:induction false} CopyOutStaged<D(!new)>(cfg: Config, drv: Driver<D>, pin: u64, program: Program,
                                                  s: System<D>, r0: Remoted<D>, schedule: seq<Label>)
    requires Initial(cfg, drv, pin, s, r0)
    requires Setting(cfg, drv, pin, s.host.stack, program, r0, Issued(Play(cfg, drv, program, s, schedule)))
    ensures var now := Play(cfg, drv, program, s, schedule);
            var r := RemoteRun(drv, s.host.stack, program, r0, now.completed);
            Enabled(program, now, Return) && now.gpc.call.CopyOut? ==>
              var out := drv.run(r.app.dev, DtoH(now.gpc.call.src, now.gpc.call.count)).out;
              out.Some? ==> Slice(now.staging, 0, now.gpc.call.count) == out.value
  {
    InvAlways(cfg, drv, pin, program, s, r0, schedule);
    var now := Play(cfg, drv, program, s, schedule);
    if Enabled(program, now, Return) && now.gpc.call.CopyOut? {
      var r := RemoteRun(drv, s.host.stack, program, r0, now.completed);
      WholeReplyIsHere(cfg, program, now);
      assert NextWellFormed(cfg, drv, pin, program, r.app);
      var out := drv.run(r.app.dev, DtoH(now.gpc.call.src, now.gpc.call.count)).out;
      if out.Some? {
        assert Slice(Write(r.staging, 0, out), 0, now.gpc.call.count) == out.value;
      }
    }
  }

  const SUCCESS: u32 := 0

  /** Where a copy-in succeeds, a copy-out of the same range that succeeds gives back what was copied in. */
  ghost predicate Remembers<D(!new)>(drv: Driver<D>) {
    forall dev, dst, data: seq<byte> :: |data| < TWO_TO_THE_64 && drv.run(dev, HtoD(dst, data)).code == SUCCESS ==>
      var back := drv.run(drv.run(dev, HtoD(dst, data)).state, DtoH(dst, |data|));
      back.code == SUCCESS ==> back.out == Some(data)
  }

  lemma CopyRoundTrip<D(!new)>(cfg: Config, drv: Driver<D>, pin: u64, stack: u64, r: Remoted<D>, into: Call, back: Call)
    requires Remembers(drv) && into.CopyIn? && back.CopyOut? && back.src == into.dst && back.count == into.count
    requires WellFormed(cfg, drv, pin, r.app, into)
    requires WellFormed(cfg, drv, pin, RemoteStep(drv, stack, r, into).app, back)
    ensures var mid := RemoteStep(drv, stack, r, into);
            var end := RemoteStep(drv, stack, mid, back);
            && |end.app.codes| == |r.app.codes| + 2
            && (end.app.codes[|r.app.codes|] == SUCCESS && end.app.codes[|r.app.codes| + 1] == SUCCESS ==>
                  Slice(end.app.mem, back.dstHost, back.count) == Slice(r.app.mem, into.srcHost, into.count))
  {
    var data := Slice(r.app.mem, into.srcHost, into.count);
    var first := drv.run(r.app.dev, HtoD(into.dst, data));
    var second := drv.run(first.state, DtoH(into.dst, |data|));
    assert |data| == into.count;
    if first.code == SUCCESS && second.code == SUCCESS {
      assert second.out == Some(data);
    }
  }

  /**
   * Copying in and then out again brings the same bytes back through the whole stack, if the application sees
   * both copies succeed.
   */
  lemma {:induction false} CopyInThenOutIsIdentity<D(!new)>(cfg: Config, drv: Driver<D>, pin: u64, program: Program,
                                                            s: System<D>, r0: Remoted<D>, schedule: seq<Label>,
                                                            n: nat, into: Call, back: Call)
    requires Initial(cfg, drv, pin, s, r0)
    requires Setting(cfg, drv, pin, s.host.stack, program, r0, Issued(Play(cfg, drv, program, s, schedule)))
    requires Remembers(drv) && Play(cfg, drv, program, s, schedule).completed == n + 2
    requires into.CopyIn? && back.CopyOut? && back.src == into.dst && back.count == into.count
    requires Calls(drv, s.host.stack, program, r0, n, into) && Calls(drv, s.host.stack, program, r0, n + 1, back)
    ensures var now := Play(cfg, drv, program, s, schedule);
            var d := RemoteRun(drv, s.host.stack, program, r0, n).app;
            && |now.guest.codes| == |d.codes| + 2
            && (now.guest.codes[|d.codes|] == SUCCESS && now.guest.codes[|d.codes| + 1] == SUCCESS ==>
                  Slice(now.guest.mem, back.dstHost, back.count) == Slice(d.mem, into.srcHost, into.count))
  {
    hide Play, RemoteRun, RemoteStep, Honest, Setting, Issued, Between, Remembers, WellFormed;
    var stack, issued := s.host.stack, Issued(Play(cfg, drv, program, s, schedule));
    StackIsRemoteRun(cfg, drv, pin, program, s, r0, schedule);
    ReturnedWasIssued(Play(cfg, drv, program, s, schedule));
    SettingOf(cfg, drv, pin, stack, program, r0, issued, n);
    SettingOf(cfg, drv, pin, stack, program, r0, issued, n + 1);
    var r := RemoteRun(drv, stack, program, r0, n);
    CallStep(drv, stack, program, r0, n, into);
    CallStep(drv, stack, program, r0, n + 1, back);
    CopyRoundTrip(cfg, drv, pin, stack, r, into, back);
  }
}
