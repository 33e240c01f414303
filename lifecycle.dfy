/**
 * The reload lifecycle of watch.js as a sequential state machine.
 *
 * The module-level `building` flag and `tailProc` handle, plus the point at which `exec` is
 * suspended (awaiting `build`, awaiting `upload`, or not running), form the `State`. Each
 * callback the source reacts to is an `Event`: a change reported by the watcher (and the
 * initial `exec()` call), the exit of the compile or upload child, and SIGINT. Everything
 * the source does to the outside world is an `Effect`, and `Step` gives, for one event, the
 * new state and the effects in the order the source issues them.
 */
module Lifecycle {
  import opened Wrappers
  import opened ArduinoCli
  import Screen

  /** The baud rate `createScreen` opens the serial device at. */
  const BAUD_RATE: nat := 9600

  /** A spawned `tail -f` child; every spawn yields a new one. */
  type TailId = nat

  datatype Effect =
    | MakeScratchDir                  // mkdir -p $TMPDIR
    | Watch(path: string)             // fsevents.watch(PATH, ...)
    | ListSessions(output: Option<string>)  // screen -ls, and what it printed (None: it failed)
    | QuitSession(id: string)         // screen -XS <id> quit
    | Interrupt(tail: TailId)         // tailProc.kill('SIGINT')
    | Compile(args: seq<string>)      // spawn('arduino-cli', args) in build
    | Upload(args: seq<string>)       // spawn('arduino-cli', args) in upload
    | ClearLog                        // rm -rf $LOGFILE
    | TouchLog                        // touch $LOGFILE
    | StartCapture(socket: string, baud: nat)  // screen -L -dmS arduino-logs <socket> <baud>
    | FlushLog                        // screen -r arduino-logs -p0 -X logfile flush 0
    | StartTail(tail: TailId)         // spawn('tail', ['-f', LOGFILE])
    | Unwatch                         // stop()
    | RemoveScratchDir                // rm -rf $TMPDIR
    | Exit(status: nat)               // process.exit

  /**
   * The callbacks the lifecycle reacts to. `listing` is what `screen -ls` prints during the
   * reaction (`None` when that command fails); `code` is the child's exit code.
   */
  datatype Event =
    | Trigger(listing: Option<string>)
    | CompileExited(code: ExitCode)
    | UploadExited(code: ExitCode)
    | Sigint(listing: Option<string>)

  /** Where `exec` stands: not running, awaiting `build`, awaiting `upload`; or the process has exited. */
  datatype Phase = Idle | Compiling | Uploading | Exited(status: nat)

  datatype State = State(building: bool, tailProc: Option<TailId>, phase: Phase, nextTail: TailId)

  /** The result of one event: the new state and the effects issued, in order. */
  datatype Reaction = Reaction(next: State, effects: seq<Effect>)

  /** The module state when watch.js starts: not building, no tail. */
  const INIT: State := State(false, None, Idle, 0)

  /** `building` is set exactly while `exec` is suspended in a build or an upload. */
  predicate Valid(s: State) {
    (s.phase == Idle ==> !s.building)
    && (s.phase == Compiling || s.phase == Uploading ==> s.building)
    && (s.tailProc.Some? ==> s.tailProc.value < s.nextTail)
  }

  /** `killScreen`: list the sessions, then quit the one the listing names, if any. */
  function KillScreenEffects(listing: Option<string>): seq<Effect> {
    KillEffects(listing, Screen.QuitTarget(listing))
  }

  /** The effects of `killScreen` once `listing` has named `target` (or nothing). */
  function KillEffects(listing: Option<string>, target: Option<string>): seq<Effect> {
    if target.Some? then [ListSessions(listing), QuitSession(target.value)] else [ListSessions(listing)]
  }

  /** `if (tailProc) tailProc.kill('SIGINT')`. */
  function InterruptEffects(tailProc: Option<TailId>): seq<Effect> {
    if tailProc.Some? then [Interrupt(tailProc.value)] else []
  }

  /** `createScreen(socket)`, whose `tail -f` child is `tail`. */
  function CreateScreenEffects(socket: string, tail: TailId): seq<Effect> {
    [ClearLog, TouchLog, StartCapture(socket, BAUD_RATE), FlushLog, StartTail(tail)]
  }

  /** A rejected `build` or `upload` promise reaches the `unhandledRejection` handler, which exits with 1. */
  function Rejected(s: State): Reaction {
    Reaction(s.(phase := Exited(1)), [Exit(1)])
  }

  /**
   * `exec()`: dropped while `building`; otherwise set `building`, kill the screen session,
   * interrupt the held tail and spawn the compile, then await it.
   */
  function OnTrigger(path: string, s: State, listing: Option<string>): Reaction {
    if s.building then Reaction(s, [])
    else Reaction(
      s.(building := true, phase := Compiling),
      KillScreenEffects(listing) + InterruptEffects(s.tailProc) + [Compile(CompileArgs(path))])
  }

  /** The compile child exits: `build` resolves and `upload` is spawned, or it rejects. */
  function OnCompileExit(path: string, s: State, code: ExitCode): Reaction {
    if Resolves(code) then Reaction(s.(phase := Uploading), [Upload(UploadArgs(path, SOCKET))])
    else Rejected(s)
  }

  /** The upload child exits: `upload` resolves, `building` is cleared and a new screen is created, or it rejects. */
  function OnUploadExit(s: State, code: ExitCode): Reaction {
    if Resolves(code) then
      Reaction(
        s.(building := false, tailProc := Some(s.nextTail), phase := Idle, nextTail := s.nextTail + 1),
        CreateScreenEffects(SOCKET, s.nextTail))
    else Rejected(s)
  }

  /** The SIGINT handler: stop watching, kill the screen, interrupt the tail, remove the scratch directory, exit. */
  function OnSigint(s: State, listing: Option<string>): Reaction {
    Reaction(
      s.(phase := Exited(0)),
      [Unwatch] + KillScreenEffects(listing) + InterruptEffects(s.tailProc) + [RemoveScratchDir, Exit(0)])
  }

  /**
   * One event. A process that has exited reacts to nothing, and an exit event only means
   * something while `exec` awaits that child; otherwise the event changes nothing.
   */
  function Step(path: string, s: State, e: Event): Reaction {
    if s.phase.Exited? then Reaction(s, [])
    else match e {
      case Trigger(listing) => OnTrigger(path, s, listing)
      case CompileExited(code) =>
        if s.phase == Compiling then OnCompileExit(path, s, code) else Reaction(s, [])
      case UploadExited(code) =>
        if s.phase == Uploading then OnUploadExit(s, code) else Reaction(s, [])
      case Sigint(listing) => OnSigint(s, listing)
    }
  }

  /** A sequence of events, one after the other; the effects are concatenated in order. */
  function Run(path: string, s: State, events: seq<Event>): Reaction
    decreases |events|
  {
    if events == [] then Reaction(s, [])
    else
      var first := Step(path, s, events[0]);
      var rest := Run(path, first.next, events[1..]);
      Reaction(rest.next, first.effects + rest.effects)
  }

  // ---------------------------------------------------------------------------------------
  // One event at a time

  lemma StepPreservesValid(path: string, s: State, e: Event)
    requires Valid(s)
    ensures Valid(Step(path, s, e).next)
  {
  }

  /** `if (building) return`: a trigger during a cycle is dropped without any effect. */
  lemma BusyTriggerIgnored(path: string, s: State, listing: Option<string>)
    requires s.building
    ensures Step(path, s, Trigger(listing)) == Reaction(s, [])
  {
  }

  /**
   * An accepted trigger sets `building` and changes nothing else in the state. Its effects are
   * exactly `killScreen`, the interrupt of the held tail and the compile: the sessions are
   * listed first, the listed session is quit, the held tail is interrupted after that, and the
   * compile is spawned last.
   */
  lemma AcceptedTriggerOrder(path: string, s: State, listing: Option<string>)
    requires Valid(s) && !s.building && !s.phase.Exited?
    ensures Step(path, s, Trigger(listing)).next == s.(building := true, phase := Compiling)
    ensures Step(path, s, Trigger(listing)).effects
      == KillScreenEffects(listing) + InterruptEffects(s.tailProc) + [Compile(CompileArgs(path))]
    ensures var fx := Step(path, s, Trigger(listing)).effects;
      |fx| >= 2 && fx[0] == ListSessions(listing) && fx[|fx| - 1] == Compile(CompileArgs(path))
    ensures var fx := Step(path, s, Trigger(listing)).effects;
      forall id :: QuitSession(id) in fx <==> Screen.QuitTarget(listing) == Some(id)
    ensures var fx := Step(path, s, Trigger(listing)).effects;
      forall h: TailId :: Interrupt(h) in fx <==> s.tailProc == Some(h)
    ensures var fx := Step(path, s, Trigger(listing)).effects;
      forall i, j :: 0 <= i < j < |fx| && fx[i].Interrupt? ==> !fx[j].QuitSession?
  {
    var target := Screen.QuitTarget(listing);
    var compile := Compile(CompileArgs(path));
    assert Step(path, s, Trigger(listing)).effects
      == KillEffects(listing, target) + InterruptEffects(s.tailProc) + [compile];
    TeardownThenCompile(listing, target, s.tailProc, compile);
  }

  /** The effects of an accepted trigger, once the quit target and the held tail are known. */
  lemma TeardownThenCompile(listing: Option<string>, target: Option<string>, tailProc: Option<TailId>, compile: Effect)
    requires compile.Compile?
    ensures var fx := KillEffects(listing, target) + InterruptEffects(tailProc) + [compile];
      |fx| >= 2 && fx[0] == ListSessions(listing) && fx[|fx| - 1] == compile
    ensures var fx := KillEffects(listing, target) + InterruptEffects(tailProc) + [compile];
      forall id :: QuitSession(id) in fx <==> target == Some(id)
    ensures var fx := KillEffects(listing, target) + InterruptEffects(tailProc) + [compile];
      forall h: TailId :: Interrupt(h) in fx <==> tailProc == Some(h)
    ensures var fx := KillEffects(listing, target) + InterruptEffects(tailProc) + [compile];
      forall i, j :: 0 <= i < j < |fx| && fx[i].Interrupt? ==> !fx[j].QuitSession?
  {
    var fx := KillEffects(listing, target) + InterruptEffects(tailProc) + [compile];
    match (target, tailProc)
    case (Some(id), Some(h)) =>
      assert fx == [ListSessions(listing), QuitSession(id), Interrupt(h), compile];
    case (Some(id), None) =>
      assert fx == [ListSessions(listing), QuitSession(id), compile];
    case (None, Some(h)) =>
      assert fx == [ListSessions(listing), Interrupt(h), compile];
    case (None, None) =>
      assert fx == [ListSessions(listing), compile];
  }

  /** `await build(PATH); await upload(...)`: the upload is spawned exactly when the compile exits with 0. */
  lemma UploadOnlyAfterCleanCompile(path: string, s: State, e: Event)
    requires Valid(s)
    ensures (exists args :: Upload(args) in Step(path, s, e).effects)
      <==> s.phase == Compiling && e.CompileExited? && Resolves(e.code)
    ensures s.phase == Compiling && e.CompileExited? && Resolves(e.code)
      ==> Step(path, s, e).effects == [Upload(UploadArgs(path, SOCKET))]
  {
    var fx := Step(path, s, e).effects;
    if s.phase == Compiling && e.CompileExited? && Resolves(e.code) {
      assert Upload(UploadArgs(path, SOCKET)) in fx;
    } else if !s.phase.Exited? && e.Trigger? && !s.building {
      KillEffectsAreQuiet(e.listing, Screen.QuitTarget(e.listing));
      assert fx == KillEffects(e.listing, Screen.QuitTarget(e.listing)) + InterruptEffects(s.tailProc) + [Compile(CompileArgs(path))];
    } else if !s.phase.Exited? && e.Sigint? {
      KillEffectsAreQuiet(e.listing, Screen.QuitTarget(e.listing));
      assert fx == [Unwatch] + KillEffects(e.listing, Screen.QuitTarget(e.listing)) + InterruptEffects(s.tailProc) + [RemoveScratchDir, Exit(0)];
    }
  }

  /**
   * A compile or upload that exits with anything but 0 rejects: the process exits with 1,
   * `building` stays set, and nothing else happens.
   */
  lemma FailedStepIsFatal(path: string, s: State, e: Event)
    requires Valid(s)
    requires (s.phase == Compiling && e.CompileExited? && !Resolves(e.code))
      || (s.phase == Uploading && e.UploadExited? && !Resolves(e.code))
    ensures Step(path, s, e).effects == [Exit(1)]
    ensures Step(path, s, e).next.phase == Exited(1) && Step(path, s, e).next.building
    ensures Step(path, s, e).next.tailProc == s.tailProc
  {
  }

  /**
   * `building` is cleared only when the upload exits with 0, and in the same reaction, after
   * it, the new monitor is created and its tail becomes the held one.
   */
  lemma ClearedOnlyByCleanUpload(path: string, s: State, e: Event)
    requires Valid(s) && s.building
    ensures !Step(path, s, e).next.building
      <==> s.phase == Uploading && e.UploadExited? && Resolves(e.code)
    ensures !Step(path, s, e).next.building ==>
      Step(path, s, e).effects == CreateScreenEffects(SOCKET, s.nextTail)
      && Step(path, s, e).next.tailProc == Some(s.nextTail)
      && (s.tailProc.Some? ==> s.tailProc.value != s.nextTail)
  {
  }

  /**
   * SIGINT, whatever `building` is: stop watching, kill the screen session, interrupt the
   * held tail, remove the scratch directory, exit with 0; nothing is compiled or uploaded.
   */
  lemma ShutdownSequence(path: string, s: State, listing: Option<string>)
    requires !s.phase.Exited?
    ensures Step(path, s, Sigint(listing)).next == s.(phase := Exited(0))
    ensures var fx := Step(path, s, Sigint(listing)).effects;
      fx == [Unwatch] + KillScreenEffects(listing) + InterruptEffects(s.tailProc) + [RemoveScratchDir, Exit(0)]
    ensures Milestones(Step(path, s, Sigint(listing)).effects) == []
  {
    QuietMilestones(Step(path, s, Sigint(listing)).effects);
  }

  // ---------------------------------------------------------------------------------------
  // Whole runs

  /** After `process.exit` nothing further happens. */
  lemma {:induction false} ExitedIsFinal(path: string, s: State, events: seq<Event>)
    requires s.phase.Exited?
    ensures Run(path, s, events) == Reaction(s, [])
    decreases |events|
  {
    if events != [] {
      ExitedIsFinal(path, s, events[1..]);
    }
  }

  lemma {:induction false} RunPreservesValid(path: string, s: State, events: seq<Event>)
    requires Valid(s)
    ensures Valid(Run(path, s, events).next)
    decreases |events|
  {
    if events != [] {
      StepPreservesValid(path, s, events[0]);
      RunPreservesValid(path, Step(path, s, events[0]).next, events[1..]);
    }
  }

  /** The three spawns that make up a cycle. */
  datatype Milestone = CompileStarted | UploadStarted | MonitorStarted

  /** The spawns of a cycle, in the order they appear in `trace`. */
  function Milestones(trace: seq<Effect>): seq<Milestone>
    decreases |trace|
  {
    if trace == [] then []
    else
      var m := match trace[0] {
        case Compile(_) => [CompileStarted]
        case Upload(_) => [UploadStarted]
        case StartTail(_) => [MonitorStarted]
        case _ => []
      };
      m + Milestones(trace[1..])
  }

  lemma {:induction false} MilestonesAppend(a: seq<Effect>, b: seq<Effect>)
    ensures Milestones(a + b) == Milestones(a) + Milestones(b)
    decreases |a|
  {
    if a != [] {
      assert (a + b)[1..] == a[1..] + b;
      MilestonesAppend(a[1..], b);
    } else {
      assert a + b == b;
    }
  }

  /** An effect that starts no compile, upload or monitor. */
  predicate SpawnsNothing(e: Effect) {
    !e.Compile? && !e.Upload? && !e.StartTail?
  }

  lemma {:induction false} QuietMilestones(trace: seq<Effect>)
    requires forall e | e in trace :: SpawnsNothing(e)
    ensures Milestones(trace) == []
    decreases |trace|
  {
    if trace != [] {
      assert trace[0] in trace;
      assert forall e | e in trace[1..] :: e in trace;
      QuietMilestones(trace[1..]);
    }
  }

  lemma MilestonesOfOne(e: Effect)
    ensures Milestones([e]) == match e {
      case Compile(_) => [CompileStarted]
      case Upload(_) => [UploadStarted]
      case StartTail(_) => [MonitorStarted]
      case _ => []
    }
  {
    assert [e][1..] == [];
  }

  /** The spawn that comes after `m` in an uninterrupted sequence of cycles. */
  function NextMilestone(m: Milestone): Milestone {
    match m
    case CompileStarted => UploadStarted
    case UploadStarted => MonitorStarted
    case MonitorStarted => CompileStarted
  }

  /** `ms` runs compile, upload, monitor, compile, ... without gaps, starting at `expected`. */
  predicate FollowsCycle(ms: seq<Milestone>, expected: Milestone)
    decreases |ms|
  {
    ms == [] || (ms[0] == expected && FollowsCycle(ms[1..], NextMilestone(expected)))
  }

  /** The spawn a state waits for next. */
  function Expected(p: Phase): Milestone {
    match p
    case Idle => CompileStarted
    case Compiling => UploadStarted
    case Uploading => MonitorStarted
    case Exited(_) => CompileStarted
  }

  /** The spawn of a cycle that one event starts, if any. */
  lemma StepMilestones(path: string, s: State, e: Event)
    ensures Milestones(Step(path, s, e).effects) ==
      if s.phase.Exited? then []
      else if e.Trigger? && !s.building then [CompileStarted]
      else if e.CompileExited? && s.phase == Compiling && Resolves(e.code) then [UploadStarted]
      else if e.UploadExited? && s.phase == Uploading && Resolves(e.code) then [MonitorStarted]
      else []
  {
    var r := Step(path, s, e);
    if s.phase.Exited? {
      QuietMilestones(r.effects);
    } else if e.Trigger? && !s.building {
      assert Milestones(r.effects) == [CompileStarted] by {
        var prefix := KillScreenEffects(e.listing) + InterruptEffects(s.tailProc);
        var compile := Compile(CompileArgs(path));
        assert r.effects == prefix + [compile];
        QuietMilestones(prefix);
        MilestonesAppend(prefix, [compile]);
        MilestonesOfOne(compile);
      }
    } else if e.CompileExited? && s.phase == Compiling && Resolves(e.code) {
      MilestonesOfOne(Upload(UploadArgs(path, SOCKET)));
    } else if e.UploadExited? && s.phase == Uploading && Resolves(e.code) {
      assert Milestones(r.effects) == [MonitorStarted] by {
        var setup := [ClearLog, TouchLog, StartCapture(SOCKET, BAUD_RATE), FlushLog];
        assert r.effects == setup + [StartTail(s.nextTail)];
        QuietMilestones(setup);
        MilestonesAppend(setup, [StartTail(s.nextTail)]);
        MilestonesOfOne(StartTail(s.nextTail));
      }
    } else if e.Sigint? {
      ShutdownSequence(path, s, e.listing);
    } else {
      QuietMilestones(r.effects);
    }
  }

  /** One event starts at most the next spawn of the cycle, and moves the state on past it. */
  lemma StepFollowsCycle(path: string, s: State, e: Event)
    requires Valid(s)
    ensures var r := Step(path, s, e);
      (Milestones(r.effects) == [] && (r.next.phase.Exited? || r.next.phase == s.phase))
      || (Milestones(r.effects) == [Expected(s.phase)]
          && (r.next.phase.Exited? || Expected(r.next.phase) == NextMilestone(Expected(s.phase))))
  {
    StepMilestones(path, s, e);
  }

  /**
   * Cycles never overlap: from any consistent state, the compile, upload and monitor spawns
   * of a run keep to the order compile, upload, monitor, compile, ... with no gaps, starting
   * with the spawn the state waits for.
   */
  lemma {:induction false} RunFollowsCycle(path: string, s: State, events: seq<Event>)
    requires Valid(s)
    ensures FollowsCycle(Milestones(Run(path, s, events).effects), Expected(s.phase))
    decreases |events|
  {
    if events != [] {
      var first := Step(path, s, events[0]);
      var rest := Run(path, first.next, events[1..]);
      StepFollowsCycle(path, s, events[0]);
      StepPreservesValid(path, s, events[0]);
      MilestonesAppend(first.effects, rest.effects);
      var m1 := Milestones(first.effects);
      var m2 := Milestones(rest.effects);
      if first.next.phase.Exited? {
        ExitedIsFinal(path, first.next, events[1..]);
        assert m2 == [];
        assert m1 + m2 == m1;
        assert m1 == [] || (m1[0] == Expected(s.phase) && m1[1..] == []);
      } else {
        RunFollowsCycle(path, first.next, events[1..]);
        if m1 != [] {
          assert (m1 + m2)[0] == Expected(s.phase) && (m1 + m2)[1..] == m2;
        } else {
          assert m1 + m2 == m2;
        }
      }
    }
  }

  /** Every run of watch.js performs whole cycles, one at a time, starting with a compile. */
  lemma NoOverlappingCycles(path: string, events: seq<Event>)
    ensures FollowsCycle(Milestones(Run(path, INIT, events).effects), CompileStarted)
  {
    RunFollowsCycle(path, INIT, events);
  }

  // ---------------------------------------------------------------------------------------
  // Tail processes

  /** The tails still running after `trace`, when `live` were running before it. */
  function LiveTails(live: set<TailId>, trace: seq<Effect>): set<TailId>
    decreases |trace|
  {
    if trace == [] then live
    else
      var after := match trace[0] {
        case StartTail(t) => live + {t}
        case Interrupt(t) => live - {t}
        case _ => live
      };
      LiveTails(after, trace[1..])
  }

  lemma {:induction false} LiveTailsAppend(live: set<TailId>, a: seq<Effect>, b: seq<Effect>)
    ensures LiveTails(live, a + b) == LiveTails(LiveTails(live, a), b)
    decreases |a|
  {
    if a != [] {
      assert (a + b)[1..] == a[1..] + b;
      assert (a + b)[0] == a[0];
      var after := match a[0] {
        case StartTail(t) => live + {t}
        case Interrupt(t) => live - {t}
        case _ => live
      };
      LiveTailsAppend(after, a[1..], b);
    } else {
      assert a + b == b;
    }
  }

  /** The tail that is running in state `s`: the held one, unless a cycle or the shutdown has interrupted it. */
  function Monitoring(s: State): set<TailId> {
    if s.phase == Idle && s.tailProc.Some? then {s.tailProc.value} else {}
  }

  /** An effect that neither starts nor interrupts a tail. */
  predicate LeavesTails(e: Effect) {
    !e.StartTail? && !e.Interrupt?
  }

  lemma {:induction false} LiveTailsUntouched(live: set<TailId>, trace: seq<Effect>)
    requires forall e | e in trace :: LeavesTails(e)
    ensures LiveTails(live, trace) == live
    decreases |trace|
  {
    if trace != [] {
      assert trace[0] in trace;
      assert forall e | e in trace[1..] :: e in trace;
      LiveTailsUntouched(live, trace[1..]);
    }
  }

  lemma LiveTailsOfInterrupt(live: set<TailId>, tailProc: Option<TailId>)
    ensures LiveTails(live, InterruptEffects(tailProc))
      == if tailProc.Some? then live - {tailProc.value} else live
  {
    if tailProc.Some? {
      assert InterruptEffects(tailProc)[1..] == [];
    }
  }

  /** `killScreen` neither spawns anything nor touches a tail. */
  lemma KillEffectsAreQuiet(listing: Option<string>, target: Option<string>)
    ensures forall e | e in KillEffects(listing, target) :: SpawnsNothing(e) && LeavesTails(e) && !e.StartCapture?
  {
  }

  /** Effects that leave the tails alone around the interrupt of the held tail. */
  lemma {:induction false} LiveTailsAroundInterrupt(live: set<TailId>, pre: seq<Effect>, tailProc: Option<TailId>, post: seq<Effect>)
    requires forall e | e in pre :: LeavesTails(e)
    requires forall e | e in post :: LeavesTails(e)
    ensures LiveTails(live, pre + InterruptEffects(tailProc) + post)
      == if tailProc.Some? then live - {tailProc.value} else live
  {
    var intr := InterruptEffects(tailProc);
    LiveTailsAppend(live, pre + intr, post);
    LiveTailsAppend(live, pre, intr);
    LiveTailsUntouched(live, pre);
    LiveTailsOfInterrupt(live, tailProc);
    LiveTailsUntouched(LiveTails(live, pre + intr), post);
  }

  /** An accepted trigger interrupts the held tail and starts none. */
  lemma TriggerStopsTail(path: string, s: State, listing: Option<string>, live: set<TailId>)
    requires !s.building
    ensures LiveTails(live, OnTrigger(path, s, listing).effects)
      == if s.tailProc.Some? then live - {s.tailProc.value} else live
  {
    var kill := KillEffects(listing, Screen.QuitTarget(listing));
    KillEffectsAreQuiet(listing, Screen.QuitTarget(listing));
    LiveTailsAroundInterrupt(live, kill, s.tailProc, [Compile(CompileArgs(path))]);
  }

  /** A clean upload starts exactly one tail, the next fresh one. */
  lemma UploadStartsTail(s: State, code: ExitCode, live: set<TailId>)
    requires Resolves(code)
    ensures LiveTails(live, OnUploadExit(s, code).effects) == live + {s.nextTail}
  {
    var setup := [ClearLog, TouchLog, StartCapture(SOCKET, BAUD_RATE), FlushLog];
    assert OnUploadExit(s, code).effects == setup + [StartTail(s.nextTail)];
    LiveTailsAppend(live, setup, [StartTail(s.nextTail)]);
    LiveTailsUntouched(live, setup);
    assert [StartTail(s.nextTail)][1..] == [];
  }

  /** SIGINT interrupts the held tail and starts none. */
  lemma SigintStopsTail(s: State, listing: Option<string>, live: set<TailId>)
    ensures LiveTails(live, OnSigint(s, listing).effects)
      == if s.tailProc.Some? then live - {s.tailProc.value} else live
  {
    var kill := KillEffects(listing, Screen.QuitTarget(listing));
    KillEffectsAreQuiet(listing, Screen.QuitTarget(listing));
    LiveTailsAroundInterrupt(live, [Unwatch] + kill, s.tailProc, [RemoveScratchDir, Exit(0)]);
  }

  lemma StepTracksMonitor(path: string, s: State, e: Event)
    requires Valid(s)
    ensures LiveTails(Monitoring(s), Step(path, s, e).effects) == Monitoring(Step(path, s, e).next)
  {
    var r := Step(path, s, e);
    var live := Monitoring(s);
    if s.phase.Exited? {
      LiveTailsUntouched(live, r.effects);
    } else if e.Trigger? && !s.building {
      TriggerStopsTail(path, s, e.listing, live);
    } else if e.UploadExited? && s.phase == Uploading && Resolves(e.code) {
      UploadStartsTail(s, e.code, live);
    } else if e.Sigint? {
      SigintStopsTail(s, e.listing, live);
    } else {
      LiveTailsUntouched(live, r.effects);
    }
  }

  /** Over any run, the running tails are exactly the one `Monitoring` names. */
  lemma {:induction false} RunTracksMonitor(path: string, s: State, events: seq<Event>)
    requires Valid(s)
    ensures LiveTails(Monitoring(s), Run(path, s, events).effects) == Monitoring(Run(path, s, events).next)
    decreases |events|
  {
    if events != [] {
      var first := Step(path, s, events[0]);
      var rest := Run(path, first.next, events[1..]);
      StepTracksMonitor(path, s, events[0]);
      StepPreservesValid(path, s, events[0]);
      RunTracksMonitor(path, first.next, events[1..]);
      LiveTailsAppend(Monitoring(s), first.effects, rest.effects);
    }
  }

  /**
   * At most one tail runs at any time. After a successful cycle exactly one runs, the held
   * one, the one it replaced having been interrupted earlier; after SIGINT none runs.
   */
  lemma AtMostOneTail(path: string, events: seq<Event>)
    ensures var r := Run(path, INIT, events);
      LiveTails({}, r.effects) == if r.next.phase == Idle && r.next.tailProc.Some? then {r.next.tailProc.value} else {}
    ensures |LiveTails({}, Run(path, INIT, events).effects)| <= 1
    ensures Run(path, INIT, events).next.phase.Exited? ==> LiveTails({}, Run(path, INIT, events).effects) == {}
  {
    RunTracksMonitor(path, INIT, events);
  }

  // ---------------------------------------------------------------------------------------
  // Capture sessions

  /**
   * The stop-before-start rule for the `screen` capture session, read off a trace. Every
   * `screen -ls` is followed at once by the quit of exactly the session its output names (the
   * effects of `killScreen`). Every start of a capture session comes after such a `killScreen`
   * that itself came after the previous start. `armed` says whether a `killScreen` has been
   * seen since the last start.
   */
  predicate KilledBeforeCapture(armed: bool, trace: seq<Effect>)
    decreases |trace|
  {
    if trace == [] then true
    else match trace[0]
      case ListSessions(listing) =>
        var kill := KillScreenEffects(listing);
        kill <= trace && KilledBeforeCapture(true, trace[|kill|..])
      case StartCapture(_, _) => armed && KilledBeforeCapture(false, trace[1..])
      case _ => KilledBeforeCapture(armed, trace[1..])
  }

  /** A `killScreen` has run since the last capture start: exactly while a cycle is in flight. */
  predicate Armed(s: State) {
    s.phase == Compiling || s.phase == Uploading
  }

  /** An effect that neither lists sessions nor starts one. */
  predicate LeavesSessions(e: Effect) {
    !e.ListSessions? && !e.StartCapture?
  }

  /** Having seen a `killScreen` only makes the rule easier to meet. */
  lemma {:induction false} KilledBeforeCaptureMonotone(trace: seq<Effect>)
    requires KilledBeforeCapture(false, trace)
    ensures KilledBeforeCapture(true, trace)
    decreases |trace|
  {
    if trace != [] && !trace[0].ListSessions? && !trace[0].StartCapture? {
      KilledBeforeCaptureMonotone(trace[1..]);
    }
  }

  lemma {:induction false} QuietSessions(armed: bool, pre: seq<Effect>, trace: seq<Effect>)
    requires forall e | e in pre :: LeavesSessions(e)
    ensures KilledBeforeCapture(armed, pre + trace) == KilledBeforeCapture(armed, trace)
    decreases |pre|
  {
    if pre != [] {
      assert pre[0] in pre && (pre + trace)[0] == pre[0];
      assert (pre + trace)[1..] == pre[1..] + trace;
      assert forall e | e in pre[1..] :: e in pre;
      QuietSessions(armed, pre[1..], trace);
    } else {
      assert pre + trace == trace;
    }
  }

  /** The effects of one `killScreen` arm the rule. */
  lemma KillArms(armed: bool, listing: Option<string>, trace: seq<Effect>)
    ensures KilledBeforeCapture(armed, KillScreenEffects(listing) + trace) == KilledBeforeCapture(true, trace)
  {
    var kill := KillScreenEffects(listing);
    assert kill == KillEffects(listing, Screen.QuitTarget(listing));
    assert kill[0] == ListSessions(listing);
    assert (kill + trace)[0] == ListSessions(listing);
    assert kill <= kill + trace && (kill + trace)[|kill|..] == trace;
  }

  lemma InterruptLeavesSessions(tailProc: Option<TailId>)
    ensures forall e | e in InterruptEffects(tailProc) :: LeavesSessions(e)
  {
  }

  lemma TriggerKeepsCaptureRule(path: string, s: State, listing: Option<string>, trace: seq<Effect>)
    requires !s.building && KilledBeforeCapture(true, trace)
    ensures var fx := OnTrigger(path, s, listing).effects;
      |fx| > 0 && fx[0] == ListSessions(listing) && forall e | e in fx :: !e.StartCapture?
    ensures KilledBeforeCapture(Armed(s), OnTrigger(path, s, listing).effects + trace)
  {
    KillEffectsAreQuiet(listing, Screen.QuitTarget(listing));
    var kill := KillScreenEffects(listing);
    var rest := InterruptEffects(s.tailProc) + [Compile(CompileArgs(path))];
    Regroup3(kill, InterruptEffects(s.tailProc), [Compile(CompileArgs(path))], trace);
    InterruptLeavesSessions(s.tailProc);
    QuietSessions(true, rest, trace);
    KillArms(Armed(s), listing, rest + trace);
  }

  lemma UploadKeepsCaptureRule(s: State, code: ExitCode, trace: seq<Effect>)
    requires Resolves(code) && KilledBeforeCapture(false, trace)
    ensures var fx := OnUploadExit(s, code).effects;
      StartCapture(SOCKET, BAUD_RATE) in fx
      && forall i, j | 0 <= i < j < |fx| :: !(fx[i].StartCapture? && fx[j].StartCapture?)
    ensures KilledBeforeCapture(true, OnUploadExit(s, code).effects + trace)
  {
    var setup := [ClearLog, TouchLog];
    var after := [FlushLog, StartTail(s.nextTail)];
    var start := StartCapture(SOCKET, BAUD_RATE);
    assert OnUploadExit(s, code).effects + trace == setup + ([start] + (after + trace));
    QuietSessions(false, after, trace);
    assert ([start] + (after + trace))[1..] == after + trace;
    QuietSessions(true, setup, [start] + (after + trace));
  }

  lemma SigintKeepsCaptureRule(s: State, listing: Option<string>, trace: seq<Effect>)
    requires KilledBeforeCapture(false, trace)
    ensures forall e | e in OnSigint(s, listing).effects :: !e.StartCapture?
    ensures KilledBeforeCapture(Armed(s), OnSigint(s, listing).effects + trace)
  {
    KillEffectsAreQuiet(listing, Screen.QuitTarget(listing));
    var kill := KillScreenEffects(listing);
    var intr := InterruptEffects(s.tailProc);
    var rest := intr + [RemoveScratchDir, Exit(0)];
    var tail := rest + trace;
    assert KilledBeforeCapture(true, tail) by {
      KilledBeforeCaptureMonotone(trace);
      InterruptLeavesSessions(s.tailProc);
      QuietSessions(true, rest, trace);
    }
    KillArms(Armed(s), listing, tail);
    QuietSessions(Armed(s), [Unwatch], kill + tail);
    Regroup([Unwatch], kill, intr, [RemoveScratchDir, Exit(0)], trace);
  }

  lemma Regroup3(a: seq<Effect>, b: seq<Effect>, c: seq<Effect>, t: seq<Effect>)
    ensures a + b + c + t == a + ((b + c) + t)
  {
  }

  lemma Regroup(a: seq<Effect>, b: seq<Effect>, c: seq<Effect>, d: seq<Effect>, t: seq<Effect>)
    ensures a + b + c + d + t == a + (b + ((c + d) + t))
  {
  }

  /** One event keeps the rule, given that it holds for whatever the new state does next. */
  lemma StepKeepsCaptureRule(path: string, s: State, e: Event, trace: seq<Effect>)
    requires Valid(s)
    requires KilledBeforeCapture(Armed(Step(path, s, e).next), trace)
    ensures KilledBeforeCapture(Armed(s), Step(path, s, e).effects + trace)
  {
    var r := Step(path, s, e);
    if s.phase.Exited? || (e.Trigger? && s.building)
      || (e.CompileExited? && s.phase != Compiling) || (e.UploadExited? && s.phase != Uploading) {
      assert r == Reaction(s, []) && r.effects + trace == trace;
    } else if e.Trigger? {
      TriggerKeepsCaptureRule(path, s, e.listing, trace);
    } else if e.Sigint? {
      SigintKeepsCaptureRule(s, e.listing, trace);
    } else if e.UploadExited? && Resolves(e.code) {
      UploadKeepsCaptureRule(s, e.code, trace);
    } else if e.CompileExited? && Resolves(e.code) {
      QuietSessions(true, r.effects, trace);
    } else {
      assert r.effects == [Exit(1)] && !Armed(r.next);
      KilledBeforeCaptureMonotone(trace);
      QuietSessions(Armed(s), r.effects, trace);
    }
  }

  lemma {:induction false} RunKeepsCaptureRule(path: string, s: State, events: seq<Event>)
    requires Valid(s)
    ensures KilledBeforeCapture(Armed(s), Run(path, s, events).effects)
    decreases |events|
  {
    if events != [] {
      var first := Step(path, s, events[0]);
      StepPreservesValid(path, s, events[0]);
      RunKeepsCaptureRule(path, first.next, events[1..]);
      StepKeepsCaptureRule(path, s, events[0], Run(path, first.next, events[1..]).effects);
    }
  }

  /** At index `j` of `trace` stand exactly the effects of one `killScreen`: a listing and the quit it calls for. */
  predicate KillBlockAt(trace: seq<Effect>, j: int) {
    0 <= j < |trace| && trace[j].ListSessions?
    && j + |KillScreenEffects(trace[j].output)| <= |trace|
    && trace[j..j + |KillScreenEffects(trace[j].output)|] == KillScreenEffects(trace[j].output)
  }

  /** No capture session is started strictly between indices `i` and `k`. */
  predicate NoCaptureBetween(trace: seq<Effect>, i: int, k: int) {
    forall m :: i < m < k && 0 <= m < |trace| ==> !trace[m].StartCapture?
  }

  lemma KillBlockShift(trace: seq<Effect>, d: nat, j: int)
    requires d <= |trace| && KillBlockAt(trace[d..], j)
    ensures KillBlockAt(trace, j + d)
  {
    var n := |KillScreenEffects(trace[d..][j].output)|;
    assert trace[d..][j] == trace[j + d];
    assert trace[d..][j..j + n] == trace[j + d..j + d + n];
  }

  /**
   * Capture start `k` of `trace` has a `killScreen` at some `j < k` with no capture start in
   * between; when `armed`, that `killScreen` may also lie before the start of `trace`.
   */
  predicate KilledBefore(armed: bool, trace: seq<Effect>, k: int) {
    (exists j :: 0 <= j < k && KillBlockAt(trace, j) && NoCaptureBetween(trace, j, k))
    || (armed && NoCaptureBetween(trace, -1, k))
  }

  lemma ShiftWitness(trace: seq<Effect>, d: nat, j: int, k: int)
    requires d <= k <= |trace| && 0 <= j < k - d
    requires KillBlockAt(trace[d..], j) && NoCaptureBetween(trace[d..], j, k - d)
    ensures KillBlockAt(trace, j + d) && NoCaptureBetween(trace, j + d, k)
  {
    KillBlockShift(trace, d, j);
    assert forall m :: j < m < k - d ==> trace[d..][m] == trace[m + d];
  }

  lemma ShiftNoCapture(trace: seq<Effect>, d: nat, k: int)
    requires d <= k <= |trace|
    requires NoCaptureBetween(trace, -1, d) && NoCaptureBetween(trace[d..], -1, k - d)
    ensures NoCaptureBetween(trace, -1, k)
  {
    assert forall m :: 0 <= m < k - d ==> trace[d..][m] == trace[m + d];
  }

  /** A `killScreen` at the front of `trace` spans `n` effects, none of them a capture start. */
  lemma KillBlockInFront(trace: seq<Effect>, listing: Option<string>)
    requires KillScreenEffects(listing) <= trace && trace[0] == ListSessions(listing)
    ensures KillBlockAt(trace, 0)
    ensures NoCaptureBetween(trace, -1, |KillScreenEffects(listing)|)
  {
    var kill := KillScreenEffects(listing);
    assert kill == KillEffects(listing, Screen.QuitTarget(listing));
    KillEffectsAreQuiet(listing, Screen.QuitTarget(listing));
    assert trace[..|kill|] == kill;
    forall m | 0 <= m < |kill| ensures !trace[m].StartCapture? {
      assert trace[m] == kill[m] && kill[m] in kill;
    }
  }

  lemma {:induction false} KillBeforeEachCapture(armed: bool, trace: seq<Effect>, k: int)
    requires KilledBeforeCapture(armed, trace)
    requires 0 <= k < |trace| && trace[k].StartCapture?
    ensures KilledBefore(armed, trace, k)
    decreases |trace|
  {
    if trace[0].ListSessions? {
      var n := |KillScreenEffects(trace[0].output)|;
      KillBlockInFront(trace, trace[0].output);
      KillBeforeEachCapture(true, trace[n..], k - n);
      KilledAfterKillBlock(armed, trace, n, k);
    } else if k > 0 {
      KillBeforeEachCapture(!trace[0].StartCapture? && armed, trace[1..], k - 1);
      KilledAfterOne(armed, trace, k);
    }
  }

  /** The claim for `trace` from the claim for what follows a `killScreen` at its front. */
  lemma KilledAfterKillBlock(armed: bool, trace: seq<Effect>, n: nat, k: int)
    requires 0 < n <= k < |trace|
    requires KillBlockAt(trace, 0) && NoCaptureBetween(trace, -1, n)
    requires KilledBefore(true, trace[n..], k - n)
    ensures KilledBefore(armed, trace, k)
  {
    if j :| 0 <= j < k - n && KillBlockAt(trace[n..], j) && NoCaptureBetween(trace[n..], j, k - n) {
      ShiftWitness(trace, n, j, k);
    } else {
      ShiftNoCapture(trace, n, k);
      assert NoCaptureBetween(trace, 0, k);
    }
  }

  /** The claim for `trace` from the claim for `trace[1..]`, past an effect that is not a listing. */
  lemma KilledAfterOne(armed: bool, trace: seq<Effect>, k: int)
    requires 0 < k < |trace| && !trace[0].ListSessions?
    requires KilledBefore(!trace[0].StartCapture? && armed, trace[1..], k - 1)
    ensures KilledBefore(armed, trace, k)
  {
    if j :| 0 <= j < k - 1 && KillBlockAt(trace[1..], j) && NoCaptureBetween(trace[1..], j, k - 1) {
      ShiftWitness(trace, 1, j, k);
    } else {
      ShiftNoCapture(trace, 1, k);
    }
  }

  /**
   * Stop before start, for the capture session: from start-up, every capture session is
   * started only after a `killScreen` since the previous start, which listed the sessions
   * and quit exactly the one the listing named.
   */
  lemma CaptureOnlyAfterKillScreen(path: string, events: seq<Event>)
    ensures KilledBeforeCapture(false, Run(path, INIT, events).effects)
    ensures var fx := Run(path, INIT, events).effects;
      forall k :: 0 <= k < |fx| && fx[k].StartCapture? ==>
        exists j :: 0 <= j < k && KillBlockAt(fx, j) && NoCaptureBetween(fx, j, k)
  {
    var fx := Run(path, INIT, events).effects;
    RunKeepsCaptureRule(path, INIT, events);
    forall k | 0 <= k < |fx| && fx[k].StartCapture?
      ensures exists j :: 0 <= j < k && KillBlockAt(fx, j) && NoCaptureBetween(fx, j, k)
    {
      KillBeforeEachCapture(false, fx, k);
    }
  }

  /**
   * What the rule does not give: a single capture session. When `screen -ls` fails (its
   * output is lost and nothing is quit), the next clean cycle starts a second `arduino-logs`
   * session on the same device while the first may still be running. The run below starts
   * two capture sessions and quits none.
   */
  lemma SecondCaptureUnlisted(path: string)
    ensures var clean := [Trigger(None), CompileExited(Some(0)), UploadExited(Some(0))];
      var first := Run(path, INIT, clean);
      var second := Run(path, first.next, clean);
      first.effects + second.effects
        == [ListSessions(None), Compile(CompileArgs(path)), Upload(UploadArgs(path, SOCKET))]
          + CreateScreenEffects(SOCKET, 0)
          + [ListSessions(None), Interrupt(0), Compile(CompileArgs(path)), Upload(UploadArgs(path, SOCKET))]
          + CreateScreenEffects(SOCKET, 1)
    ensures var clean := [Trigger(None), CompileExited(Some(0)), UploadExited(Some(0))];
      var first := Run(path, INIT, clean);
      forall id :: QuitSession(id) !in first.effects + Run(path, first.next, clean).effects
  {
    var clean := [Trigger(None), CompileExited(Some(0)), UploadExited(Some(0))];
    var first := Run(path, INIT, clean);
    UnlistedCleanCycle(path, INIT);
    UnlistedCleanCycle(path, first.next);
    var compile := Compile(CompileArgs(path));
    var upload := Upload(UploadArgs(path, SOCKET));
    assert first.effects + Run(path, first.next, clean).effects
      == ([ListSessions(None), compile, upload] + CreateScreenEffects(SOCKET, 0))
        + ([ListSessions(None), Interrupt(0), compile, upload] + CreateScreenEffects(SOCKET, 1));
  }

  /** One clean cycle while `screen -ls` fails: nothing is quit, and a new capture session starts. */
  lemma UnlistedCleanCycle(path: string, s: State)
    requires s.phase == Idle && !s.building
    ensures var r := Run(path, s, [Trigger(None), CompileExited(Some(0)), UploadExited(Some(0))]);
      r.next == State(false, Some(s.nextTail), Idle, s.nextTail + 1)
      && r.effects == [ListSessions(None)] + InterruptEffects(s.tailProc)
        + [Compile(CompileArgs(path)), Upload(UploadArgs(path, SOCKET))] + CreateScreenEffects(SOCKET, s.nextTail)
  {
    var events := [Trigger(None), CompileExited(Some(0)), UploadExited(Some(0))];
    assert KillScreenEffects(None) == [ListSessions(None)];
    var s1 := s.(building := true, phase := Compiling);
    var s2 := s1.(phase := Uploading);
    var s3 := State(false, Some(s.nextTail), Idle, s.nextTail + 1);
    var r1 := Step(path, s, Trigger(None));
    assert r1 == Reaction(s1, [ListSessions(None)] + InterruptEffects(s.tailProc) + [Compile(CompileArgs(path))]);
    assert Step(path, s1, CompileExited(Some(0))) == Reaction(s2, [Upload(UploadArgs(path, SOCKET))]);
    assert Step(path, s2, UploadExited(Some(0))) == Reaction(s3, CreateScreenEffects(SOCKET, s.nextTail));
    assert events[1..][1..] == [UploadExited(Some(0))] && events[1..][1..][1..] == [];
    assert Run(path, s2, events[1..][1..]) == Reaction(s3, CreateScreenEffects(SOCKET, s.nextTail));
    assert Run(path, s1, events[1..]) == Reaction(s3, [Upload(UploadArgs(path, SOCKET))] + CreateScreenEffects(SOCKET, s.nextTail));
  }
}
