/**
 * watch.js as it runs: the module-level variables `building` and `tailProc` become fields of
 * one `Watcher`, next to the point `exec` is suspended at, and `trace` records, in order,
 * every command, spawn, signal and exit the script issues. Each handler updates the fields
 * step by step as the source does, and is proved to agree with `Lifecycle.Step`.
 */
module Controller {
  import opened Wrappers
  import opened JsString
  import opened ArduinoCli
  import Screen
  import Lifecycle

  /**
   * The parsing half of `killScreen()`: the first line of the listing that names the capture
   * session, the text before its first dot, trimmed; `None` when there is no listing, no such
   * line, or nothing left. It follows `Screen.QuitTarget`, which carries the promises, statement
   * by statement; kept apart from `Watcher.KillScreen` so that each of the two proofs stays small.
   */
  method SessionToQuit(listing: Option<string>) returns (number: Option<string>)
    ensures number == Screen.QuitTarget(listing)
  {
    number := None;
    if listing.Some? {
      var line := Screen.Find(Split(listing.value, '\n'), Screen.SESSION_NAME);
      if line.Some? {
        var id := Screen.SessionId(line.value);
        if id != [] {
          number := Some(id);
        }
      }
    }
  }

  class Watcher {
    /** `PATH`, the resolved sketch path. */
    const path: string
    var building: bool
    var tailProc: Option<Lifecycle.TailId>
    var phase: Lifecycle.Phase
    /** The id the next `tail -f` child gets. */
    var nextTail: Lifecycle.TailId
    var trace: seq<Lifecycle.Effect>

    /** The fields as a value of the lifecycle specification. */
    function Snapshot(): Lifecycle.State
      reads this
    {
      Lifecycle.State(building, tailProc, phase, nextTail)
    }

    ghost predicate Valid()
      reads this
    {
      Lifecycle.Valid(Snapshot())
    }

    /**
     * Start-up: create the scratch directory, watch `path`, and run the first `exec()`
     * while nothing is building and no tail is held.
     */
    constructor (path: string, listing: Option<string>)
      ensures this.path == path && Valid()
      ensures Snapshot() == Lifecycle.Step(path, Lifecycle.INIT, Lifecycle.Trigger(listing)).next
      ensures trace == [Lifecycle.MakeScratchDir, Lifecycle.Watch(path)]
        + Lifecycle.Step(path, Lifecycle.INIT, Lifecycle.Trigger(listing)).effects
    {
      this.path := path;
      building := false;
      tailProc := None;
      phase := Lifecycle.Idle;
      nextTail := 0;
      trace := [Lifecycle.MakeScratchDir, Lifecycle.Watch(path)];
      new;
      Exec(listing);
    }

    /** `killScreen()`, where `listing` is what `screen -ls` printed (`None`: it failed). */
    method KillScreen(listing: Option<string>)
      modifies this`trace
      ensures trace == old(trace) + Lifecycle.KillScreenEffects(listing)
    {
      trace := trace + [Lifecycle.ListSessions(listing)];
      var number := SessionToQuit(listing);
      if number.Some? {
        trace := trace + [Lifecycle.QuitSession(number.value)];
      }
    }

    /** `if (tailProc) tailProc.kill('SIGINT')`. */
    method InterruptTail()
      modifies this`trace
      ensures trace == old(trace) + Lifecycle.InterruptEffects(tailProc)
    {
      if tailProc.Some? {
        trace := trace + [Lifecycle.Interrupt(tailProc.value)];
      }
    }

    /** `createScreen(socket)`: reset the log, start the capture session and a new `tail -f`. */
    method CreateScreen(socket: string) returns (tail: Lifecycle.TailId)
      modifies this`trace, this`nextTail
      ensures tail == old(nextTail) && nextTail == old(nextTail) + 1
      ensures trace == old(trace) + Lifecycle.CreateScreenEffects(socket, tail)
    {
      trace := trace + [Lifecycle.ClearLog, Lifecycle.TouchLog];
      trace := trace + [Lifecycle.StartCapture(socket, Lifecycle.BAUD_RATE), Lifecycle.FlushLog];
      tail := nextTail;
      nextTail := nextTail + 1;
      trace := trace + [Lifecycle.StartTail(tail)];
    }

    /** The `unhandledRejection` handler a rejected `build` or `upload` reaches. */
    method Reject()
      modifies this`trace, this`phase
      ensures phase == Lifecycle.Exited(1) && trace == old(trace) + [Lifecycle.Exit(1)]
    {
      trace := trace + [Lifecycle.Exit(1)];
      phase := Lifecycle.Exited(1);
    }

    /** `exec()`, up to its first `await`: a change reported by the watcher, or the initial run. */
    method Exec(listing: Option<string>)
      requires Valid() && !phase.Exited?
      modifies this
      ensures Valid()
      ensures Snapshot() == Lifecycle.Step(path, old(Snapshot()), Lifecycle.Trigger(listing)).next
      ensures trace == old(trace) + Lifecycle.Step(path, old(Snapshot()), Lifecycle.Trigger(listing)).effects
    {
      if building {
        return;
      }
      building := true;
      KillScreen(listing);
      InterruptTail();
      trace := trace + [Lifecycle.Compile(CompileArgs(path))];
      phase := Lifecycle.Compiling;
    }

    /** The compile child exits: `exec` resumes after `await build(PATH)` and starts the upload, or rejects. */
    method OnBuildExit(code: ExitCode)
      requires Valid() && phase == Lifecycle.Compiling
      modifies this
      ensures Valid()
      ensures Snapshot() == Lifecycle.Step(path, old(Snapshot()), Lifecycle.CompileExited(code)).next
      ensures trace == old(trace) + Lifecycle.Step(path, old(Snapshot()), Lifecycle.CompileExited(code)).effects
    {
      if Resolves(code) {
        trace := trace + [Lifecycle.Upload(UploadArgs(path, SOCKET))];
        phase := Lifecycle.Uploading;
      } else {
        Reject();
      }
    }

    /**
     * The upload child exits: `exec` resumes after `await upload(...)`, clears `building` and
     * holds the tail of a new screen, or rejects.
     */
    method OnUploadExit(code: ExitCode)
      requires Valid() && phase == Lifecycle.Uploading
      modifies this
      ensures Valid()
      ensures Snapshot() == Lifecycle.Step(path, old(Snapshot()), Lifecycle.UploadExited(code)).next
      ensures trace == old(trace) + Lifecycle.Step(path, old(Snapshot()), Lifecycle.UploadExited(code)).effects
    {
      if Resolves(code) {
        building := false;
        var tail := CreateScreen(SOCKET);
        tailProc := Some(tail);
        phase := Lifecycle.Idle;
      } else {
        Reject();
      }
    }

    /** The SIGINT handler up to `process.exit()`: stop watching, kill the screen, interrupt the tail, remove the scratch directory. */
    method Teardown(listing: Option<string>)
      modifies this`trace
      ensures trace == old(trace) + ([Lifecycle.Unwatch] + Lifecycle.KillScreenEffects(listing)
        + Lifecycle.InterruptEffects(tailProc) + [Lifecycle.RemoveScratchDir])
    {
      ghost var before := trace;
      ghost var kill := Lifecycle.KillScreenEffects(listing);
      ghost var intr := Lifecycle.InterruptEffects(tailProc);
      trace := trace + [Lifecycle.Unwatch];
      KillScreen(listing);
      assert trace == before + ([Lifecycle.Unwatch] + kill);
      InterruptTail();
      assert trace == before + ([Lifecycle.Unwatch] + kill + intr);
      trace := trace + [Lifecycle.RemoveScratchDir];
    }

    /** The SIGINT handler. */
    method OnSigint(listing: Option<string>)
      requires Valid() && !phase.Exited?
      modifies this
      ensures Valid()
      ensures Snapshot() == Lifecycle.Step(path, old(Snapshot()), Lifecycle.Sigint(listing)).next
      ensures trace == old(trace) + Lifecycle.Step(path, old(Snapshot()), Lifecycle.Sigint(listing)).effects
    {
      ghost var teardown := [Lifecycle.Unwatch] + Lifecycle.KillScreenEffects(listing)
        + Lifecycle.InterruptEffects(tailProc);
      Teardown(listing);
      trace := trace + [Lifecycle.Exit(0)];
      assert trace == old(trace) + (teardown + [Lifecycle.RemoveScratchDir, Lifecycle.Exit(0)]);
      phase := Lifecycle.Exited(0);
    }
  }
}
