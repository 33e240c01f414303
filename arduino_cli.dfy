/**
 * The two `arduino-cli` invocations of `build` and `upload` (watch.js), and the rule by which
 * their promises settle on the child's exit.
 */
module ArduinoCli {
  import opened Wrappers

  /** The fully qualified board name both invocations pass after `--fqbn`. */
  const FQBN: string := "esp32:esp32:nodemcu-32s"

  /** The serial device the board is flashed through and monitored on. */
  const SOCKET: string := "/dev/tty.usbserial-0001"

  /** Node reports a child's exit as a code, or `null` (here `None`) when a signal ended it. */
  type ExitCode = Option<int>

  /** `code === 0`: the promise of `build` or `upload` resolves; on any other exit it rejects. */
  predicate Resolves(code: ExitCode) {
    code == Some(0)
  }

  /** What `path` holds after `resolvePath`: an absolute POSIX path. */
  predicate IsAbsolute(path: string) {
    |path| > 0 && path[0] == '/'
  }

  /** The arguments `build` passes to `arduino-cli`. */
  function CompileArgs(path: string): seq<string> {
    ["compile", "--fqbn", FQBN, path]
  }

  /** The arguments `upload` passes to `arduino-cli`. */
  function UploadArgs(path: string, socket: string): seq<string> {
    ["upload", "-p", socket, "--fqbn", FQBN, path]
  }

  /**
   * How a command line of this shape reads: a verb, the two value-taking options `-p` (port)
   * and `--fqbn` (board), and the remaining operands in order.
   */
  datatype Invocation = Invocation(verb: string, port: Option<string>, board: Option<string>, operands: seq<string>)

  /** Reads `args` as `<verb> {-p <port> | --fqbn <board> | <operand>}`; `None` when an option lacks its value. */
  function Parse(args: seq<string>): Option<Invocation> {
    if args == [] then None else ParseOptions(args[1..], Invocation(args[0], None, None, []))
  }

  function ParseOptions(rest: seq<string>, acc: Invocation): Option<Invocation>
    decreases |rest|
  {
    if rest == [] then Some(acc)
    else if rest[0] == "-p" || rest[0] == "--fqbn" then
      if |rest| < 2 then None
      else if rest[0] == "-p" then ParseOptions(rest[2..], acc.(port := Some(rest[1])))
      else ParseOptions(rest[2..], acc.(board := Some(rest[1])))
    else ParseOptions(rest[1..], acc.(operands := acc.operands + [rest[0]]))
  }

  /**
   * The compile and the upload name the same board and the same single sketch path, last in
   * both lists, and the upload's port is the socket: what `arduino-cli` receives from `build` and `upload`.
   */
  lemma CompileAndUploadAgree(path: string, socket: string)
    requires IsAbsolute(path)
    ensures Parse(CompileArgs(path)) == Some(Invocation("compile", None, Some(FQBN), [path]))
    ensures Parse(UploadArgs(path, socket)) == Some(Invocation("upload", Some(socket), Some(FQBN), [path]))
    ensures CompileArgs(path)[|CompileArgs(path)| - 1] == path
    ensures UploadArgs(path, socket)[|UploadArgs(path, socket)| - 1] == path
  {
    assert path != "-p" && path != "--fqbn" by {
      assert path[0] == '/';
      assert "-p"[0] == '-' && "--fqbn"[0] == '-';
    }
    assert [path][1..] == [] && [] + [path] == [path];
    var compile := CompileArgs(path);
    var c0 := Invocation("compile", None, None, []);
    assert compile[1..] == ["--fqbn", FQBN, path] && compile[1..][2..] == [path];
    assert ParseOptions([path], c0.(board := Some(FQBN)))
      == ParseOptions([], Invocation("compile", None, Some(FQBN), [path]));
    assert Parse(compile) == ParseOptions([path], c0.(board := Some(FQBN)));

    var upload := UploadArgs(path, socket);
    var u0 := Invocation("upload", None, None, []);
    var u1 := u0.(port := Some(socket));
    assert upload[1..] == ["-p", socket, "--fqbn", FQBN, path];
    assert upload[1..][2..] == ["--fqbn", FQBN, path] && upload[1..][2..][2..] == [path];
    assert ParseOptions([path], u1.(board := Some(FQBN)))
      == ParseOptions([], Invocation("upload", Some(socket), Some(FQBN), [path]));
    assert ParseOptions(["--fqbn", FQBN, path], u1) == ParseOptions([path], u1.(board := Some(FQBN)));
    assert Parse(upload) == ParseOptions(["--fqbn", FQBN, path], u1);
  }
}
