/**
 * The session record the command actions mutate (`ProgramContext` of
 * src/run-on-golem/context-interface.ts) as a class, with the actions of both command
 * tables and the loops of run-on-golem.action.ts as methods. Each method is proved to
 * leave the session in the state ShellSpec / ShellDriver describe.
 */
module ShellSession {
  import opened Wrappers
  import opened Text
  import opened Statements
  import opened ShellSpec
  import opened ShellDriver
  import Paths

  class Session {
    const env: Env
    var exited: bool
    var vars: Vars
    var log: seq<Effect>
    var requests: seq<Request>

    function Snapshot(): State
      reads this
    {
      State(exited, vars, log, requests)
    }

    constructor (env: Env, vars: Vars)
      ensures this.env == env && Snapshot() == State(false, vars, [], [])
    {
      this.env := env;
      exited := false;
      this.vars := vars;
      log := [];
      requests := [];
    }

    method Say(e: seq<Effect>)
      modifies this
      ensures Snapshot() == Emit(old(Snapshot()), e)
    {
      log := log + e;
    }

    method Call(req: Request) returns (reply: Reply)
      modifies this
      ensures reply == env.host.reply(|old(requests)|, req)
      ensures Snapshot() == ShellSpec.Call(old(Snapshot()), req)
    {
      reply := env.host.reply(|requests|, req);
      requests := requests + [req];
    }

    /** The output routing shared by `run` and `exec`. */
    method Route(reply: Reply, r: Redirect)
      modifies this
      ensures Snapshot() == RouteStep(old(Snapshot()), reply, r, env.host)
    {
      match reply
      case Throws(e) =>
        Say([Crash(RemoteFailure(e))]);
      case Done(out) =>
        ghost var head: seq<Effect> := if out.ok then [] else [ErrorLine("Command error: " + out.message)];
        if !out.ok {
          Say([ErrorLine("Command error: " + out.message)]);
        }
        var stdout := out.stdout;
        if r.stderr == Some("-") {
          stdout := stdout + out.stderr;
        }
        assert stdout == RedirectedText(out, r);
        ghost var middle: seq<Effect>;
        if Truthy(r.stdout) {
          if r.stdout.value in env.host.unwritable {
            Say([Crash(WriteFailed(r.stdout.value))]);
            assert log == old(log) + (head + [Crash(WriteFailed(r.stdout.value))]);
            return;
          }
          Say([FileWritten(r.stdout.value, stdout)]);
          middle := [FileWritten(r.stdout.value, stdout)];
        } else {
          Say([Stdout(out.stdout)]);
          middle := [Stdout(out.stdout)];
        }
        ghost var tail: seq<Effect> := if Truthy(r.stderr) && r.stderr.value != "-" then [Stderr(out.stderr)] else [];
        if Truthy(r.stderr) && r.stderr.value != "-" {
          Say([Stderr(out.stderr)]);
        }
        assert RouteEffects(out, r) == head + middle + tail;
        assert log == old(log) + (head + middle + tail);
    }

    method Help(topic: Option<string>)
      modifies this
      ensures Snapshot() == HelpStep(old(Snapshot()), env.variant, topic)
    {
      if env.variant == Shell || !Truthy(topic) {
        Say([HelpListing]);
      } else if topic.value in CommandNames(env.variant) {
        Say([CommandHelp(topic.value)]);
      } else {
        Say([ErrorLine("Error: Command " + topic.value + " not found.")]);
      }
    }

    /** The listing loop of `set`, over the entries it is given. */
    method ListBindings(entries: Vars)
      modifies this
      ensures Snapshot() == Emit(old(Snapshot()), Listing(entries))
    {
      var i := 0;
      while i < |entries|
        invariant 0 <= i <= |entries|
        invariant exited == old(exited) && vars == old(vars) && requests == old(requests)
        invariant log == old(log) + Listing(entries[..i])
      {
        assert entries[..i + 1][..i] == entries[..i];
        log := log + [ListingLine(entries[i])];
        i := i + 1;
      }
      assert entries[..i] == entries;
    }

    method Set(name: Option<string>)
      modifies this
      ensures Snapshot() == SetStep(old(Snapshot()), name)
    {
      if !Truthy(name) {
        ListBindings(Entries(vars));
      } else {
        var parts := Split(name.value, '=');
        if |parts| == 1 {
          Say([Log(parts[0] + "=" + Lookup(vars, parts[0]).GetOr(""))]);
        } else {
          vars := Assign(vars, parts[0], Some(parts[1]));
        }
      }
    }

    method Upload(source: string, destination: string)
      modifies this
      ensures Snapshot() == UploadStep(old(Snapshot()), source, destination, env.host)
    {
      if source !in env.host.files {
        Say([Log("Upload aborted.")]);
        return;
      }
      Say([Log("Uploading " + source + "...")]);
      var reply := Call(UploadFile(source, destination));
      match reply
      case Throws(e) =>
        Say([Crash(RemoteFailure(e))]);
      case Done(out) =>
        if out.ok {
          Say([Log("File uploaded.")]);
        } else {
          Say([Log("Failed to upload file: " + out.message)]);
        }
    }

    method Download(source: string, localPath: Option<string>)
      modifies this
      ensures Snapshot() == DownloadStep(old(Snapshot()), source, localPath, env.host)
    {
      var destinationPath: string;
      if !Truthy(localPath) {
        destinationPath := Paths.Basename(source);
      } else {
        destinationPath := localPath.value;
      }
      var destDir := Paths.Dirname(destinationPath);
      if destDir !in env.host.dirs {
        Say([Log("Download aborted.")]);
        return;
      }
      Say([Log("Downloading " + source + "...")]);
      var reply := Call(DownloadFile(source, destinationPath));
      match reply
      case Throws(e) =>
        Say([Crash(RemoteFailure(e))]);
      case Done(out) =>
        if out.ok {
          Say([Log("File downloaded.")]);
        } else {
          Say([Log("Failed to download file: " + out.message)]);
        }
    }

    /** The action of one command. */
    method Dispatch(cmd: Command)
      modifies this
      ensures Snapshot() == Step(old(Snapshot()), cmd, env)
    {
      match cmd
      case HelpCmd(topic) => Help(topic);
      case ExitCmd => exited := true;
      case EchoCmd(words) => Say([Log(Join(words, " "))]);
      case SetCmd(name) => Set(name);
      case RunCmd(line, r) =>
        var reply := Call(RunShell(line));
        Route(reply, r);
      case ExecCmd(exe, args, r) =>
        if env.variant == RunOnGolem {
          Say([Usage("error: unknown command 'exec'")]);
        } else {
          var reply := Call(RunExec(exe, args));
          Route(reply, r);
        }
      case UploadCmd(source, destination) => Upload(source, destination);
      case DownloadCmd(source, localPath) => Download(source, localPath);
      case TimeCmd =>
        var now := env.host.clock(|log|);
        Say([ActivityTime(env.startDate, now - env.startDate)]);
    }

    /** `execCommand`. */
    method ExecCommand(statement: Statement)
      modifies this
      ensures Snapshot() == CommandStep(old(Snapshot()), statement, env)
    {
      match env.host.parse(env.variant, statement)
      case Invoke(cmd) => Dispatch(cmd);
      case ShowHelp(name) => Say([CommandHelp(name)]);
      case Rejected(message) => Say([Usage(message)]);
    }

    /**
     * `execLine`; `thrown` says the tokenizer's error escaped it, printed as the
     * action's `catch` prints it.
     */
    method ExecLine(line: string) returns (thrown: bool)
      modifies this
      ensures thrown == LineThrows(old(Snapshot()), line, env)
      ensures Snapshot() == LineStep(old(Snapshot()), line, env)
    {
      var help := HandleHelp(line);
      var tokenized := if help.Some? then Success(help.value) else env.host.tokenize(line, vars);
      if tokenized.Failure? {
        Say([Crash(TokenizeFailed(tokenized.error))]);
        return true;
      }
      thrown := false;
      var built := ParseTokens(tokenized.value);
      if built.Failure? {
        Say([ErrorLine(built.error.Message())]);
        return;
      }
      var commands := built.value;
      var i := 0;
      while i < |commands|
        invariant 0 <= i <= |commands|
        invariant RunStatements(Snapshot(), commands[i..], env) == LineStep(old(Snapshot()), line, env)
      {
        ExecCommand(commands[i]);
        if exited {
          return;
        }
        i := i + 1;
      }
    }

    /** The line loop of `execFile`; `thrown` when a line threw and ended it. */
    method ExecFile(lines: seq<string>) returns (thrown: bool)
      modifies this
      ensures (Snapshot(), thrown) == RunLines(old(Snapshot()), lines, env)
    {
      for i := 0 to |lines|
        invariant RunLines(Snapshot(), lines[i..], env) == RunLines(old(Snapshot()), lines, env)
      {
        thrown := ExecLine(lines[i]);
        if thrown {
          return;
        }
      }
      thrown := false;
    }

    /**
     * The file loop of `runOnGolemAction`: each script in turn; a missing one, or a line
     * that throws, ends the loop (`aborted`).
     */
    method ExecFiles(files: seq<string>) returns (aborted: bool)
      modifies this
      ensures (Snapshot(), aborted) == RunFiles(old(Snapshot()), files, env)
    {
      aborted := false;
      var i := 0;
      while i < |files|
        invariant 0 <= i <= |files|
        invariant RunFiles(Snapshot(), files[i..], env) == RunFiles(old(Snapshot()), files, env)
      {
        if files[i] !in env.host.scripts {
          Say([Crash(ScriptMissing(files[i]))]);
          return true;
        }
        var thrown := ExecFile(env.host.scripts[files[i]]);
        if thrown {
          return true;
        }
        i := i + 1;
      }
    }

    /** `execConsole`, with the lines typed at the prompt as input. */
    method Console(input: seq<string>) returns (ending: Ending)
      modifies this
      ensures (Snapshot(), ending) == ShellDriver.Console(Emit(old(Snapshot()), [Log(Banner)]), input, env)
    {
      Say([Log(Banner)]);
      var i := 0;
      while i < |input|
        invariant 0 <= i <= |input|
        invariant ShellDriver.Console(Snapshot(), input[i..], env)
               == ShellDriver.Console(Emit(old(Snapshot()), [Log(Banner)]), input, env)
      {
        var thrown := ExecLine(input[i]);
        if thrown || exited {
          return Finished;
        }
        i := i + 1;
      }
      return InputClosed;
    }
  }

  /** `runOnGolemAction` once the executor exists; `setupError` is what `context.magic()` throws. */
  method RunOnGolemAction(files: seq<string>, o: DriverOptions, processEnv: Vars, setupError: Option<string>,
                          env: Env, input: seq<string>) returns (session: Session, ending: Ending)
    ensures (session.Snapshot(), ending) == Drive(files, o, processEnv, setupError, env, input)
  {
    session := new Session(env, if o.env then processEnv else []);
    ending := Finished;
    if setupError.Some? {
      session.Say([Crash(SetupFailed(setupError.value))]);
    } else {
      var aborted := session.ExecFiles(files);
      if !aborted && Truthy(o.execute) {
        aborted := session.ExecLine(o.execute.value);
      }
      if !aborted {
        if ConsoleWanted(files, o) {
          ending := session.Console(input);
        }
      }
    }
    if ending == Finished {
      session.Say([Log(TerminatingLine), Terminated]);
    }
  }
}
