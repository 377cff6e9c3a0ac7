/**
 * `runOnGolemAction` of src/run-on-golem/run-on-golem.action.ts: the order in which
 * script files, the `--execute` line and the interactive console run, and the final
 * termination of the task executor.
 */
module ShellDriver {
  import opened Wrappers
  import opened Statements
  import opened ShellSpec

  /** The options of `run-on-golem` that the sequencing reads. */
  datatype DriverOptions = DriverOptions(execute: Option<string>, interactive: bool, env: bool)

  /**
   * How the action ends: `Finished` when its `finally` block runs, `InputClosed` when
   * standard input ends before an `exit` or an error (the console's promise never
   * settles then).
   */
  datatype Ending = Finished | InputClosed

  const Banner := "Type ? for help, exit to end the session."
  const TerminatingLine := "Terminating task executor..."

  /** The console runs iff neither a command nor a file was given, or `--interactive` is set. */
  predicate ConsoleWanted(files: seq<string>, o: DriverOptions) {
    (!Truthy(o.execute) && |files| == 0) || o.interactive
  }

  /**
   * `execFile` for each script in order; a missing script, or a line that throws, aborts
   * the loop (`true`).
   */
  function RunFiles(s: State, files: seq<string>, env: Env): (State, bool)
    decreases |files|
  {
    if |files| == 0 then (s, false)
    else if files[0] !in env.host.scripts then (Emit(s, [Crash(ScriptMissing(files[0]))]), true)
    else
      var (s1, thrown) := RunLines(s, env.host.scripts[files[0]], env);
      if thrown then (s1, true) else RunFiles(s1, files[1..], env)
  }

  /**
   * The console's line loop: it resolves after the first line that leaves `exited` set,
   * and rejects, which also ends the action, at the first line that throws.
   */
  function Console(s: State, input: seq<string>, env: Env): (State, Ending)
    decreases |input|
  {
    if |input| == 0 then (s, InputClosed)
    else
      var s1 := LineStep(s, input[0], env);
      if LineThrows(s, input[0], env) || s1.exited then (s1, Finished) else Console(s1, input[1..], env)
  }

  /** The `finally` block. */
  function Finish(s: State): State {
    Emit(s, [Log(TerminatingLine), Terminated])
  }

  /** The initial variables: the process environment with `--env`, otherwise none. */
  function InitialState(o: DriverOptions, processEnv: Vars): State {
    State(false, if o.env then processEnv else [], [], [])
  }

  /** The state after the files and the `--execute` line, or the aborted state. */
  function BatchPhase(files: seq<string>, o: DriverOptions, processEnv: Vars, env: Env): (State, bool) {
    var (s1, aborted) := RunFiles(InitialState(o, processEnv), files, env);
    if aborted then (s1, true)
    else if Truthy(o.execute) then (LineStep(s1, o.execute.value, env), LineThrows(s1, o.execute.value, env))
    else (s1, false)
  }

  /**
   * The whole action; `setupError` is the error that `context.magic()` throws, if any.
   * The result is what the session has done and how the action ended.
   */
  function Drive(files: seq<string>, o: DriverOptions, processEnv: Vars, setupError: Option<string>,
                 env: Env, input: seq<string>): (State, Ending)
  {
    if setupError.Some? then
      (Finish(Emit(InitialState(o, processEnv), [Crash(SetupFailed(setupError.value))])), Finished)
    else
      var (s2, aborted) := BatchPhase(files, o, processEnv, env);
      if aborted || !ConsoleWanted(files, o) then (Finish(s2), Finished)
      else
        var (s3, ending) := Console(Emit(s2, [Log(Banner)]), input, env);
        if ending == InputClosed then (s3, InputClosed) else (Finish(s3), Finished)
  }

  lemma {:induction false} RunFilesExtends(s: State, files: seq<string>, env: Env)
    ensures Extends(s, RunFiles(s, files, env).0)
    decreases |files|
  {
    if |files| > 0 && files[0] in env.host.scripts {
      var (s1, thrown) := RunLines(s, env.host.scripts[files[0]], env);
      RunLinesExtends(s, env.host.scripts[files[0]], env);
      if !thrown {
        RunFilesExtends(s1, files[1..], env);
        ExtendsTrans(s, s1, RunFiles(s1, files[1..], env).0);
      }
    }
  }

  /** The last effect is the tokenizer error that a rejected line printed. */
  predicate EndsWithThrow(s: State) {
    |s.log| > 0 && s.log[|s.log| - 1].Crash? && s.log[|s.log| - 1].fault.TokenizeFailed?
  }

  lemma {:induction false} ConsoleExtends(s: State, input: seq<string>, env: Env)
    ensures Extends(s, Console(s, input, env).0)
    ensures Console(s, input, env).1 == Finished ==>
      Console(s, input, env).0.exited || EndsWithThrow(Console(s, input, env).0)
    decreases |input|
  {
    if |input| > 0 {
      var s1 := LineStep(s, input[0], env);
      LineStepExtends(s, input[0], env);
      if !LineThrows(s, input[0], env) && !s1.exited {
        ConsoleExtends(s1, input[1..], env);
        ExtendsTrans(s, s1, Console(s1, input[1..], env).0);
      }
    }
  }

  /**
   * Every run that reaches its end terminates the executor as its very last effect; the
   * only run that does not is a console whose input ended without `exit`.
   */
  lemma TerminateAtEnd(files: seq<string>, o: DriverOptions, processEnv: Vars, setupError: Option<string>,
                       env: Env, input: seq<string>)
    ensures var (s, ending) := Drive(files, o, processEnv, setupError, env, input);
      (ending == Finished ==> |s.log| >= 2 && s.log[|s.log| - 2..] == [Log(TerminatingLine), Terminated])
      && (ending == InputClosed ==> setupError.None? && ConsoleWanted(files, o) && Terminated !in s.log)
  {
    var (s, ending) := Drive(files, o, processEnv, setupError, env, input);
    if ending == InputClosed {
      var (s2, aborted) := BatchPhase(files, o, processEnv, env);
      var s0 := InitialState(o, processEnv);
      var (s1, _) := RunFiles(s0, files, env);
      FilesNeverTerminate(s0, files, env);
      if Truthy(o.execute) && !aborted {
        LineNeverTerminates(s1, o.execute.value, env);
      }
      ConsoleNeverTerminates(Emit(s2, [Log(Banner)]), input, env);
    }
  }

  /** Nothing a line does terminates the executor. */
  lemma {:induction false} ConsoleNeverTerminates(s: State, input: seq<string>, env: Env)
    ensures Terminated !in s.log ==> Terminated !in Console(s, input, env).0.log
    decreases |input|
  {
    if |input| > 0 {
      var s1 := LineStep(s, input[0], env);
      LineNeverTerminates(s, input[0], env);
      if !LineThrows(s, input[0], env) && !s1.exited {
        ConsoleNeverTerminates(s1, input[1..], env);
      }
    }
  }

  lemma LineNeverTerminates(s: State, line: string, env: Env)
    ensures Terminated !in s.log ==> Terminated !in LineStep(s, line, env).log
  {
    match LineTokens(line, s.vars, env.host)
    case Failure(_) =>
    case Success(tokens) =>
      match BuildAsWritten(tokens)
      case Failure(_) =>
      case Success(statements) => StatementsNeverTerminate(s, statements, env);
  }

  lemma {:induction false} StatementsNeverTerminate(s: State, statements: seq<Statement>, env: Env)
    ensures Terminated !in s.log ==> Terminated !in RunStatements(s, statements, env).log
    decreases |statements|
  {
    if |statements| > 0 {
      var s1 := CommandStep(s, statements[0], env);
      CommandNeverTerminates(s, statements[0], env);
      if !s1.exited {
        StatementsNeverTerminate(s1, statements[1..], env);
      }
    }
  }

  lemma CommandNeverTerminates(s: State, statement: Statement, env: Env)
    ensures Terminated !in s.log ==> Terminated !in CommandStep(s, statement, env).log
  {
    match env.host.parse(env.variant, statement)
    case Invoke(cmd) => StepNeverTerminates(s, cmd, env);
    case ShowHelp(_) =>
    case Rejected(_) =>
  }

  lemma RouteNeverTerminates(s: State, reply: Reply, r: Redirect, host: Host)
    ensures Terminated !in s.log ==> Terminated !in RouteStep(s, reply, r, host).log
  {
    if reply.Done? {
      var e := RouteEffects(reply.outcome, r);
      assert Terminated !in e;
    }
  }

  lemma UploadNeverTerminates(s: State, source: string, destination: string, host: Host)
    ensures Terminated !in s.log ==> Terminated !in UploadStep(s, source, destination, host).log
  {
  }

  lemma DownloadNeverTerminates(s: State, source: string, localPath: Option<string>, host: Host)
    ensures Terminated !in s.log ==> Terminated !in DownloadStep(s, source, localPath, host).log
  {
  }

  lemma StepNeverTerminates(s: State, cmd: Command, env: Env)
    ensures Terminated !in s.log ==> Terminated !in Step(s, cmd, env).log
  {
    match cmd
    case SetCmd(name) =>
      if !Truthy(name) {
        ListingShape(Entries(s.vars));
      }
    case RunCmd(line, r) =>
      RouteNeverTerminates(Call(s, RunShell(line)), env.host.reply(|s.requests|, RunShell(line)), r, env.host);
    case ExecCmd(exe, args, r) =>
      RouteNeverTerminates(Call(s, RunExec(exe, args)), env.host.reply(|s.requests|, RunExec(exe, args)), r, env.host);
    case UploadCmd(source, destination) => UploadNeverTerminates(s, source, destination, env.host);
    case DownloadCmd(source, localPath) => DownloadNeverTerminates(s, source, localPath, env.host);
    case _ =>
  }

  lemma {:induction false} LinesNeverTerminate(s: State, lines: seq<string>, env: Env)
    ensures Terminated !in s.log ==> Terminated !in RunLines(s, lines, env).0.log
    decreases |lines|
  {
    if |lines| > 0 {
      LineNeverTerminates(s, lines[0], env);
      if !LineThrows(s, lines[0], env) {
        LinesNeverTerminate(LineStep(s, lines[0], env), lines[1..], env);
      }
    }
  }

  lemma {:induction false} FilesNeverTerminate(s: State, files: seq<string>, env: Env)
    ensures Terminated !in s.log ==> Terminated !in RunFiles(s, files, env).0.log
    decreases |files|
  {
    if |files| > 0 && files[0] in env.host.scripts {
      var (s1, thrown) := RunLines(s, env.host.scripts[files[0]], env);
      LinesNeverTerminate(s, env.host.scripts[files[0]], env);
      if !thrown {
        FilesNeverTerminate(s1, files[1..], env);
      }
    }
  }

  /**
   * Script files run before the `--execute` line, and that line runs whatever `exited`
   * the files left behind.
   */
  lemma FilesThenExecute(files: seq<string>, o: DriverOptions, processEnv: Vars, env: Env, input: seq<string>)
    requires Truthy(o.execute)
    ensures var (filesDone, aborted) := RunFiles(InitialState(o, processEnv), files, env);
      var run := Drive(files, o, processEnv, None, env, input);
      if aborted then run == (Finish(filesDone), Finished)
      else LineStep(filesDone, o.execute.value, env).log <= run.0.log
  {
    var (s2, aborted) := BatchPhase(files, o, processEnv, env);
    if !aborted && ConsoleWanted(files, o) {
      ConsoleExtends(Emit(s2, [Log(Banner)]), input, env);
    }
  }


  /**
   * After the batch phase the console banner follows iff the console is wanted; otherwise
   * the executor is terminated right away.
   */
  lemma ConsoleIffWanted(files: seq<string>, o: DriverOptions, processEnv: Vars, env: Env, input: seq<string>)
    requires !BatchPhase(files, o, processEnv, env).1
    ensures var batch := BatchPhase(files, o, processEnv, env).0;
      var s := Drive(files, o, processEnv, None, env, input).0;
      (ConsoleWanted(files, o) ==> batch.log + [Log(Banner)] <= s.log)
      && (!ConsoleWanted(files, o) ==> s == Finish(batch))
  {
    var batch := BatchPhase(files, o, processEnv, env).0;
    if ConsoleWanted(files, o) {
      ConsoleExtends(Emit(batch, [Log(Banner)]), input, env);
    }
  }

  /** The console stops after the first line that leaves `exited` set, even a first line. */
  lemma ConsoleStopsAtExit(s: State, line: string, rest: seq<string>, env: Env)
    requires LineStep(s, line, env).exited
    ensures Console(s, [line] + rest, env) == (LineStep(s, line, env), Finished)
  {
  }

  /** A console line that throws ends the console and, through the `finally`, the action. */
  lemma ConsoleStopsAtThrow(s: State, line: string, rest: seq<string>, env: Env)
    requires LineThrows(s, line, env)
    ensures Console(s, [line] + rest, env) == (LineStep(s, line, env), Finished)
  {
  }

  /**
   * A script line that throws stops everything after it: later lines and scripts, the
   * `--execute` line and the console; the executor is then terminated right away.
   */
  lemma ThrowInScriptEndsRun(files: seq<string>, i: nat, lines: seq<string>, o: DriverOptions,
                             processEnv: Vars, env: Env, input: seq<string>)
    requires i < |files| && files[i] in env.host.scripts && lines <= env.host.scripts[files[i]]
    requires var before := RunFiles(InitialState(o, processEnv), files[..i], env);
      !before.1 && RunLines(before.0, lines, env).1
    ensures var before := RunFiles(InitialState(o, processEnv), files[..i], env).0;
      Drive(files, o, processEnv, None, env, input) == (Finish(RunLines(before, lines, env).0), Finished)
  {
    var s0 := InitialState(o, processEnv);
    var before := RunFiles(s0, files[..i], env).0;
    var script := env.host.scripts[files[i]];
    assert script == lines + script[|lines|..];
    LinesInOrder(before, lines, script[|lines|..], env);
    FilesSplit(s0, files[..i], files[i..], env);
    assert files[..i] + files[i..] == files;
    assert files[i..][0] == files[i];
  }

  /**
   * The scripts run one after the other: the file loop over two lists is the loop over
   * each in turn, unless the first list aborts, which ends the loop there.
   */
  lemma {:induction false} FilesSplit(s: State, first: seq<string>, rest: seq<string>, env: Env)
    ensures var (s1, aborted) := RunFiles(s, first, env);
      RunFiles(s, first + rest, env) == if aborted then (s1, true) else RunFiles(s1, rest, env)
    decreases |first|
  {
    var all := first + rest;
    if |first| == 0 {
      assert all == rest;
    } else {
      assert all[0] == first[0] && all[1..] == first[1..] + rest;
      if first[0] in env.host.scripts {
        var (s1, thrown) := RunLines(s, env.host.scripts[first[0]], env);
        if !thrown {
          FilesSplit(s1, first[1..], rest, env);
          assert RunFiles(s, all, env) == RunFiles(s1, all[1..], env);
        }
      }
    }
  }
}
