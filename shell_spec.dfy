/**
 * The command table of the task shell (src/run-on-golem/shell-program.ts and its older
 * twin src/shell/shell-program.ts) and the line, statement and file sequencing of
 * src/run-on-golem/run-on-golem.action.ts, as functions on a value of the session
 * record. ShellSession executes the same steps imperatively and is proved equal.
 */
module ShellSpec {
  import opened Wrappers
  import opened Text
  import opened Statements
  import Paths

  /** Which of the two command tables is in use. */
  datatype Variant = RunOnGolem | Shell

  /** The `-o/--stdout <file>` and `-e/--stderr <file>` options of `run` and `exec`. */
  datatype Redirect = Redirect(stdout: Option<string>, stderr: Option<string>)

  /** A command with its arguments, as Commander hands them to the action. */
  datatype Command =
    | HelpCmd(topic: Option<string>)
    | ExitCmd
    | EchoCmd(words: seq<string>)
    | SetCmd(name: Option<string>)
    | RunCmd(line: string, redirect: Redirect)
    | ExecCmd(executable: string, arguments: seq<string>, redirect: Redirect)
    | UploadCmd(source: string, destination: string)
    | DownloadCmd(source: string, localPath: Option<string>)
    | TimeCmd

  /**
   * What Commander makes of a statement: an action to run, a help text it prints
   * itself, or a usage error it prints itself before throwing `CommanderError`.
   */
  datatype Parsed = Invoke(cmd: Command) | ShowHelp(name: string) | Rejected(message: string)

  /** A call on the remote work context. */
  datatype Request =
    | RunShell(line: string)
    | RunExec(executable: string, arguments: seq<string>)
    | UploadFile(source: string, destination: string)
    | DownloadFile(source: string, destination: string)

  /** The `result`, `message`, `stdout` and `stderr` of a remote result. */
  datatype Outcome = Outcome(ok: bool, message: string, stdout: string, stderr: string)
  datatype Reply = Done(outcome: Outcome) | Throws(error: string)

  /** An error that no handler recognises; it is printed with `console.error(e)`. */
  datatype Fault = RemoteFailure(error: string) | WriteFailed(path: string)
                 | ScriptMissing(path: string) | SetupFailed(error: string)
                 | TokenizeFailed(error: string)

  /** Everything the shell makes observable, in order. */
  datatype Effect =
    | Log(line: string)                    // console.log
    | ErrorLine(line: string)              // console.error
    | Stdout(text: string)                 // process.stdout.write
    | Stderr(text: string)                 // process.stderr.write
    | FileWritten(path: string, text: string)
    | HelpListing                          // the table of all commands
    | CommandHelp(name: string)            // the help of one command
    | Usage(message: string)               // a usage error printed by Commander
    | Crash(fault: Fault)
    | ActivityTime(start: int, duration: int)
    | Terminated                           // the task executor was terminated

  /** One shell variable; values may be `undefined`, as in the source's `VarsType`. */
  datatype Binding = Binding(key: string, value: Option<string>)
  /** The variables in the order they were created (Entries gives the listing order). */
  type Vars = seq<Binding>

  /**
   * The world outside the session: which local files and directories exist, which
   * paths cannot be written, the script files, the clock, the remote provider, the
   * `shell-quote` tokenizer and Commander's parser.
   */
  datatype Host = Host(
    files: set<string>,
    dirs: set<string>,
    unwritable: set<string>,
    scripts: map<string, seq<string>>,
    clock: nat -> int,
    reply: (nat, Request) -> Reply,
    tokenize: (string, Vars) -> Result<seq<Token>, string>,
    parse: (Variant, seq<string>) -> Parsed)

  datatype Env = Env(variant: Variant, startDate: int, host: Host)

  /** `ProgramContext` minus the remote handle, plus what the session has done so far. */
  datatype State = State(exited: bool, vars: Vars, log: seq<Effect>, requests: seq<Request>)

  function Emit(s: State, e: seq<Effect>): State {
    s.(log := s.log + e)
  }

  /** The commands registered on each program. */
  function CommandNames(v: Variant): seq<string> {
    match v
    case RunOnGolem => ["help", "exit", "echo", "set", "run", "upload", "download", "time"]
    case Shell => ["help", "exit", "echo", "set", "run", "exec", "upload", "download", "time"]
  }

  // ---------------------------------------------------------------- variables

  predicate DistinctKeys(vars: Vars) {
    forall i, j :: 0 <= i < j < |vars| ==> vars[i].key != vars[j].key
  }

  function Keys(vars: Vars): set<string> {
    set b | b in vars :: b.key
  }

  /** `vars[key]`: `undefined` is `None`, whether the key is missing or its value is. */
  function Lookup(vars: Vars, key: string): Option<string> {
    if |vars| == 0 then None
    else if vars[0].key == key then vars[0].value
    else Lookup(vars[1..], key)
  }

  /** `vars[key] = value`: an existing key keeps its place, a new key goes last. */
  function Assign(vars: Vars, key: string, value: Option<string>): (r: Vars)
    ensures |r| == (if key in Keys(vars) then |vars| else |vars| + 1)
  {
    if |vars| == 0 then [Binding(key, value)]
    else if vars[0].key == key then [Binding(key, value)] + vars[1..]
    else
      assert key in Keys(vars[1..]) <==> key in Keys(vars) by {
        assert vars == [vars[0]] + vars[1..];
      }
      [vars[0]] + Assign(vars[1..], key, value)
  }

  /**
   * An array index in the sense of ECMAScript: the canonical decimal form of an integer
   * below 2^32 - 1 ("0", or digits without a leading zero).
   */
  predicate IsArrayIndex(k: string) {
    |k| > 0 && AllDigits(k) && (k[0] != '0' || |k| == 1) && DigitsNat(k) < 0xFFFF_FFFF
  }

  /** The numeric value of an array-index key; 0 for any other key. */
  function IndexValue(k: string): nat {
    if IsArrayIndex(k) then DigitsNat(k) else 0
  }

  /** The bindings whose keys are array indices, in insertion order. */
  function IndexEntries(vars: Vars): Vars {
    if |vars| == 0 then []
    else (if IsArrayIndex(vars[0].key) then [vars[0]] else []) + IndexEntries(vars[1..])
  }

  /** The other bindings, in insertion order. */
  function OtherEntries(vars: Vars): Vars {
    if |vars| == 0 then []
    else (if IsArrayIndex(vars[0].key) then [] else [vars[0]]) + OtherEntries(vars[1..])
  }

  predicate IndexAscending(vars: Vars) {
    forall i, j :: 0 <= i < j < |vars| ==> IndexValue(vars[i].key) <= IndexValue(vars[j].key)
  }

  function InsertByIndex(b: Binding, sorted: Vars): Vars {
    if |sorted| == 0 || IndexValue(b.key) <= IndexValue(sorted[0].key) then [b] + sorted
    else [sorted[0]] + InsertByIndex(b, sorted[1..])
  }

  function SortByIndex(vars: Vars): Vars {
    if |vars| == 0 then [] else InsertByIndex(vars[0], SortByIndex(vars[1..]))
  }

  /**
   * `Object.entries(vars)`: the array-index keys first in ascending numeric order, then the
   * other keys in the order they were created.
   */
  function Entries(vars: Vars): Vars {
    SortByIndex(IndexEntries(vars)) + OtherEntries(vars)
  }

  lemma ConsAscending(x: Binding, v: Vars)
    requires IndexAscending(v) && (|v| > 0 ==> IndexValue(x.key) <= IndexValue(v[0].key))
    ensures IndexAscending([x] + v)
  {
    var r := [x] + v;
    forall i, j | 0 <= i < j < |r| ensures IndexValue(r[i].key) <= IndexValue(r[j].key) {
      assert r[j] == v[j - 1];
      if i > 0 {
        assert r[i] == v[i - 1];
      }
    }
  }

  lemma {:induction false} AscendingTail(v: Vars)
    requires |v| > 0 && IndexAscending(v)
    ensures IndexAscending(v[1..])
  {
    var tail := v[1..];
    forall i, j | 0 <= i < j < |tail| ensures IndexValue(tail[i].key) <= IndexValue(tail[j].key) {
      assert tail[i] == v[i + 1] && tail[j] == v[j + 1];
    }
  }

  lemma {:induction false} InsertByIndexSorted(b: Binding, sorted: Vars)
    requires IndexAscending(sorted)
    ensures var r := InsertByIndex(b, sorted);
      IndexAscending(r) && |r| > 0 && (r[0] == b || r[0] == sorted[0])
    decreases |sorted|
  {
    if |sorted| == 0 || IndexValue(b.key) <= IndexValue(sorted[0].key) {
      ConsAscending(b, sorted);
    } else {
      AscendingTail(sorted);
      InsertByIndexSorted(b, sorted[1..]);
      var ins := InsertByIndex(b, sorted[1..]);
      if ins[0] != b {
        assert ins[0] == sorted[1] && IndexValue(sorted[0].key) <= IndexValue(sorted[1].key);
      }
      ConsAscending(sorted[0], ins);
    }
  }

  lemma {:induction false} InsertByIndexPermutes(b: Binding, sorted: Vars)
    ensures multiset(InsertByIndex(b, sorted)) == multiset(sorted) + multiset{b}
    decreases |sorted|
  {
    if |sorted| > 0 && IndexValue(b.key) > IndexValue(sorted[0].key) {
      InsertByIndexPermutes(b, sorted[1..]);
      assert sorted == [sorted[0]] + sorted[1..];
    }
  }

  lemma {:induction false} SortByIndexSorted(vars: Vars)
    ensures IndexAscending(SortByIndex(vars))
    ensures multiset(SortByIndex(vars)) == multiset(vars)
    decreases |vars|
  {
    if |vars| > 0 {
      SortByIndexSorted(vars[1..]);
      InsertByIndexSorted(vars[0], SortByIndex(vars[1..]));
      InsertByIndexPermutes(vars[0], SortByIndex(vars[1..]));
      assert vars == [vars[0]] + vars[1..];
    }
  }

  lemma {:induction false} EntriesSplit(vars: Vars)
    ensures multiset(IndexEntries(vars)) + multiset(OtherEntries(vars)) == multiset(vars)
    decreases |vars|
  {
    if |vars| > 0 {
      var head, tail := vars[0], vars[1..];
      EntriesSplit(tail);
      assert vars == [head] + tail;
      if IsArrayIndex(head.key) {
        assert IndexEntries(vars) == [head] + IndexEntries(tail);
        assert OtherEntries(vars) == [] + OtherEntries(tail);
      } else {
        assert IndexEntries(vars) == [] + IndexEntries(tail);
        assert OtherEntries(vars) == [head] + OtherEntries(tail);
      }
    }
  }

  lemma {:induction false} IndexEntriesAreIndices(vars: Vars)
    ensures forall b | b in IndexEntries(vars) :: IsArrayIndex(b.key)
    decreases |vars|
  {
    if |vars| > 0 {
      IndexEntriesAreIndices(vars[1..]);
    }
  }

  /**
   * `Object.entries` lists every binding once (a permutation of the variables); the
   * array-index keys come first, in ascending numeric order, and the other keys follow in
   * the order they were created.
   */
  lemma EntriesOrder(vars: Vars)
    ensures multiset(Entries(vars)) == multiset(vars)
    ensures var e, n := Entries(vars), |IndexEntries(vars)|;
      n <= |e|
      && (forall i :: 0 <= i < n ==> IsArrayIndex(e[i].key))
      && (forall i, j :: 0 <= i < j < n ==> DigitsNat(e[i].key) <= DigitsNat(e[j].key))
      && e[n..] == OtherEntries(vars)
  {
    var sorted := SortByIndex(IndexEntries(vars));
    SortByIndexSorted(IndexEntries(vars));
    EntriesSplit(vars);
    IndexEntriesAreIndices(vars);
    var e := Entries(vars);
    assert |sorted| == |multiset(sorted)| == |multiset(IndexEntries(vars))| == |IndexEntries(vars)|;
    forall i | 0 <= i < |sorted| ensures IsArrayIndex(e[i].key) {
      assert e[i] == sorted[i] && sorted[i] in multiset(IndexEntries(vars));
    }
    assert e[|sorted|..] == OtherEntries(vars);
  }

  lemma EntriesLength(vars: Vars)
    ensures |Entries(vars)| == |vars|
  {
    EntriesOrder(vars);
    assert |Entries(vars)| == |multiset(Entries(vars))|;
  }

  lemma {:induction false} NoIndexKeys(vars: Vars)
    requires forall b | b in vars :: !IsArrayIndex(b.key)
    ensures IndexEntries(vars) == [] && OtherEntries(vars) == vars
    decreases |vars|
  {
    if |vars| > 0 {
      assert vars[0] in vars;
      assert forall b | b in vars[1..] :: b in vars;
      NoIndexKeys(vars[1..]);
      assert vars == [vars[0]] + vars[1..];
    }
  }

  /** Without array-index keys, `Object.entries` is insertion order. */
  lemma EntriesInsertionOrder(vars: Vars)
    requires forall b | b in vars :: !IsArrayIndex(b.key)
    ensures Entries(vars) == vars
  {
    NoIndexKeys(vars);
  }

  function ListingLine(b: Binding): Effect {
    Log(b.key + "=" + b.value.GetOr(""))
  }

  /** The lines of `set` without a name: one per variable, in order. */
  function Listing(vars: Vars): seq<Effect> {
    if |vars| == 0 then [] else Listing(vars[..|vars| - 1]) + [ListingLine(vars[|vars| - 1])]
  }

  // ------------------------------------------------------------------ commands

  function HelpStep(s: State, v: Variant, topic: Option<string>): State {
    match v
    case Shell => Emit(s, [HelpListing])
    case RunOnGolem =>
      if !Truthy(topic) then Emit(s, [HelpListing])
      else if topic.value in CommandNames(v) then Emit(s, [CommandHelp(topic.value)])
      else Emit(s, [ErrorLine("Error: Command " + topic.value + " not found.")])
  }

  function SetStep(s: State, name: Option<string>): State {
    if !Truthy(name) then Emit(s, Listing(Entries(s.vars)))
    else
      var parts := Split(name.value, '=');
      if |parts| == 1 then Emit(s, [Log(parts[0] + "=" + Lookup(s.vars, parts[0]).GetOr(""))])
      else s.(vars := Assign(s.vars, parts[0], Some(parts[1])))
  }

  /** The text `run` and `exec` send to the `--stdout` file: stdout, plus stderr for `--stderr -`. */
  function RedirectedText(out: Outcome, r: Redirect): string {
    if r.stderr == Some("-") then out.stdout + out.stderr else out.stdout
  }

  /** The effects of routing a remote result whose file write, if any, succeeds. */
  function RouteEffects(out: Outcome, r: Redirect): seq<Effect> {
    (if out.ok then [] else [ErrorLine("Command error: " + out.message)])
    + (if Truthy(r.stdout) then [FileWritten(r.stdout.value, RedirectedText(out, r))] else [Stdout(out.stdout)])
    + (if Truthy(r.stderr) && r.stderr.value != "-" then [Stderr(out.stderr)] else [])
  }

  /**
   * "Command error" is printed exactly for a failed result; the `--stdout` file gets the
   * redirected text exactly when one is named, the console gets stdout exactly when not,
   * and the process stderr gets stderr exactly for a `--stderr` other than `-`.
   */
  lemma RouteEffectsMeaning(out: Outcome, r: Redirect)
    ensures var e := RouteEffects(out, r);
      (ErrorLine("Command error: " + out.message) in e <==> !out.ok)
      && (forall p, t :: FileWritten(p, t) in e <==>
            Truthy(r.stdout) && p == r.stdout.value && t == RedirectedText(out, r))
      && (forall t :: Stdout(t) in e <==> !Truthy(r.stdout) && t == out.stdout)
      && (forall t :: Stderr(t) in e <==> Truthy(r.stderr) && r.stderr.value != "-" && t == out.stderr)
  {
  }

  /** The output routing shared by `run` and `exec`. */
  function RouteStep(s: State, reply: Reply, r: Redirect, host: Host): State {
    match reply
    case Throws(e) => Emit(s, [Crash(RemoteFailure(e))])
    case Done(out) =>
      if Truthy(r.stdout) && r.stdout.value in host.unwritable then
        Emit(s, (if out.ok then [] else [ErrorLine("Command error: " + out.message)])
                + [Crash(WriteFailed(r.stdout.value))])
      else Emit(s, RouteEffects(out, r))
  }

  /** Record a remote call; its reply is the provider's answer to the call's position. */
  function Call(s: State, req: Request): State {
    s.(requests := s.requests + [req])
  }

  function RemoteStep(s: State, req: Request, r: Redirect, host: Host): State {
    RouteStep(Call(s, req), host.reply(|s.requests|, req), r, host)
  }

  function TransferReport(s: State, reply: Reply, success: string, failure: string): State {
    match reply
    case Throws(e) => Emit(s, [Crash(RemoteFailure(e))])
    case Done(out) => Emit(s, [Log(if out.ok then success else failure + out.message)])
  }

  function UploadStep(s: State, source: string, destination: string, host: Host): State {
    if source !in host.files then Emit(s, [Log("Upload aborted.")])
    else
      var req := UploadFile(source, destination);
      TransferReport(Call(Emit(s, [Log("Uploading " + source + "...")]), req),
                     host.reply(|s.requests|, req), "File uploaded.", "Failed to upload file: ")
  }

  /** The local path of `download`: the given one, or the basename of the remote path. */
  function DownloadTarget(source: string, localPath: Option<string>): string {
    if Truthy(localPath) then localPath.value else Paths.Basename(source)
  }

  function DownloadStep(s: State, source: string, localPath: Option<string>, host: Host): State {
    var target := DownloadTarget(source, localPath);
    if Paths.Dirname(target) !in host.dirs then Emit(s, [Log("Download aborted.")])
    else
      var req := DownloadFile(source, target);
      TransferReport(Call(Emit(s, [Log("Downloading " + source + "...")]), req),
                     host.reply(|s.requests|, req), "File downloaded.", "Failed to download file: ")
  }

  /** The action of one command. */
  function Step(s: State, cmd: Command, env: Env): State {
    match cmd
    case HelpCmd(topic) => HelpStep(s, env.variant, topic)
    case ExitCmd => s.(exited := true)
    case EchoCmd(words) => Emit(s, [Log(Join(words, " "))])
    case SetCmd(name) => SetStep(s, name)
    case RunCmd(line, r) => RemoteStep(s, RunShell(line), r, env.host)
    case ExecCmd(exe, args, r) =>
      if env.variant == RunOnGolem then Emit(s, [Usage("error: unknown command 'exec'")])
      else RemoteStep(s, RunExec(exe, args), r, env.host)
    case UploadCmd(source, destination) => UploadStep(s, source, destination, env.host)
    case DownloadCmd(source, localPath) => DownloadStep(s, source, localPath, env.host)
    case TimeCmd => Emit(s, [ActivityTime(env.startDate, env.host.clock(|s.log|) - env.startDate)])
  }

  // ---------------------------------------------------- statements, lines, files

  /** `execCommand`: every outcome of Commander and the action is caught. */
  function CommandStep(s: State, statement: Statement, env: Env): State {
    match env.host.parse(env.variant, statement)
    case Invoke(cmd) => Step(s, cmd, env)
    case ShowHelp(name) => Emit(s, [CommandHelp(name)])
    case Rejected(message) => Emit(s, [Usage(message)])
  }

  /** The statement loop of `execLine`: it stops after a statement that leaves `exited` set. */
  function RunStatements(s: State, statements: seq<Statement>, env: Env): State
    decreases |statements|
  {
    if |statements| == 0 then s
    else
      var s1 := CommandStep(s, statements[0], env);
      if s1.exited then s1 else RunStatements(s1, statements[1..], env)
  }

  /**
   * The tokens of a line: the `?` shortcut, otherwise the tokenizer with the current
   * variables, which throws on some input (a `Failure` with its message).
   */
  function LineTokens(line: string, vars: Vars, host: Host): Result<seq<Token>, string> {
    var help := HandleHelp(line);
    if help.Some? then Success(help.value) else host.tokenize(line, vars)
  }

  /**
   * Whether `execLine` rejects: the tokenizer's error is not caught inside it and travels
   * up to the `catch` of `runOnGolemAction`.
   */
  predicate LineThrows(s: State, line: string, env: Env) {
    LineTokens(line, s.vars, env.host).Failure?
  }

  /**
   * `execLine`. A tokenizer error is printed by the action's `catch`; nothing else runs
   * before that, so the model records it here.
   */
  function LineStep(s: State, line: string, env: Env): State {
    match LineTokens(line, s.vars, env.host)
    case Failure(e) => Emit(s, [Crash(TokenizeFailed(e))])
    case Success(tokens) =>
      match BuildAsWritten(tokens)
      case Failure(e) => Emit(s, [ErrorLine(e.Message())])
      case Success(statements) => RunStatements(s, statements, env)
  }

  /**
   * The line loop of `execFile`: every line runs, whatever `exited` says, until a line
   * throws (`true`), which ends the loop.
   */
  function RunLines(s: State, lines: seq<string>, env: Env): (State, bool)
    decreases |lines|
  {
    if |lines| == 0 then (s, false)
    else if LineThrows(s, lines[0], env) then (LineStep(s, lines[0], env), true)
    else RunLines(LineStep(s, lines[0], env), lines[1..], env)
  }

  // ------------------------------------------------------------------- lemmas

  /** The effects and calls of a step only ever extend those before it. */
  predicate Extends(s: State, t: State) {
    s.log <= t.log && s.requests <= t.requests && (s.exited ==> t.exited)
  }

  lemma ExtendsTrans(a: State, b: State, c: State)
    requires Extends(a, b) && Extends(b, c)
    ensures Extends(a, c)
  {
  }

  lemma EmitExtends(s: State, e: seq<Effect>)
    ensures Extends(s, Emit(s, e))
  {
  }

  lemma RemoteStepExtends(s: State, req: Request, r: Redirect, host: Host)
    ensures Extends(s, RemoteStep(s, req, r, host))
  {
  }

  lemma UploadStepExtends(s: State, source: string, destination: string, host: Host)
    ensures Extends(s, UploadStep(s, source, destination, host))
  {
  }

  lemma DownloadStepExtends(s: State, source: string, localPath: Option<string>, host: Host)
    ensures Extends(s, DownloadStep(s, source, localPath, host))
  {
  }

  lemma StepExtends(s: State, cmd: Command, env: Env)
    ensures Extends(s, Step(s, cmd, env))
  {
    match cmd
    case HelpCmd(topic) =>
    case ExitCmd =>
    case EchoCmd(words) => EmitExtends(s, [Log(Join(words, " "))]);
    case SetCmd(name) =>
    case RunCmd(line, r) => RemoteStepExtends(s, RunShell(line), r, env.host);
    case ExecCmd(exe, args, r) =>
      if env.variant != RunOnGolem { RemoteStepExtends(s, RunExec(exe, args), r, env.host); }
    case UploadCmd(source, destination) => UploadStepExtends(s, source, destination, env.host);
    case DownloadCmd(source, localPath) => DownloadStepExtends(s, source, localPath, env.host);
    case TimeCmd =>
  }

  lemma CommandStepExtends(s: State, statement: Statement, env: Env)
    ensures Extends(s, CommandStep(s, statement, env))
  {
    match env.host.parse(env.variant, statement)
    case Invoke(cmd) => StepExtends(s, cmd, env);
    case ShowHelp(_) =>
    case Rejected(_) =>
  }

  lemma {:induction false} RunStatementsExtends(s: State, statements: seq<Statement>, env: Env)
    ensures Extends(s, RunStatements(s, statements, env))
    decreases |statements|
  {
    if |statements| > 0 {
      var s1 := CommandStep(s, statements[0], env);
      CommandStepExtends(s, statements[0], env);
      if !s1.exited {
        RunStatementsExtends(s1, statements[1..], env);
        ExtendsTrans(s, s1, RunStatements(s1, statements[1..], env));
      }
    }
  }

  lemma LineStepExtends(s: State, line: string, env: Env)
    ensures Extends(s, LineStep(s, line, env))
  {
    match LineTokens(line, s.vars, env.host)
    case Failure(_) =>
    case Success(tokens) =>
      match BuildAsWritten(tokens)
      case Failure(_) =>
      case Success(statements) => RunStatementsExtends(s, statements, env);
  }

  lemma {:induction false} RunLinesExtends(s: State, lines: seq<string>, env: Env)
    ensures Extends(s, RunLines(s, lines, env).0)
    decreases |lines|
  {
    if |lines| > 0 {
      var s1 := LineStep(s, lines[0], env);
      LineStepExtends(s, lines[0], env);
      if !LineThrows(s, lines[0], env) {
        RunLinesExtends(s1, lines[1..], env);
        ExtendsTrans(s, s1, RunLines(s1, lines[1..], env).0);
      }
    }
  }

  /** `exit` sets `exited` and changes nothing else. */
  lemma ExitOnlySetsExited(s: State, env: Env)
    ensures Step(s, ExitCmd, env).exited
    ensures Step(s, ExitCmd, env).(exited := s.exited) == s
  {
  }

  /** `echo` prints one line from which the words come back by splitting on spaces. */
  lemma EchoPrintsWords(s: State, words: seq<string>, env: Env)
    requires |words| >= 1
    requires forall k :: 0 <= k < |words| ==> ' ' !in words[k]
    ensures var t := Step(s, EchoCmd(words), env);
      t.(log := s.log) == s && |t.log| == |s.log| + 1 && t.log[|s.log|].Log?
      && Split(t.log[|s.log|].line, ' ') == words
  {
    SplitJoin(words, ' ');
  }

  lemma {:induction false} ListingShape(vars: Vars)
    ensures |Listing(vars)| == |vars|
    ensures forall i :: 0 <= i < |vars| ==> Listing(vars)[i] == Log(vars[i].key + "=" + vars[i].value.GetOr(""))
    decreases |vars|
  {
    if |vars| > 0 {
      var init := vars[..|vars| - 1];
      ListingShape(init);
      assert forall i :: 0 <= i < |init| ==> init[i] == vars[i];
    }
  }

  lemma ListingAppended(log: seq<Effect>, e: Vars)
    ensures |log + Listing(e)| == |log| + |e|
    ensures forall i :: 0 <= i < |e| ==>
      (log + Listing(e))[|log| + i] == Log(e[i].key + "=" + e[i].value.GetOr(""))
  {
    ListingShape(e);
  }

  /**
   * `set` without a name prints `key=value` per variable (`undefined` as empty), in the
   * order of `Object.entries`, and changes nothing else.
   */
  lemma SetListsVariables(s: State, name: Option<string>, env: Env)
    requires !Truthy(name)
    ensures var t, e := Step(s, SetCmd(name), env), Entries(s.vars);
      t.(log := s.log) == s && |e| == |s.vars| && |t.log| == |s.log| + |s.vars|
      && s.log <= t.log
      && forall i :: 0 <= i < |e| ==>
           t.log[|s.log| + i] == Log(e[i].key + "=" + e[i].value.GetOr(""))
  {
    var e := Entries(s.vars);
    assert Step(s, SetCmd(name), env) == Emit(s, Listing(e));
    EntriesLength(s.vars);
    ListingAppended(s.log, e);
  }

  /** `set 2=x; set 1=y; set` lists `1=y` before `2=x`. */
  lemma SetListsIndexKeysAscending()
    ensures Listing(Entries([Binding("2", Some("x")), Binding("1", Some("y"))]))
         == [Log("1=y"), Log("2=x")]
  {
    var vars := [Binding("2", Some("x")), Binding("1", Some("y"))];
    assert DigitsNat("2") == 2 && DigitsNat("1") == 1 by {
      assert "2"[..0] == "" && "1"[..0] == "";
    }
    assert IsArrayIndex("2") && IsArrayIndex("1");
    var one, two := Binding("1", Some("y")), Binding("2", Some("x"));
    assert vars[1..] == [one] && vars[1..][1..] == [];
    assert IndexEntries(vars[1..]) == [one];
    assert IndexEntries(vars) == vars;
    assert OtherEntries(vars[1..]) == [];
    assert OtherEntries(vars) == [];
    assert SortByIndex(vars[1..]) == InsertByIndex(one, []) == [one];
    assert InsertByIndex(two, [one]) == [one] + InsertByIndex(two, []);
    var e := [one, two];
    assert Entries(vars) == e;
    ListingShape(e);
    assert "1" + "=" + "y" == "1=y" && "2" + "=" + "x" == "2=x";
  }

  /** `set name` without `=` prints `name=value`, or `name=` when unset, and changes nothing else. */
  lemma SetReadsVariable(s: State, name: string, env: Env)
    requires name != "" && '=' !in name
    ensures Step(s, SetCmd(Some(name)), env) == Emit(s, [Log(name + "=" + Lookup(s.vars, name).GetOr(""))])
  {
    SplitFirst(name, '=');
  }

  lemma {:induction false} AssignLookup(vars: Vars, key: string, value: Option<string>)
    ensures Lookup(Assign(vars, key, value), key) == value
    ensures forall k :: k != key ==> Lookup(Assign(vars, key, value), k) == Lookup(vars, k)
    decreases |vars|
  {
    if |vars| > 0 && vars[0].key != key {
      AssignLookup(vars[1..], key, value);
    }
  }

  lemma KeysCons(b: Binding, rest: Vars)
    ensures Keys([b] + rest) == {b.key} + Keys(rest)
  {
    var l := [b] + rest;
    forall k | k in Keys(l) ensures k in {b.key} + Keys(rest) {
      var c :| c in l && c.key == k;
      if c != b {
        assert c in rest;
      }
    }
    forall k | k in Keys(rest) ensures k in Keys(l) {
      var c :| c in rest && c.key == k;
      assert c in l;
    }
  }

  lemma {:induction false} AssignKeys(vars: Vars, key: string, value: Option<string>)
    ensures Keys(Assign(vars, key, value)) == Keys(vars) + {key}
    decreases |vars|
  {
    if |vars| > 0 {
      assert vars == [vars[0]] + vars[1..];
      KeysCons(vars[0], vars[1..]);
      if vars[0].key == key {
        KeysCons(Binding(key, value), vars[1..]);
      } else {
        AssignKeys(vars[1..], key, value);
        KeysCons(vars[0], Assign(vars[1..], key, value));
      }
    }
  }

  lemma DistinctTail(vars: Vars)
    requires |vars| > 0 && DistinctKeys(vars)
    ensures DistinctKeys(vars[1..]) && vars[0].key !in Keys(vars[1..])
  {
    forall i, j | 0 <= i < j < |vars[1..]| ensures vars[1..][i].key != vars[1..][j].key {
      assert vars[1..][i] == vars[i + 1] && vars[1..][j] == vars[j + 1];
    }
    forall b | b in vars[1..] ensures b.key != vars[0].key {
      var j :| 0 <= j < |vars[1..]| && vars[1..][j] == b;
      assert vars[j + 1] == b;
    }
  }

  lemma DistinctCons(b: Binding, rest: Vars)
    requires DistinctKeys(rest) && b.key !in Keys(rest)
    ensures DistinctKeys([b] + rest)
  {
    var l := [b] + rest;
    forall i, j | 0 <= i < j < |l| ensures l[i].key != l[j].key {
      assert l[j] == rest[j - 1];
      if i > 0 {
        assert l[i] == rest[i - 1];
      } else {
        assert rest[j - 1] in rest;
      }
    }
  }

  lemma {:induction false} AssignDistinct(vars: Vars, key: string, value: Option<string>)
    requires DistinctKeys(vars)
    ensures DistinctKeys(Assign(vars, key, value))
    decreases |vars|
  {
    if |vars| > 0 {
      DistinctTail(vars);
      if vars[0].key == key {
        DistinctCons(Binding(key, value), vars[1..]);
      } else {
        AssignDistinct(vars[1..], key, value);
        AssignKeys(vars[1..], key, value);
        DistinctCons(vars[0], Assign(vars[1..], key, value));
      }
    } else {
      DistinctCons(Binding(key, value), []);
    }
  }

  /**
   * `set a=b...` stores in `a` the text between the first and the second `=`; every other
   * variable keeps its value, keys stay distinct, and nothing is printed.
   */
  lemma SetAssignsVariable(s: State, name: string, env: Env)
    requires '=' in name
    ensures var t := Step(s, SetCmd(Some(name)), env);
      var key := Before(name, '=');
      t.(vars := s.vars) == s
      && Lookup(t.vars, key) == Some(Before(After(name, '='), '='))
      && (forall k :: k != key ==> Lookup(t.vars, k) == Lookup(s.vars, k))
      && Keys(t.vars) == Keys(s.vars) + {key}
      && (DistinctKeys(s.vars) ==> DistinctKeys(t.vars))
  {
    SplitFirst(name, '=');
    SplitSecond(name, '=');
    var key := Split(name, '=')[0];
    var value := Some(Split(name, '=')[1]);
    assert Step(s, SetCmd(Some(name)), env) == s.(vars := Assign(s.vars, key, value));
    AssignLookup(s.vars, key, value);
    AssignKeys(s.vars, key, value);
    if DistinctKeys(s.vars) {
      AssignDistinct(s.vars, key, value);
    }
  }

  /** `set a=b=c` stores `b` in `a`. */
  lemma SetKeepsSecondPart(s: State, env: Env)
    ensures Lookup(Step(s, SetCmd(Some("a=b=c")), env).vars, "a") == Some("b")
  {
    var name := "a=b=c";
    assert name == "a" + "=" + "b=c";
    IndexOfAfterPrefix("a", '=', "b=c");
    assert Before(name, '=') == "a";
    assert After(name, '=') == "b=c";
    assert "b=c" == "b" + "=" + "c";
    IndexOfAfterPrefix("b", '=', "c");
    assert Before("b=c", '=') == "b";
    SetAssignsVariable(s, name, env);
  }

  /**
   * `run` calls the provider once with the command line and, when the `--stdout` file can be
   * written, routes the result as RouteEffects describes; nothing else changes.
   */
  lemma RunRoutesOutput(s: State, line: string, r: Redirect, env: Env)
    requires !(Truthy(r.stdout) && r.stdout.value in env.host.unwritable)
    requires env.host.reply(|s.requests|, RunShell(line)).Done?
    ensures var t := Step(s, RunCmd(line, r), env);
      t.exited == s.exited && t.vars == s.vars
      && t.requests == s.requests + [RunShell(line)]
      && t.log == s.log + RouteEffects(env.host.reply(|s.requests|, RunShell(line)).outcome, r)
  {
  }

  /**
   * `exec` routes its result exactly as `run` does: given the same provider reply, both
   * leave the same effects, and differ only in the call they make.
   */
  lemma ExecRoutesLikeRun(s: State, exe: string, args: seq<string>, line: string, r: Redirect, env: Env)
    requires env.variant == Shell
    requires env.host.reply(|s.requests|, RunExec(exe, args)) == env.host.reply(|s.requests|, RunShell(line))
    ensures Step(s, ExecCmd(exe, args, r), env).log == Step(s, RunCmd(line, r), env).log
    ensures Step(s, ExecCmd(exe, args, r), env).requests == s.requests + [RunExec(exe, args)]
  {
  }

  /** `upload` calls the provider iff the local source file exists. */
  lemma UploadGate(s: State, source: string, destination: string, env: Env)
    ensures var t := Step(s, UploadCmd(source, destination), env);
      t.requests == (if source in env.host.files then s.requests + [UploadFile(source, destination)] else s.requests)
      && (source !in env.host.files ==> t == Emit(s, [Log("Upload aborted.")]))
  {
  }

  /**
   * `download` saves into the basename of the remote path unless a local path is given,
   * and calls the provider iff the directory of that local path exists.
   */
  lemma DownloadGate(s: State, source: string, localPath: Option<string>, env: Env)
    ensures var target := DownloadTarget(source, localPath);
      var t := Step(s, DownloadCmd(source, localPath), env);
      (!Truthy(localPath) ==> target == Paths.Basename(source) && Paths.Dirname(target) == ".")
      && t.requests == (if Paths.Dirname(target) in env.host.dirs then s.requests + [DownloadFile(source, target)] else s.requests)
      && (Paths.Dirname(target) !in env.host.dirs ==> t == Emit(s, [Log("Download aborted.")]))
  {
    Paths.DirnameOfBasename(source);
  }

  /** `help` only prints, and only ever the help of a registered command. */
  lemma HelpOnlyPrints(s: State, topic: Option<string>, env: Env)
    ensures var t := Step(s, HelpCmd(topic), env);
      t.(log := s.log) == s && |t.log| == |s.log| + 1 && s.log <= t.log
      && (t.log[|s.log|].CommandHelp? ==> t.log[|s.log|].name in CommandNames(env.variant) && topic == Some(t.log[|s.log|].name))
      && (t.log[|s.log|] == HelpListing <==> env.variant == Shell || !Truthy(topic))
  {
  }

  /**
   * A line whose tokens do not build prints the `ParseError`, dispatches none of its
   * statements and does not throw.
   */
  lemma ParseErrorSkipsLine(s: State, line: string, env: Env)
    requires LineTokens(line, s.vars, env.host).Success?
    requires BuildAsWritten(LineTokens(line, s.vars, env.host).value).Failure?
    ensures !LineThrows(s, line, env)
    ensures exists op :: (op != ";" && Op(op) in LineTokens(line, s.vars, env.host).value
                          && LineStep(s, line, env) == Emit(s, [ErrorLine("Unsupported operator: " + op)]))
  {
    var tokens := LineTokens(line, s.vars, env.host).value;
    ParseErrorHasCause(tokens, true);
    var op := BuildAsWritten(tokens).error.op;
    var i :| 0 <= i < |tokens| && tokens[i] == Op(op) && op != ";" && forall j :: 0 <= j < i ==> !Blocking(tokens[j], true);
    assert Op(op) in tokens;
  }

  /**
   * A line the tokenizer rejects runs none of its statements: it prints the error and
   * throws.
   */
  lemma TokenizeErrorThrows(s: State, line: string, env: Env)
    requires line != "?" && env.host.tokenize(line, s.vars).Failure?
    ensures LineThrows(s, line, env)
    ensures LineStep(s, line, env) == Emit(s, [Crash(TokenizeFailed(env.host.tokenize(line, s.vars).error))])
  {
  }

  /** The line `?` runs the statement `help`, whatever the tokenizer would have produced. */
  lemma QuestionMarkRunsHelp(s: State, env: Env)
    ensures !LineThrows(s, "?", env)
    ensures LineStep(s, "?", env) == RunStatements(s, [["help"]], env)
  {
  }

  /** Once a statement leaves `exited` set, no later statement of the line is dispatched. */
  lemma {:induction false} ExitEndsLine(s: State, first: seq<Statement>, rest: seq<Statement>, env: Env)
    requires |first| > 0 && RunStatements(s, first, env).exited
    ensures RunStatements(s, first + rest, env) == RunStatements(s, first, env)
    decreases |first|
  {
    var s1 := CommandStep(s, first[0], env);
    assert (first + rest)[0] == first[0] && (first + rest)[1..] == first[1..] + rest;
    if !s1.exited && |first| > 1 {
      ExitEndsLine(s1, first[1..], rest, env);
    }
  }

  /** Statements run in order: while `exited` stays clear, a line is its two halves in sequence. */
  lemma {:induction false} StatementsInOrder(s: State, first: seq<Statement>, rest: seq<Statement>, env: Env)
    requires !RunStatements(s, first, env).exited
    ensures RunStatements(s, first + rest, env) == RunStatements(RunStatements(s, first, env), rest, env)
    decreases |first|
  {
    if |first| == 0 {
      assert first + rest == rest;
    } else {
      var s1 := CommandStep(s, first[0], env);
      assert (first + rest)[0] == first[0] && (first + rest)[1..] == first[1..] + rest;
      StatementsInOrder(s1, first[1..], rest, env);
    }
  }

  /**
   * A script's lines run in order and `exited` never stops the file loop: a script is its
   * two halves in sequence, unless a line of the first half throws, which ends the loop
   * there.
   */
  lemma {:induction false} LinesInOrder(s: State, first: seq<string>, rest: seq<string>, env: Env)
    ensures var (s1, thrown) := RunLines(s, first, env);
      RunLines(s, first + rest, env) == if thrown then (s1, true) else RunLines(s1, rest, env)
    decreases |first|
  {
    var all := first + rest;
    if |first| == 0 {
      assert all == rest;
    } else {
      assert all[0] == first[0] && all[1..] == first[1..] + rest;
      if !LineThrows(s, first[0], env) {
        var s1 := LineStep(s, first[0], env);
        LinesInOrder(s1, first[1..], rest, env);
        assert RunLines(s, all, env) == RunLines(s1, all[1..], env);
      }
    }
  }
}
