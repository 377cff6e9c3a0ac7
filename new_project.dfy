/**
 * Project scaffolding of src/new/new.action.ts with the constants of src/new/new.options.ts.
 * Prompt answers and the file system are inputs; the result records what was printed,
 * copied and written, and how the command ended.
 */
module NewProject {
  import opened Wrappers
  import opened Text

  const NameError := "Project name may only contain lower case letters, numbers, hyphens and underscores."
  const DefaultDescription := "An unique and awesome application that runs on Golem Network"
  const DefaultAppVersion := "1.0.0"
  const AppKeyNote := "NOTE: You do not seem to have YAGNA_APPKEY environment variable defined. You will need to define it or provide a .env file with it to run your new appplication."
  /** The only choice of the template prompt. */
  const PromptTemplate := "js-node"

  predicate NameChar(c: char) {
    IsLowerAlnum(c) || c == '-' || c == '_'
  }

  /** `newProjectNameRegEx.test(s)` for `^[a-z0-9-_]+$`. */
  predicate ValidName(s: string) {
    |s| > 0 && forall k :: 0 <= k < |s| ==> NameChar(s[k])
  }

  /** A valid name has no path separator, dot, space or upper-case letter. */
  lemma ValidNameIsPlain(s: string)
    requires ValidName(s)
    ensures '/' !in s && '.' !in s && ' ' !in s
    ensures forall k :: 0 <= k < |s| ==> !('A' <= s[k] <= 'Z')
  {
  }

  /** The options of `golem-sdk new`. */
  datatype NewOptions = NewOptions(author: Option<string>, description: Option<string>, path: Option<string>,
                                   template: Option<string>, appVersion: Option<string>)

  /**
   * An answer to an input prompt: the typed text, the prompt's initial value kept, or a
   * cancel, which rejects enquirer's promise.
   */
  datatype Answer = Typed(text: string) | Initial | Cancel

  /**
   * The answers given at the prompts: every answer to the name prompt in order (running
   * out of answers is a cancel), whether the template select was cancelled, and the
   * answers to the description and version prompts.
   */
  datatype Prompts = Prompts(names: seq<string>, templateCancelled: bool, description: Answer, version: Answer)

  /** A JSON value of package.json: a string, or any other value kept as it is. */
  datatype Json = JString(s: string) | JOther(text: string)

  datatype PackageJsonSource = ReadFails(error: string) | ParseFails(error: string) | Parsed(fields: map<string, Json>)

  /**
   * The file system as the command sees it: the current directory, the template
   * directory, the paths that exist, and the outcome of copying, reading and writing.
   */
  datatype World = World(cwd: string, templateRoot: string, existing: set<string>, copyError: Option<string>,
                         packageJson: PackageJsonSource, writeError: Option<string>, appKey: Option<string>)

  datatype Message = Info(line: string) | Error(line: string)
  datatype Status = Exited | Completed | Cancelled
  datatype NewRun = NewRun(messages: seq<Message>, copiedTo: Option<string>, written: Option<map<string, Json>>,
                           status: Status)

  /** The outcome of a validated input: a value, the error that exits, or no answer. */
  datatype Chosen = Chosen(value: string) | Rejected(message: string) | NoAnswer

  /**
   * `path.join` of a directory and a plain name, taken as the two joined by one "/"; the
   * normalisation `path.join` also does (dropping a trailing "/", `.` and `..` segments) is
   * not modelled.
   */
  function JoinWithSlash(dir: string, name: string): string {
    dir + "/" + name
  }

  /** The value the name prompt settles on: the first answer that passes its validation. */
  function FirstValidName(answers: seq<string>): (r: Option<string>)
    ensures r.Some? ==> ValidName(r.value) && r.value in answers
    ensures r.None? <==> forall k :: 0 <= k < |answers| ==> !ValidName(answers[k])
  {
    if |answers| == 0 then None
    else if ValidName(answers[0]) then Some(answers[0])
    else
      var r := FirstValidName(answers[1..]);
      assert forall k :: 1 <= k < |answers| ==> answers[k] == answers[1..][k - 1];
      r
  }

  /** `getName`. */
  function GetName(provided: Option<string>, answers: seq<string>): (r: Chosen)
    ensures r.Chosen? ==> ValidName(r.value)
    ensures Truthy(provided) ==> (r.Chosen? <==> ValidName(provided.value)) && (r.Chosen? ==> r.value == provided.value)
    ensures Truthy(provided) ==> !r.NoAnswer?
  {
    if !Truthy(provided) then
      match FirstValidName(answers)
      case None => NoAnswer
      case Some(name) => Chosen(name)
    else if !ValidName(provided.value) then
      Rejected("Error: Project name " + provided.value + " is invalid: " + NameError)
    else Chosen(provided.value)
  }

  /**
   * `getTemplate`: the given name, or the select's only choice, checked against the name
   * rule; a cancelled select gives no answer.
   */
  function GetTemplate(provided: Option<string>, cancelled: bool): (r: Chosen)
    ensures r.Chosen? ==> ValidName(r.value)
    ensures r.NoAnswer? <==> provided.None? && cancelled
    ensures provided.None? && !cancelled ==> r == Chosen(PromptTemplate)
    ensures provided.Some? ==> (r.Chosen? <==> ValidName(provided.value)) && (r.Chosen? ==> r.value == provided.value)
  {
    if provided.None? && cancelled then NoAnswer
    else
      var template := if provided.Some? then provided.value else PromptTemplate;
      if !ValidName(template) then Rejected("Error: Template name " + template + " is invalid.")
      else Chosen(template)
  }

  /** The value an input prompt with initial value `initial` settles on. */
  function Prompted(answer: Answer, initial: string): (r: Chosen)
    ensures r.NoAnswer? <==> answer.Cancel?
    ensures !r.Rejected?
    ensures answer.Initial? ==> r == Chosen(initial)
    ensures answer.Typed? ==> r == Chosen(answer.text)
  {
    match answer
    case Typed(text) => Chosen(text)
    case Initial => Chosen(initial)
    case Cancel => NoAnswer
  }

  /**
   * `getDescription`: any given string, even an empty one, is used without prompting;
   * otherwise the answer, the default text, or no answer on a cancel.
   */
  function GetDescription(provided: Option<string>, answer: Answer): (r: Chosen)
    ensures provided.Some? ==> r == Chosen(provided.value)
    ensures provided.None? ==> (r.NoAnswer? <==> answer.Cancel?) && (answer.Initial? ==> r == Chosen(DefaultDescription))
    ensures !r.Rejected?
  {
    if provided.Some? then Chosen(provided.value) else Prompted(answer, DefaultDescription)
  }

  /** `getVersion`: a given string, or else the answer, "1.0.0", or no answer on a cancel. */
  function GetVersion(provided: Option<string>, answer: Answer): (r: Chosen)
    ensures provided.Some? ==> r == Chosen(provided.value)
    ensures provided.None? ==> (r.NoAnswer? <==> answer.Cancel?) && (answer.Initial? ==> r == Chosen(DefaultAppVersion))
    ensures !r.Rejected?
  {
    if provided.Some? then Chosen(provided.value) else Prompted(answer, DefaultAppVersion)
  }

  datatype PackageData = PackageData(name: string, description: string, version: string, author: Option<string>)

  predicate MetadataKey(k: string) {
    k == "name" || k == "description" || k == "version" || k == "author"
  }

  /** The fields of package.json after `updatePackageJson`. */
  function UpdatedFields(fields: map<string, Json>, data: PackageData): map<string, Json> {
    var f := fields["name" := JString(data.name)]["description" := JString(data.description)]["version" := JString(data.version)];
    if Truthy(data.author) then f["author" := JString(data.author.value)] else f
  }

  /** The parsed package.json, whose fields `updatePackageJson` assigns one by one. */
  class PackageJson {
    var fields: map<string, Json>

    constructor (fields: map<string, Json>)
      ensures this.fields == fields
    {
      this.fields := fields;
    }

    method Update(data: PackageData)
      modifies this
      ensures fields == UpdatedFields(old(fields), data)
    {
      fields := fields["name" := JString(data.name)];
      fields := fields["description" := JString(data.description)];
      fields := fields["version" := JString(data.version)];
      if Truthy(data.author) {
        fields := fields["author" := JString(data.author.value)];
      }
    }
  }

  /**
   * package.json gets name, description and version; author only when given and
   * non-empty; every other key keeps its value.
   */
  lemma UpdateTouchesOnlyMetadata(fields: map<string, Json>, data: PackageData)
    ensures var r := UpdatedFields(fields, data);
      r["name"] == JString(data.name) && r["description"] == JString(data.description)
      && r["version"] == JString(data.version)
      && (Truthy(data.author) ==> r["author"] == JString(data.author.value))
      && (!Truthy(data.author) ==> ("author" in r <==> "author" in fields) && ("author" in fields ==> r["author"] == fields["author"]))
      && forall k :: !MetadataKey(k) ==> (k in r <==> k in fields) && (k in fields ==> r[k] == fields[k])
  {
  }

  /** The project directory: `--path`, otherwise the name inside the current directory. */
  function ProjectPath(o: NewOptions, world: World, name: string): string {
    if o.path.Some? then o.path.value else JoinWithSlash(world.cwd, name)
  }

  function Exit(messages: seq<Message>, message: string, copiedTo: Option<string>): NewRun {
    NewRun(messages + [Error(message)], copiedTo, None, Exited)
  }

  /** `updatePackageJson` and the closing messages, after the template was copied. */
  function Finalize(projectPath: string, data: PackageData, world: World, messages: seq<Message>): NewRun {
    var file := JoinWithSlash(projectPath, "package.json");
    match world.packageJson
    case ReadFails(e) => Exit(messages, "Error: Failed to read " + file + ": " + e, Some(projectPath))
    case ParseFails(e) => Exit(messages, "Error: Failed to parse " + file + ": " + e, Some(projectPath))
    case Parsed(fields) =>
      if world.writeError.Some? then
        Exit(messages, "Error: Failed to write " + file + ": " + world.writeError.value, Some(projectPath))
      else
        var done := messages + [Info("Project created successfully in " + projectPath + ".")];
        NewRun(if Truthy(world.appKey) then done
               else done + [Info(AppKeyNote)],
               Some(projectPath), Some(UpdatedFields(fields, data)), Completed)
  }

  /**
   * `newAction`, with `versionOption` the value handed to `getVersion`: the source
   * passes `options.version`, which the command never sets.
   */
  function NewActionWith(provided: Option<string>, o: NewOptions, versionOption: Option<string>,
                         prompts: Prompts, world: World): NewRun
  {
    match GetName(provided, prompts.names)
    case NoAnswer => NewRun([], None, None, Cancelled)
    case Rejected(m) => Exit([], m, None)
    case Chosen(name) =>
      var projectPath := ProjectPath(o, world, name);
      if projectPath in world.existing then Exit([], "Error: " + projectPath + " already exists.", None)
      else
        match GetTemplate(o.template, prompts.templateCancelled)
        case NoAnswer => NewRun([], None, None, Cancelled)
        case Rejected(m) => Exit([], m, None)
        case Chosen(template) =>
          if JoinWithSlash(world.templateRoot, template) !in world.existing then
            Exit([], "Error: Template " + template + " not found.", None)
          else if !Answered(o, versionOption, prompts) then NewRun([], None, None, Cancelled)
          else
            var data := ChosenData(name, o, versionOption, prompts);
            var messages := [Info("Creating a new Golem app in " + projectPath + ".")];
            if world.copyError.Some? then
              Exit(messages, "Error: Failed to copy template files: " + world.copyError.value, None)
            else Finalize(projectPath, data, world, messages)
  }

  /** Neither the description prompt nor the version prompt was cancelled. */
  predicate Answered(o: NewOptions, versionOption: Option<string>, prompts: Prompts) {
    GetDescription(o.description, prompts.description).Chosen? && GetVersion(versionOption, prompts.version).Chosen?
  }

  /** The metadata `newAction` writes, with `versionOption` handed to `getVersion`. */
  function ChosenData(name: string, o: NewOptions, versionOption: Option<string>, prompts: Prompts): PackageData
    requires Answered(o, versionOption, prompts)
  {
    PackageData(name, GetDescription(o.description, prompts.description).value,
                GetVersion(versionOption, prompts.version).value, o.author)
  }

  /** `newAction` as written: `getVersion(options.version)` always sees `undefined`. */
  function NewActionAsWritten(provided: Option<string>, o: NewOptions, prompts: Prompts, world: World): NewRun {
    NewActionWith(provided, o, None, prompts, world)
  }

  /** `newAction` with `--app-version` reaching `getVersion`. */
  function NewAction(provided: Option<string>, o: NewOptions, prompts: Prompts, world: World): NewRun {
    NewActionWith(provided, o, o.appVersion, prompts, world)
  }

  /**
   * A given invalid name exits before anything is looked up, copied or written, whatever
   * reaches `getVersion` (so both as written and with `--app-version`).
   */
  lemma InvalidNameExitsFirst(provided: string, o: NewOptions, versionOption: Option<string>,
                              prompts: Prompts, world: World)
    requires provided != "" && !ValidName(provided)
    ensures NewActionWith(Some(provided), o, versionOption, prompts, world)
         == NewRun([Error("Error: Project name " + provided + " is invalid: " + NameError)], None, None, Exited)
  {
  }

  /**
   * The template is copied only after every check passed: a valid name, a project path
   * that does not exist yet (by default the name inside the current directory), a valid
   * template name and an existing template directory; this holds whatever reaches
   * `getVersion`.
   */
  lemma CopyOnlyAfterValidation(provided: Option<string>, o: NewOptions, versionOption: Option<string>,
                                prompts: Prompts, world: World)
    ensures var run := NewActionWith(provided, o, versionOption, prompts, world);
      run.copiedTo.Some? ==>
        GetName(provided, prompts.names).Chosen?
        && var name := GetName(provided, prompts.names).value;
           ValidName(name)
           && run.copiedTo.value == ProjectPath(o, world, name)
           && (o.path.None? ==> run.copiedTo.value == world.cwd + "/" + name)
           && run.copiedTo.value !in world.existing
           && GetTemplate(o.template, prompts.templateCancelled).Chosen?
           && ValidName(GetTemplate(o.template, prompts.templateCancelled).value)
           && JoinWithSlash(world.templateRoot, GetTemplate(o.template, prompts.templateCancelled).value) in world.existing
           && Answered(o, versionOption, prompts)
           && world.copyError.None?
  {
  }

  /**
   * A cancelled prompt rejects before anything is printed, copied or written: the name
   * prompt, the template select (without `--template`), and the description and version
   * prompts (without a given value), each once the checks before it have passed.
   */
  lemma CancelStopsEverything(provided: Option<string>, o: NewOptions, versionOption: Option<string>,
                              prompts: Prompts, world: World)
    ensures var run := NewActionWith(provided, o, versionOption, prompts, world);
      run.status == Cancelled ==> run == NewRun([], None, None, Cancelled)
    ensures var run := NewActionWith(provided, o, versionOption, prompts, world);
      var name := GetName(provided, prompts.names);
      var template := GetTemplate(o.template, prompts.templateCancelled);
      (name.NoAnswer? ==> run.status == Cancelled)
      && (name.Chosen? && ProjectPath(o, world, name.value) !in world.existing ==>
            (o.template.None? && prompts.templateCancelled ==> run.status == Cancelled)
            && (template.Chosen? && JoinWithSlash(world.templateRoot, template.value) in world.existing ==>
                  (o.description.None? && prompts.description.Cancel? ==> run.status == Cancelled)
                  && (versionOption.None? && prompts.version.Cancel? ==> run.status == Cancelled)))
  {
    var name := GetName(provided, prompts.names);
    if name.Chosen? && ProjectPath(o, world, name.value) !in world.existing {
      var template := GetTemplate(o.template, prompts.templateCancelled);
      if template.Chosen? && JoinWithSlash(world.templateRoot, template.value) in world.existing
         && Answered(o, versionOption, prompts) {
        var projectPath := ProjectPath(o, world, name.value);
        var messages := [Info("Creating a new Golem app in " + projectPath + ".")];
        FinalizeWrites(projectPath, ChosenData(name.value, o, versionOption, prompts), world, messages);
      }
    }
  }



  /** `Finalize` writes only a parsed file it could write back, and completes exactly then. */
  lemma FinalizeWrites(projectPath: string, data: PackageData, world: World, messages: seq<Message>)
    ensures var run := Finalize(projectPath, data, world, messages);
      (run.written.Some? <==> run.status == Completed)
      && (run.written.Some? ==> world.packageJson.Parsed? && world.writeError.None?
                                && run.written.value == UpdatedFields(world.packageJson.fields, data))
  {
  }

  /**
   * What is written to package.json is the parsed file with the chosen metadata, and the
   * command completes exactly when it is written.
   */
  lemma {:induction false} WrittenPackageJsonWith(provided: Option<string>, o: NewOptions, versionOption: Option<string>,
                                                  prompts: Prompts, world: World)
    ensures var run := NewActionWith(provided, o, versionOption, prompts, world);
      (run.written.Some? <==> run.status == Completed)
      && (run.written.Some? ==>
            GetName(provided, prompts.names).Chosen? && Answered(o, versionOption, prompts)
            && world.packageJson.Parsed? && world.writeError.None?
            && run.written.value == UpdatedFields(world.packageJson.fields, ChosenData(GetName(provided, prompts.names).value, o, versionOption, prompts)))
  {
    var name := GetName(provided, prompts.names);
    if name.Chosen? && ProjectPath(o, world, name.value) !in world.existing {
      var template := GetTemplate(o.template, prompts.templateCancelled);
      if template.Chosen? && JoinWithSlash(world.templateRoot, template.value) in world.existing
         && Answered(o, versionOption, prompts) && world.copyError.None? {
        var projectPath := ProjectPath(o, world, name.value);
        var messages := [Info("Creating a new Golem app in " + projectPath + ".")];
        assert NewActionWith(provided, o, versionOption, prompts, world)
            == Finalize(projectPath, ChosenData(GetName(provided, prompts.names).value, o, versionOption, prompts), world, messages);
        FinalizeWrites(projectPath, ChosenData(GetName(provided, prompts.names).value, o, versionOption, prompts), world, messages);
      }
    }
  }

  lemma WrittenPackageJson(provided: Option<string>, o: NewOptions, prompts: Prompts, world: World)
    ensures var run := NewAction(provided, o, prompts, world);
      (run.written.Some? <==> run.status == Completed)
      && (run.written.Some? ==>
            GetName(provided, prompts.names).Chosen? && Answered(o, o.appVersion, prompts)
            && world.packageJson.Parsed? && world.writeError.None?
            && run.written.value == UpdatedFields(world.packageJson.fields, ChosenData(GetName(provided, prompts.names).value, o, o.appVersion, prompts)))
  {
    WrittenPackageJsonWith(provided, o, o.appVersion, prompts, world);
  }

  /**
   * As written, `--app-version` never reaches package.json: the version is the prompt's
   * answer or "1.0.0", whereas the corrected action stores the given version.
   */
  lemma AppVersionIgnoredAsWritten(provided: Option<string>, o: NewOptions, prompts: Prompts, world: World)
    requires o.appVersion.Some?
    ensures var run := NewActionAsWritten(provided, o, prompts, world);
      run.written.Some? ==>
        "version" in run.written.value
        && run.written.value["version"] == JString(if prompts.version.Typed? then prompts.version.text else DefaultAppVersion)
    ensures var run := NewAction(provided, o, prompts, world);
      run.written.Some? ==> "version" in run.written.value && run.written.value["version"] == JString(o.appVersion.value)
  {
    WrittenPackageJsonWith(provided, o, None, prompts, world);
    WrittenPackageJsonWith(provided, o, o.appVersion, prompts, world);
    if world.packageJson.Parsed? && GetName(provided, prompts.names).Chosen? && Answered(o, None, prompts)
       && Answered(o, o.appVersion, prompts) {
      UpdateTouchesOnlyMetadata(world.packageJson.fields, ChosenData(GetName(provided, prompts.names).value, o, None, prompts));
      UpdateTouchesOnlyMetadata(world.packageJson.fields, ChosenData(GetName(provided, prompts.names).value, o, o.appVersion, prompts));
    }
  }

  /** A concrete case: `--app-version 2.0.0` with the version prompt left at its initial value. */
  lemma AppVersionExample(world: World)
    requires world.cwd !in world.existing
    requires JoinWithSlash(world.cwd, "app") !in world.existing
    requires JoinWithSlash(world.templateRoot, PromptTemplate) in world.existing
    requires world.copyError.None? && world.packageJson.Parsed? && world.writeError.None?
    ensures var o := NewOptions(None, None, None, None, Some("2.0.0"));
      var prompts := Prompts([], false, Initial, Initial);
      NewActionAsWritten(Some("app"), o, prompts, world).written.value["version"] == JString("1.0.0")
      && NewAction(Some("app"), o, prompts, world).written.value["version"] == JString("2.0.0")
  {
    var o := NewOptions(None, None, None, None, Some("2.0.0"));
    var prompts := Prompts([], false, Initial, Initial);
    assert ValidName("app");
    AppVersionIgnoredAsWritten(Some("app"), o, prompts, world);
  }
}
