# golem-sdk-cli core, modelled in Dafny

This project models the deterministic core of `golem-sdk`, the command-line tool of the
Golem Network SDK, and proves properties of that model. All of it is in Dafny 4.11:
modules with no external imports, one module per source file or concern.

- **Task shell** (`run-on-golem` and the older `shell` command table):
  - The statement builder `parseTokens` is an imperative method whose loop, as
    written, is proved against a specification function; a corrected variant of that
    function is proved beside it (see Findings).
  - The `?` shortcut is modelled.
  - `execCommand`, `execLine`, `execFile` and the REPL loop are methods of a
    `Session` class.
  - The class holds the session record `ProgramContext`: `exited`, `vars`, and what
    the session has printed and asked the provider.
  - `execLine` runs the statement builder as written, not the corrected variant.
  - `execLine` does not catch an error of the tokenizer. The error ends the file loop,
    the `--execute` line and the REPL, and reaches the action's `catch`.
  - Every method is proved equal to a step function of a value-level specification.
  - `runOnGolemAction` sequences the files, `--execute`, the REPL condition and the
    final `terminate`.
- **Utilities:**
  - `combineUniqueArrays`;
  - `getPackageManager` (how the user agent is parsed);
  - the project-name rule;
  - the `path.posix` `basename` and `dirname` that `download` uses;
  - JavaScript `split` and `join`, and `parseInt` with base 10.
- **Manifests:**
  - image-spec classification and the URL and hash derived from it;
  - hash validation;
  - back-filling the metadata from package.json, which a `CreateOptions` class does in
    place;
  - building the manifest record;
  - validating outbound URLs all-or-nothing (a loop);
  - stripping protocols;
  - the unique merge into `compManifest.net.inet.out`.
- **Invoices and payments:**
  - the integer option parser and the option defaults;
  - fetching by id or by search;
  - column projection and derived labels;
  - the sort by timestamp;
  - the unpaid filter;
  - the per-invoice confirmation loop (a method);
  - the testnet/mainnet partition and exact decimal totals;
  - the gating of `invoice accept`, `invoice search` and `payment`, with their exit codes
    and result tables.
- **Project scaffolding** (`golem-sdk new`): the validation order before any file is
  touched, and the package.json update (a `PackageJson` class).

Some things are inputs to the model rather than part of it:
- What foreign code or the environment decides: the `shell-quote` tokens, Commander's
  parse, the provider's replies, the file system, prompt answers, the registry, URL
  parsing and the current day.
- Decimal amounts, which are exact rationals (`real`).
- Timestamps, which are integers given by an `instant` function.

Where the code and its documentation disagree, the model follows the code:
- A script file runs every line, even after `exit`.
- `--execute` runs even when a script ran `exit`.
- A `--stderr` file name other than `-` sends stderr to the process's stderr, never to
  the file.
- `execCommand` catches every error.
- `new --app-version` is never read (see Findings).
- An empty string token ends `parseTokens`' loop, and the shell runs the builder as
  written (see Findings).
- `set` lists the variables in `Object.entries` order: keys that are array indices
  ("0", "1", ...) first in ascending order, then the others in creation order.

## Model

| member | source | states |
|---|---|---|
| Statements.ParseTokens | src/run-on-golem/run-on-golem.action.ts:25-77 | the shifting `while` loop, which also stops at an empty string token, builds exactly the statements or the ParseError of the specification `BuildAsWritten` |
| Statements.HandleHelp | src/run-on-golem/run-on-golem.action.ts:96-102 | a token list is produced iff the line is exactly "?", and it builds the single statement `["help"]`, as written and corrected |
| Statements.StatementsNonEmpty | src/run-on-golem/run-on-golem.action.ts:58-65 | every emitted statement has at least one argument, with either loop condition |
| Statements.EmptySeparatorEmitsNothing | src/run-on-golem/run-on-golem.action.ts:58-65 | a ";" while the current statement is empty emits nothing, with either loop condition |
| Statements.ArgumentsAreStringsBeforeEnd | src/run-on-golem/run-on-golem.action.ts:34-41 | on success, the emitted argument lists concatenated are exactly the string tokens before the first comment (as written: before the first comment or empty string), in order |
| Statements.CommentEndsLine | src/run-on-golem/run-on-golem.action.ts:39-41 | nothing after a comment token changes the outcome, with either loop condition |
| Statements.EmptyStringEndsLine | src/run-on-golem/run-on-golem.action.ts:34 | as written, nothing after an empty string token changes the outcome |
| Statements.ModesAgreeWithoutEmptyStrings | src/run-on-golem/run-on-golem.action.ts:34 | for tokens without an empty string, the builder as written and the corrected one agree |
| Statements.UnsupportedOperatorRejected | src/run-on-golem/run-on-golem.action.ts:43-68 | an operator other than ";" before any comment, earlier bad operator or (as written) empty string gives the ParseError "Unsupported operator: " + op |
| Statements.ParseErrorHasCause | src/run-on-golem/run-on-golem.action.ts:66-67 | a ParseError is only raised for an unsupported operator that occurs before anything that ends the loop, with either loop condition |
| Statements.EmptyTokenTruncatesLine | src/run-on-golem/run-on-golem.action.ts:34 | as written, an empty string token ends the loop and drops the rest of the line; the corrected builder keeps it |
| ShellSpec.Assign | src/run-on-golem/shell-program.ts:80 | assigning to a variable keeps the number of entries for an existing key and adds one for a new key |
| ShellSpec.RouteEffectsMeaning | src/run-on-golem/shell-program.ts:95-111 | "Command error" is printed iff the result is not Ok; a file gets stdout + stderr exactly when `--stdout` is given, the stderr only for `--stderr -`; the console gets stdout iff there is no `--stdout`; the process stderr gets stderr iff `--stderr` is given and is not `-` |
| ShellSpec.ExitOnlySetsExited | src/run-on-golem/shell-program.ts:48-50 | `exit` sets `exited` and leaves every other part of the state as it was |
| ShellSpec.EchoPrintsWords | src/run-on-golem/shell-program.ts:58-59 | `echo` prints one line that splits back on spaces into its words and changes nothing else |
| ShellSpec.SetListsVariables | src/run-on-golem/shell-program.ts:72-76 | `set` with no name prints one `key=value` line per variable in `Object.entries` order (undefined as empty) and leaves `vars` unchanged |
| ShellSpec.EntriesOrder | src/run-on-golem/shell-program.ts:74 | `Object.entries` lists each variable once; array-index keys come first in ascending numeric order, then the other keys in creation order |
| ShellSpec.EntriesInsertionOrder | src/run-on-golem/shell-program.ts:74 | without array-index keys, `Object.entries` is creation order |
| ShellSpec.SortByIndexSorted | src/run-on-golem/shell-program.ts:74 | the array-index keys are put in ascending numeric order, a permutation of the bindings |
| ShellSpec.SetListsIndexKeysAscending | src/run-on-golem/shell-program.ts:72-76 | after `set 2=x` and `set 1=y`, `set` lists `1=y` before `2=x` |
| ShellSpec.SetReadsVariable | src/run-on-golem/shell-program.ts:77-78 | `set name` without "=" prints `name=value`, or `name=` when unset, and changes nothing else |
| ShellSpec.SetAssignsVariable | src/run-on-golem/shell-program.ts:70-80 | `set a=b` stores the text between the first and second "=" under the text before the first "=", changes no other key and keeps the keys distinct |
| ShellSpec.SetKeepsSecondPart | src/run-on-golem/shell-program.ts:70-80 | `set a=b=c` stores "b" in `a` |
| ShellSpec.AssignLookup | src/run-on-golem/shell-program.ts:80 | after an assignment, the key reads the new value and every other key reads what it read before |
| ShellSpec.AssignKeys | src/run-on-golem/shell-program.ts:80 | an assignment adds exactly its key to the key set |
| ShellSpec.AssignDistinct | src/run-on-golem/shell-program.ts:80 | an assignment keeps the variable keys distinct |
| ShellSpec.RunRoutesOutput | src/run-on-golem/shell-program.ts:94-112 | `run` makes one provider call, then prints and writes exactly the effects of its output routing |
| ShellSpec.ExecRoutesLikeRun | src/shell/shell-program.ts:96-113 | `exec` passes the executable and its arguments to the provider and routes a reply exactly like `run` |
| ShellSpec.UploadGate | src/run-on-golem/shell-program.ts:152-165 | `upload` calls the provider iff the local source exists; otherwise it prints "Upload aborted." |
| ShellSpec.DownloadGate | src/run-on-golem/shell-program.ts:179-194 | the local path defaults to the basename of the remote path; `download` calls the provider iff the directory of the local path exists |
| ShellSpec.HelpOnlyPrints | src/run-on-golem/shell-program.ts:26-39 | `help` prints one entry and changes nothing else; a command's help is printed only for a registered command named by the topic; the command listing is printed iff there is no topic (always, in the older shell) |
| ShellSpec.ParseErrorSkipsLine | src/run-on-golem/run-on-golem.action.ts:104-116 | a line whose tokens do not build (as written) prints the error, does not throw, dispatches none of its statements and names an unsupported operator among its tokens |
| ShellSpec.TokenizeErrorThrows | src/run-on-golem/run-on-golem.action.ts:105 | a line other than "?" that the tokenizer rejects throws and runs none of its statements; the error is what gets printed |
| ShellSpec.QuestionMarkRunsHelp | src/run-on-golem/run-on-golem.action.ts:105 | the line "?" never throws and runs the statement `help`, whatever the tokenizer would return |
| ShellSpec.ExitEndsLine | src/run-on-golem/run-on-golem.action.ts:118-123 | once a statement leaves `exited` set, no later statement of the line runs |
| ShellSpec.StatementsInOrder | src/run-on-golem/run-on-golem.action.ts:118-123 | while `exited` stays clear, a line's statements run one after the other, in order |
| ShellSpec.LinesInOrder | src/run-on-golem/run-on-golem.action.ts:148-150 | a script's lines run in order and `exited` never stops the file loop: a script is its two halves in sequence, unless a line of the first half throws, and then no later line runs |
| ShellSpec.StepExtends | src/run-on-golem/run-on-golem.action.ts:79-94 | a command only appends to the output and the provider calls |
| ShellSpec.RunLinesExtends | src/run-on-golem/run-on-golem.action.ts:148-150 | running a script only appends to the output and the provider calls |
| ShellSession.Session.constructor | src/run-on-golem/context-interface.ts:3-8 | a new session is not exited, has the given variables, and has printed and called nothing |
| ShellSession.Session.Say | src/run-on-golem/shell-program.ts:59 | printing appends exactly the effects given |
| ShellSession.Session.Call | src/run-on-golem/shell-program.ts:95 | a provider call records the request and returns the host's reply for that position |
| ShellSession.Session.Route | src/run-on-golem/shell-program.ts:96-111 | routing a reply changes the session as the specification's routing step |
| ShellSession.Session.Help | src/run-on-golem/shell-program.ts:26-39 | as the specification's `help` step |
| ShellSession.Session.Set | src/run-on-golem/shell-program.ts:69-82 | the `Object.entries` loop and the assignment change the session as the specification's `set` step |
| ShellSession.Session.ListBindings | src/run-on-golem/shell-program.ts:74-76 | the listing loop prints one line per entry, in order, and changes nothing else |
| ShellSession.Session.Upload | src/run-on-golem/shell-program.ts:152-165 | as the specification's `upload` step |
| ShellSession.Session.Download | src/run-on-golem/shell-program.ts:179-194 | as the specification's `download` step |
| ShellSession.Session.Dispatch | src/run-on-golem/shell-program.ts:42-210 | running one command's action changes the session as the specification's `Step` |
| ShellSession.Session.ExecCommand | src/run-on-golem/run-on-golem.action.ts:79-94 | as `CommandStep`: every Commander and action outcome is caught |
| ShellSession.Session.ExecLine | src/run-on-golem/run-on-golem.action.ts:104-124 | the tokenizer call, the build and the statement loop with its early return on `exited` change the session as `LineStep`, and report a throw exactly when `LineThrows` |
| ShellSession.Session.ExecFile | src/run-on-golem/run-on-golem.action.ts:148-150 | the line loop, which a throwing line ends, changes the session as `RunLines` and reports the throw |
| ShellSession.Session.ExecFiles | src/run-on-golem/run-on-golem.action.ts:241-243 | the file loop changes the session as `RunFiles` and reports whether a missing script or a throwing line ended it |
| ShellSession.Session.Console | src/run-on-golem/run-on-golem.action.ts:153-176 | the banner, then the REPL loop, which ends after the first line that leaves `exited` set or throws, as `ShellDriver.Console` |
| ShellSession.RunOnGolemAction | src/run-on-golem/run-on-golem.action.ts:209-260 | the whole action, once the executor exists, produces the session and ending of `ShellDriver.Drive` |
| ShellDriver.TerminateAtEnd | src/run-on-golem/run-on-golem.action.ts:236-259 | a run that finishes ends with the line "Terminating task executor..." and the termination; the only other ending is a REPL whose input closed without `exit` or an error (there is no close handler), and then nothing terminated the executor |
| ShellDriver.FilesThenExecute | src/run-on-golem/run-on-golem.action.ts:241-248 | the `--execute` line runs in the state left by all script files, whether or not a script ran `exit`, and whether or not the line throws; when a script is missing or throws, `--execute` and the REPL are skipped and the run is terminated |
| ShellDriver.FilesSplit | src/run-on-golem/run-on-golem.action.ts:241-243 | the scripts run one after the other, in order, unless an earlier one aborts, and then no later one runs |
| ShellDriver.ThrowInScriptEndsRun | src/run-on-golem/run-on-golem.action.ts:236-259 | a script line that throws ends the run: later lines and scripts, `--execute` and the REPL are skipped and the executor is terminated |
| ShellDriver.ConsoleIffWanted | src/run-on-golem/run-on-golem.action.ts:251-253 | the REPL runs iff neither `--execute` nor files were given, or `--interactive` is set |
| ShellDriver.ConsoleStopsAtExit | src/run-on-golem/run-on-golem.action.ts:163-171 | the REPL resolves after the first line that leaves `exited` set |
| ShellDriver.ConsoleStopsAtThrow | src/run-on-golem/run-on-golem.action.ts:165-173 | a REPL line that throws rejects the REPL, which ends the action |
| ShellDriver.ConsoleExtends | src/run-on-golem/run-on-golem.action.ts:163-173 | the REPL only appends to the output, and a finished REPL leaves `exited` set or ends with the error of a line that threw |
| ShellDriver.LinesNeverTerminate | src/run-on-golem/run-on-golem.action.ts:148-150 | no line of a script terminates the executor |
| Paths.BasenameNoSlash | src/run-on-golem/shell-program.ts:180 | a basename never contains "/" |
| Paths.DirnameOfPlainName | src/run-on-golem/shell-program.ts:181 | the directory of a name without "/" is "." |
| Paths.DirnameOfBasename | src/run-on-golem/shell-program.ts:180-181 | the default download path always lives in the current directory |
| Text.SplitFirst | src/lib/pkg.ts:23-28 | the first part of a split is the text before the first separator, and it is the only part iff there is no separator |
| Text.SplitPartsFree | src/run-on-golem/shell-program.ts:70 | no part of a split contains the separator |
| Text.JoinSplit | src/run-on-golem/shell-program.ts:59 | joining the parts of a split with the separator gives back the text |
| Text.SplitJoin | src/run-on-golem/shell-program.ts:59 | splitting a join of separator-free parts gives back the parts |
| Text.SplitSecond | src/run-on-golem/shell-program.ts:70 | the second part of a split is the text between the first and second separator |
| Text.SplitFirstTwo | src/lib/pkg.ts:28 | the first two parts of a split are the text before the first separator and, when there is one, the text between the first and second |
| Text.LowerAscii | src/payment/invoice-accept.action.ts:86 | lower-casing keeps the length and changes only ASCII capitals |
| Data.Unique | src/lib/data.ts:3 | `[...new Set(s)]` has no duplicates and holds exactly the elements of `s` |
| Data.CombineUniqueArrays | src/lib/data.ts:1-4 | the result has no duplicates and holds exactly what occurs in either array |
| Data.UniqueOrder | src/lib/data.ts:3 | elements appear in the order of their first occurrence |
| Data.CombinePrefix | src/lib/data.ts:1-4 | a first array without duplicates is a prefix of the result |
| Data.CombineIdempotent | src/lib/data.ts:1-4 | combining the result with the second array again returns the same result |
| Data.CombineOrder | src/lib/data.ts:1-4 | the result keeps the order of first occurrence in the concatenation |
| Data.UniqueOfDistinct | src/lib/data.ts:3 | a list without duplicates is its own unique list |
| Pkg.GetPackageManager | src/lib/pkg.ts:13-37 | the name is never empty, and a version, when present, is never empty |
| Pkg.MissingAgentIsNpm | src/lib/pkg.ts:14-21 | an absent or empty agent gives npm without a version |
| Pkg.ArgumentBeatsEnvironment | src/lib/pkg.ts:18 | a given argument, even an empty one, overrides the environment variable |
| Pkg.OnlyFirstWord | src/lib/pkg.ts:23-26 | only the first space-separated word counts; an agent starting with a space gives the default |
| Pkg.NameAndVersion | src/lib/pkg.ts:28-34 | `name/version` gives that name and version; anything after a second "/" is ignored |
| Pkg.FromFirstWord | src/lib/pkg.ts:28-34 | the name is the text before the first "/" unless that is empty ("npm" then); the version is the text between the first and second "/" when there is a "/" and that text is not empty, otherwise none |
| NewProject.ValidNameIsPlain | src/new/new.options.ts:11 | a valid name has no "/", ".", space or upper-case letter |
| NewProject.FirstValidName | src/new/new.action.ts:10-19 | the prompt settles on a valid answer that was typed, and gets none iff no answer is valid |
| NewProject.GetName | src/new/new.action.ts:8-28 | a chosen name is valid; a given name is chosen iff it is valid, and otherwise rejected |
| NewProject.GetTemplate | src/new/new.action.ts:45-66 | a chosen template satisfies the name rule; a given template is used iff it satisfies it; without `--template` the select's only choice "js-node" is used, and a cancelled select gives no answer |
| NewProject.GetDescription | src/new/new.action.ts:68-81 | a given description, even an empty one, is used without prompting; otherwise the answer or the default text, and a cancel gives no answer |
| NewProject.GetVersion | src/new/new.action.ts:30-43 | a given version is used without prompting; otherwise the answer or "1.0.0", and a cancel gives no answer |
| NewProject.PackageJson.Update | src/new/new.action.ts:109-114 | the fields become the updated fields of the old ones |
| NewProject.UpdateTouchesOnlyMetadata | src/new/new.action.ts:109-114 | name, description and version are overwritten, author only when given and non-empty, and every other key keeps its value |
| NewProject.InvalidNameExitsFirst | src/new/new.action.ts:21-24 | a given invalid name exits with the name error before anything is copied or written, as written and corrected |
| NewProject.CopyOnlyAfterValidation | src/new/new.action.ts:124-150 | a copy happens only for a valid name, a project path (by default cwd/name) that does not exist, a valid and existing template, answered (not cancelled) description and version prompts, and a copy without error, as written and corrected |
| NewProject.CancelStopsEverything | src/new/new.action.ts:124-140 | a cancelled prompt (name, template select, description or version) rejects before anything is printed, copied or written, once the checks before it have passed |
| NewProject.FinalizeWrites | src/new/new.action.ts:90-122 | package.json is written iff it was read, parsed and could be written, and the command then completes |
| NewProject.WrittenPackageJson | src/new/new.action.ts:124-168 | the command completes iff package.json is written, and what is written is the parsed file with the chosen metadata |
| NewProject.AppVersionIgnoredAsWritten | src/new/new.action.ts:140 | as written, the stored version is the prompt's answer or "1.0.0" even when `--app-version` is given; the corrected action stores the given one |
| NewProject.AppVersionExample | src/new/new.action.ts:140 | `--app-version 2.0.0` with the prompt left at its default writes "1.0.0" as written and "2.0.0" corrected |
| ManifestCreate.TagSpecMeansSlashThenColon | src/manifest/manifest-create.action.ts:89 | the tag pattern matches iff there is no line break and some "/" is followed later by some ":" |
| ManifestCreate.TagIsNotHashLike | src/manifest/manifest-create.action.ts:89-93 | a tag never looks like a hash |
| ManifestCreate.FromHash | src/manifest/manifest-create.action.ts:81-86 | the hash is "sha3:" followed by the given hash |
| ManifestCreate.ShortHashExits | src/manifest/manifest-create.action.ts:93-99 | a spec made only of [a-z0-9] whose length is not 56 exits |
| ManifestCreate.HashSpecImage | src/manifest/manifest-create.action.ts:81-101 | a 56-character hash gives the registry download URL by hash and a "sha3:" hash that passes validation |
| ManifestCreate.TagWithHash | src/manifest/manifest-create.action.ts:35-41 | a tag with a given hash gives the download URL by tag and keeps the hash |
| ManifestCreate.TagWithoutHash | src/manifest/manifest-create.action.ts:102-103 | a tag without a hash is resolved by the registry |
| ManifestCreate.UrlWithHash | src/manifest/manifest-create.action.ts:105-110 | any other spec with a given hash is used unchanged as URL, with that hash |
| ManifestCreate.UrlWithoutHash | src/manifest/manifest-create.action.ts:46-79 | a URL outside the download endpoint has no hash; one inside it with a `hash` parameter is the download by that hash |
| ManifestCreate.ValidationRule | src/manifest/manifest-create.action.ts:175-189 | validation passes iff the URL parses and the hash is present and is "sha3:" + 56 [a-z0-9] |
| ManifestCreate.FillKeepsGivenFields | src/manifest/manifest-create.action.ts:128-173 | given fields are never overwritten, missing ones come from the parsed package.json, and with all three given nothing is read |
| ManifestCreate.CreateOptions.constructor | src/manifest/manifest-create.action.ts:191 | the options hold what they were made with |
| ManifestCreate.CreateOptions.FillWithPackageJson | src/manifest/manifest-create.action.ts:128-173 | the fields are filled in place as the fill specification says, or left unchanged with its error |
| ManifestCreate.WrittenManifest | src/manifest/manifest-create.action.ts:191-222 | a written manifest has version 0.1.0, expiry 90 days after creation, one linux/x86_64 payload with the image URL and a valid hash, and the filled metadata; an existing file is replaced only with `--overwrite`; it is written iff the action does not stop, and only when `writeFile` succeeds |
| ManifestCreate.FailedWriteThrows | src/manifest/manifest-create.action.ts:220-228 | a rejected `writeFile` throws its error once every check has passed; nothing is written and "Created manifest in ... file" is not printed |
| ManifestCreate.NoHashWarningUnreachable | src/manifest/manifest-create.action.ts:224-226 | the missing-hash warning is never printed, because validation already exits |
| ManifestNet.Collect | src/manifest/net/manifest-net-add-outbound.action.ts:16-22 | the rejected inputs are exactly the URLs that do not parse; with none rejected, the parsed list matches the input one for one |
| ManifestNet.ParseUrls | src/manifest/net/manifest-net-add-outbound.action.ts:12-31 | success iff every URL parses, with the parsed list in input order; otherwise every invalid URL, in order |
| ManifestNet.ProtocolName | src/manifest/net/manifest-net-add-outbound.action.ts:38 | one trailing ":" is removed, and nothing else |
| ManifestNet.Protocols | src/manifest/net/manifest-net-add-outbound.action.ts:38 | one protocol name per URL, in order |
| ManifestNet.MergeArrays | src/manifest/net/manifest-net-add-outbound.action.ts:55 | lodash's merge of two arrays: the new entries first, then the old list's longer tail |
| ManifestNet.Bullets | src/manifest/net/manifest-net-add-outbound.action.ts:26 | one "- url" line per invalid URL |
| ManifestNet.InvalidUrlStopsEverything | src/manifest/net/manifest-net-add-outbound.action.ts:24-37 | one invalid URL throws "Invalid URL(s) provided." before the manifest is read, whatever it holds, lists every invalid URL and writes nothing |
| ManifestNet.WrittenOutbound | src/manifest/net/manifest-net-add-outbound.action.ts:37-56 | for valid URLs and a manifest whose lists hold no duplicates (see DuplicateTailSurvivesMerge), the written lists are the unique merges of the existing (or empty) lists with the new URLs and protocols, with existing entries first and no duplicates; the version is 0.1.0 |
| ManifestNet.FailedWriteThrows | src/manifest/net/manifest-net-add-outbound.action.ts:55-56 | with valid URLs and any manifest, a rejected `writeFile` throws its error and nothing is written |
| ManifestNet.ProtocolsOfUrls | src/manifest/net/manifest-net-add-outbound.action.ts:37-38 | the protocol list holds each URL's protocol without its ":", in order |
| ManifestNet.DuplicateTailSurvivesMerge | src/manifest/net/manifest-net-add-outbound.action.ts:55 | an existing list with duplicates leaves a duplicate tail after the merge |
| Invoices.TrimStart | src/payment/common.ts:7 | the white space `parseInt` skips is removed from the front, and nothing else |
| Invoices.ParseIntOrThrow | src/payment/common.ts:6-12 | success iff `parseInt` gives a number that is not negative, with that number; otherwise "Not a valid positive integer." |
| Invoices.LeadingDigits | src/payment/common.ts:7 | digits followed by a non-digit spell the number of the digits |
| Invoices.TrailingTextIgnored | src/payment/payment.command.ts:4-10 | digits followed by any non-digit text are accepted as the digits' number |
| Invoices.MinusSign | src/payment/common.ts:7 | after a leading "-", the number that follows is negated |
| Invoices.NegativeRejected | src/payment/payment.command.ts:5-7 | a minus sign before a non-zero number is rejected |
| Invoices.MinusZeroAccepted | src/payment/common.ts:8 | a minus sign before zeros ("-0", "-00", ...) is accepted as 0 |
| Invoices.NoDigitsRejected | src/payment/common.ts:8-9 | text with no digit after the blanks and the sign is rejected |
| Invoices.DefaultSearchOptions | src/payment/common.ts:21-57 | limit 50, after the epoch, statuses RECEIVED, ACCEPTED and SETTLED, the default columns, url, format "table", no ids; `accept` adds three false flags |
| Invoices.FetchEach | src/payment/common.ts:64 | fetching by ids succeeds iff every id fetches, with the invoices in id order |
| Invoices.FetchRouting | src/payment/common.ts:59-76 | a non-empty id list fetches each id and ignores the filters; no id list or an empty one runs the search |
| Invoices.SearchFilterFields | src/payment/common.ts:66-75 | the search filters are the options, field for field |
| Invoices.Keys | src/payment/invoice-search.action.ts:52 | the keys of a row, in order |
| Invoices.KnownColumns | src/payment/invoice-search.action.ts:22 | the requested columns that exist, in request order |
| Invoices.Pick | src/payment/invoice-search.action.ts:22 | a picked row's keys are the requested existing columns, each once, and each cell holds the full row's value |
| Invoices.PickedColumns | src/payment/payment.action.ts:38 | a picked row holds only requested columns that exist, each once, and all of them |
| Invoices.ValueOfFirst | src/payment/payment.action.ts:38 | looking up a cell's key finds that cell's value when no earlier cell has the key |
| Invoices.PickedValue | src/payment/payment.action.ts:38 | a requested column that exists appears in the picked row with the full row's value |
| Invoices.Values | src/payment/payment.action.ts:60 | the values of a row, in order |
| Invoices.CsvLines | src/payment/payment.action.ts:57-61 | one CSV line per row, in order |
| Invoices.Insert | src/payment/payment.action.ts:71 | inserting adds the invoice and keeps a sorted list sorted |
| Invoices.SortByTime | src/payment/payment.action.ts:70-71 | the result is sorted by timestamp and is a permutation of the input |
| Invoices.AskUpTo | src/payment/invoice-accept.action.ts:11-45 | the loop is cancelled iff the answers run out, shows one numbered card per prompt, and otherwise selects the invoices answered yes |
| Invoices.Taken | src/payment/payment.action.ts:86-109 | what is selected comes from the invoices shown |
| Invoices.AskForConfirmation | src/payment/payment.action.ts:86-109 | the counter loop with its pushes gives the outcome of `AskUpTo` over all invoices |
| Invoices.CancelledStays | src/payment/invoice-accept.action.ts:35-42 | once cancelled, no further invoice is shown or taken |
| Invoices.AllYesTakesAll | src/payment/invoice-accept.action.ts:35-42 | answering yes to every invoice selects all of them |
| Invoices.AllNoTakesNone | src/payment/invoice-accept.action.ts:35-42 | answering no to every invoice selects none |
| Invoices.Amounts | src/payment/payment.action.ts:129 | the amounts of the invoices, in order |
| Invoices.AmountsConcat | src/payment/invoice-accept.action.ts:92 | the amounts of a concatenation are the concatenated amounts |
| Invoices.StatusLabelMeaning | src/payment/invoice-accept.action.ts:134-141 | the status starts with "success" iff the acceptance succeeded and ends with " (dry run)" iff it was a dry run |
| Decimal.FracValue | src/payment/invoice-accept.action.ts:92 | the digits after the decimal point are worth between 0 and 1 |
| Decimal.FindExp | src/payment/invoice-accept.action.ts:92 | the exponent mark found is the first one |
| Decimal.DigitsAreIntegers | src/payment/invoice-accept.action.ts:92 | a string of digits is read as the integer it spells |
| Decimal.MinusNegates | src/payment/invoice-accept.action.ts:92 | a leading "-" is accepted iff what follows is, and negates its value |
| Decimal.Values | src/payment/payment.action.ts:129 | each amount read as a decimal, in order |
| Decimal.SumConcat | src/payment/payment.action.ts:129 | the running sum of a concatenation exists iff both halves do, and is the sum of their sums |
| Decimal.SumDefined | src/payment/payment.action.ts:129 | the running sum exists iff every amount was read |
| Decimal.TotalConcat | src/payment/payment.action.ts:129 | the total of a concatenation is the sum of the totals, and exists iff both do |
| Decimal.TotalDefined | src/payment/payment.action.ts:129 | the total exists iff every amount is a decimal |
| Payment.DefaultPaymentOptions | src/payment/payment.command.ts:19-67 | limit 50, after the epoch, columns id, paid, status, amount and timestamp, statuses RECEIVED, ACCEPTED and SETTLED, format "table", and `pay`, `yes`, `dryRun` and `silent` false |
| Payment.PaymentFilter | src/payment/payment.action.ts:14-22 | the search filters are the options, field for field, with no payment-platform filter |
| Payment.AllColumns | src/payment/payment.action.ts:27-37 | the full row's keys are id, paid, status, amount, timestamp, platform, payer, issuer, providerId in that order, all distinct |
| Payment.Rows | src/payment/payment.action.ts:26-40 | one row per invoice, in order |
| Payment.Coloured | src/payment/payment.action.ts:41-50 | one coloured table row per invoice, in order |
| Payment.RowContents | src/payment/payment.action.ts:27-48 | a row holds a requested column iff it exists, each once; `paid` is "paid" iff the status is not RECEIVED; the colour is white iff `paid` is not shown, otherwise green iff paid |
| Payment.PrintShapes | src/payment/payment.action.ts:41-61 | an empty table prints "No invoices found"; CSV is the header line and one line per invoice; JSON prints the rows |
| Payment.Unpaid | src/payment/payment.action.ts:81 | an invoice is passed to `pay` iff it was fetched and its status is RECEIVED |
| Payment.UnpaidInOrder | src/payment/payment.action.ts:81 | the filter keeps the fetched order: a concatenation gives the invoices of each part in turn, and one invoice is kept exactly when it is RECEIVED |
| Payment.Summary | src/payment/payment.action.ts:157-170 | one summary row per acceptance result, in order |
| Payment.PaySelection | src/payment/payment.action.ts:111-151 | no invoices prints "No unpaid invoices found" and accepts nothing; `--yes` accepts all of them; otherwise an acceptance needs an answer for every invoice and a confirmed total, accepts exactly the invoices answered yes, and prints their count and exact total |
| Payment.PaymentGates | src/payment/payment.action.ts:64-84 | a fetch failure prints only the failure message; anything accepted was fetched, has status RECEIVED, and `--pay` was given |
| InvoiceAccept.AllColumns | src/payment/invoice-accept.action.ts:16-26 | the card's keys are id, accepted, status, amount, timestamp, platform, payer, issuer, providerId in that order, all distinct |
| InvoiceAccept.CardColumns | src/payment/invoice-accept.action.ts:16-27 | a confirmation card holds a requested column iff it exists, each once; "accepted" reads yes iff the status is not RECEIVED |
| InvoiceAccept.NetworksDisjoint | src/payment/invoice-accept.action.ts:85-90 | no invoice is on both testnet and mainnet |
| InvoiceAccept.Select | src/payment/invoice-accept.action.ts:85-90 | the filter keeps an invoice iff it satisfies the condition, in order |
| InvoiceAccept.SplitByNetwork | src/payment/invoice-accept.action.ts:85-90 | the testnet group, the mainnet group and the rest together are exactly the selection, as a multiset |
| InvoiceAccept.Plus | src/payment/invoice-accept.action.ts:92 | the sum exists iff both operands do |
| InvoiceAccept.TotalsByNetwork | src/payment/invoice-accept.action.ts:91-106 | the selection's total exists iff the three groups' totals do, and it then equals their sum |
| InvoiceAccept.GroupTotals | src/payment/invoice-accept.action.ts:91-106 | a group counts its members, the empty group totals 0, and a total exists iff every member's amount is a decimal |
| InvoiceAccept.ResultRows | src/payment/invoice-accept.action.ts:134-141 | one row per acceptance result, in order |
| InvoiceAccept.ResultTable | src/payment/invoice-accept.action.ts:143-151 | one coloured row per acceptance result, in order |
| InvoiceAccept.CsvHeader | src/payment/invoice-accept.action.ts:159 | the CSV header is "invoiceId,status,amount,platform" |
| InvoiceAccept.ReportCsv | src/payment/invoice-accept.action.ts:157-161 | CSV throws iff there are no results; otherwise the header and one line per result |
| InvoiceAccept.ConfirmedOutcome | src/payment/invoice-accept.action.ts:91-128 | after a non-empty selection, a total that does not exist or a cancelled prompt exits 1; "no" exits 0 and accepts nothing; "yes" accepts exactly the selection |
| InvoiceAccept.FetchFailure | src/payment/invoice-accept.action.ts:56-63 | a fetch failure prints the error and the failure message, sets exit code 1 and accepts nothing |
| InvoiceAccept.NothingOrEverything | src/payment/invoice-accept.action.ts:65-74 | zero invoices accepts nothing, and prints "No unaccepted invoices found" unless silent; `--yes` accepts every fetched invoice without prompting |
| InvoiceAccept.AcceptedWereConfirmed | src/payment/invoice-accept.action.ts:76-117 | without `--yes`, what is accepted is the non-empty selection answered yes, and the final answer was yes |
| InvoiceAccept.FinishExit | src/payment/invoice-accept.action.ts:125-161 | once accepted, the exit code is 0, and the action throws iff it is not silent, the format is CSV and there are no results |
| InvoiceAccept.ExitCodes | src/payment/invoice-accept.action.ts:56-122 | exit code 1 means nothing was accepted; a throw means the invoices were accepted and then printed as CSV with no results |
| InvoiceSearch.AllColumns | src/payment/invoice-search.action.ts:10-21 | the full row's keys are id, status, amount, timestamp, platform, payer, issuer, providerId in that order, all distinct |
| InvoiceSearch.Rows | src/payment/invoice-search.action.ts:10-23 | one row per invoice, in order |
| InvoiceSearch.Coloured | src/payment/invoice-search.action.ts:29-36 | one coloured table row per invoice, in order |
| InvoiceSearch.RowContents | src/payment/invoice-search.action.ts:10-35 | a row holds a requested column iff it exists, each once; `status` holds the invoice's status; red iff the status is RECEIVED or ISSUED, otherwise green |
| InvoiceSearch.SearchOutput | src/payment/invoice-search.action.ts:24-72 | a fetch failure prints only its message; an empty table prints "No invoices found"; CSV has one line per invoice; an unknown format prints nothing |

## Left out

- Commander's option parsing and dispatch are an oracle, `host.parse`. It maps a
  statement to a command or to a caught Commander error. Help text, usage and
  `showHelpAfterError` output are not modelled.
- `shell-quote` tokenising and `$VAR` substitution are an oracle, `host.tokenize`. It
  maps a line and the variables to tokens, or to the error it throws (for example on
  `${`). Which lines it rejects, and the text of its errors, are not modelled.
- How readline splits a file into lines, the prompt, and SIGINT/SIGTERM handling are
  left out. They are streams and signals. A script file is a list of
  lines; REPL input is a list of lines.
- `createExecutor`, `TaskExecutor` and `context.magic()` are left out. The setup error is
  a parameter. Whether `terminate` is idempotent is decided in a class that is not
  part of this model.
- `time` is left out. It formats clocks with luxon and pretty-ms.
- Table layout, colours and `JSON.stringify` text are not modelled. The model keeps
  rows and colour names.
- Prompt messages are not modelled. Prompt answers are inputs. For the invoice prompts
  they are an answer list, with `None` for a cancelled prompt. For `new` they are the
  name answers, a flag for a cancelled template select, and an `Answer` (typed text,
  the initial value kept, or a cancel) for the description and version prompts.
- Decimal output formatting and decimal.js-light's 20-digit rounding are left out. Totals
  are exact. `Decimal.ParseDecimal` accepts any exponent, whereas decimal.js-light
  throws "Exponent out of range" when the exponent's magnitude exceeds 9e15. That throw
  is not modelled.
- `Date` parsing is left out. `parseDateOrThrow` is not modelled, and a timestamp is an
  integer given by `instant`.
- Invoices.SortByTime: states the sort (ordered by timestamp, a permutation) through a
  function on a sequence. It does not state the in-place update or the stability of
  `Array.prototype.sort`.
- Invoices.ParseIntOrThrow: the number is the exact integer of the digits. `parseInt`
  returns an IEEE double, so above 2^53 the program gets the nearest double (for
  "9007199254740993" it gets 9007199254740992), and beyond about 1.8e308 Infinity.
  That rounding is not modelled.
- Invoices.NegativeRejected: stated only for a tail that does not start with a digit,
  which is weaker than "every negative number".
- Invoices.FetchEach: the failure returned is the first in id order. `Promise.all` may
  report another one.
- Text.LowerAscii: lower-cases ASCII letters only. It is weaker than JavaScript's
  Unicode `toLowerCase`.
- NewProject.JoinWithSlash: `path.join` is modelled as the two parts joined by one "/".
  Its normalisation (a trailing "/", `.` and `..` segments) is not modelled.
- ManifestCreate.ManifestCreateAction follows the action's own signature, an image and
  the options. manifest-create.command.ts passes three arguments (name, image,
  options) and declares `--version` where the options read `manifestVersion`. That
  wiring between the command and the action is not modelled.
- lodash `pick` is modelled for flat column names only. Deep paths are not modelled.
- Invoices.Pick: only a row's own keys are picked (`KnownColumns`). lodash `pick` tests
  with `hasIn`, so a column named after an inherited property, such as `constructor`,
  is picked from `Object.prototype` in the program. Inherited keys are not modelled.
- ShellSpec.SetReadsVariable: `Lookup` sees only the variables the session created or
  took from the environment. In the program `vars` is a plain object, so `set
  constructor` (and any other `Object.prototype` name) reads the inherited value and
  prints its string form, such as `constructor=function Object() { [native code] }`,
  where the model prints `constructor=`. Inherited keys are not modelled.
- ShellSpec.SetAssignsVariable: `Assign` stores every key. In the program `set
  __proto__=x` assigns through the `__proto__` setter, which ignores a string, so
  nothing is stored and later listings do not show it. The model stores a `__proto__`
  binding.
- ShellSession.Session.Set: it follows `SetStep`, so the two gaps above, inherited keys
  and `__proto__`, apply to it too.
- ShellDriver.FilesThenExecute: `assertFileExists` (src/lib/file.ts holds only
  `checkFileOverwrite`, so the helper's text is not part of this model) is taken to
  throw on a missing script. The error then reaches the action's `catch`, and the
  `finally` terminates the executor. If the helper calls `process.exit(1)`, as
  `checkFileOverwrite` does, the `finally` does not run, and "the run is terminated"
  does not hold for that case.
- ShellSession.Session.ExecFiles: it rests on the same assumption about
  `assertFileExists`: a missing script is reported as `Crash(ScriptMissing(file))` and
  ends the file loop through the `catch`, not through `process.exit`.
- ShellSpec.UploadGate: `checkFileExists` is not part of this model. Its answer is whether
  the source is in the host's `files` set, and whatever it prints for a missing file
  is not modelled. Only
  "Upload aborted." is recorded.
- ShellSpec.DownloadGate: `checkDirExists` is not part of this model. Its answer is whether
  the directory is in the host's `dirs` set, and whatever it prints for a missing
  directory is not modelled.
  Only "Download aborted." is recorded.
- lodash `merge` is modelled for the outbound lists only. The rest of the manifest
  document is carried as it is.
- `readManifest` (file system and schema validation), `manifest sign` and
  `manifest verify` (crypto) are not part of this model.
- `resolveTaskPackageUrl` (a network fetch) is a parameter.
- The Yagna/SDK calls of the invoice and payment actions are parameters, as are
  `acceptManyInvoices`' results.
- `payment.command.ts`'s `.conflicts(...)` rules are Commander behaviour and are not
  modelled.
- `market`, `inspect` and the project templates are not part of this model. They are
  network, UI and demo code.

## Findings

| source | as written | input that shows it | evidently intended | confidence | as-written member | corrected member |
|---|---|---|---|---|---|---|
| src/run-on-golem/run-on-golem.action.ts:34 | the loop condition `(token = tokens.shift())` is falsy for an empty string token, so the loop stops and drops the rest of the line | tokens `run`, `""`, `;`, `echo`, `hi` (e.g. the line `run "" ; echo hi`) build only `[["run"]]` | loop until the tokens run out: `[["run", ""], ["echo", "hi"]]` | not executed | Statements.EmptyTokenTruncatesLine | Statements.ArgumentsAreStringsBeforeEnd |
| src/new/new.action.ts:140 | `getVersion(options.version)` reads a property that Commander never sets: the option `--app-version` is stored as `appVersion` | `golem-sdk new app --app-version 2.0.0`, with the version prompt left at its initial value, writes version "1.0.0" | the given version is written | not executed | NewProject.AppVersionIgnoredAsWritten | NewProject.WrittenPackageJson |
