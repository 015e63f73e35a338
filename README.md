# create-your-internet, modelled in Dafny

`create-your-internet` is an interactive wizard that scaffolds a new
`internetdata` project. It asks five questions, one line each, and retries a
question until a line is accepted:

1. the package manager (`npm` or `yarn`; empty means `yarn`);
2. the project name (empty means `my_project`; otherwise the name must pass
   `isValidPackageName`);
3. whether to help connect an LSD account, asked only when no credential is
   found;
4. whether to help install the Bicycle browser, asked only when Bicycle is not
   installed;
5. whether to help write the integration code.

As written, the file does not run: line 102 leaves a `console.log(` call
unclosed, so the script fails to parse. Past that, the first question already
throws at line 35, whatever is typed; lines 80, 91 and 232 repeat the
pattern. The default `index.ts` is never written (lines 275 and 197).
"## Findings" below records each defect. The run described here, and modelled
by every function the rest of the model uses, is the corrected program, in
which those four lines do what they evidently intend.

The run aborts when the chosen package manager is not on the PATH. Otherwise
it does these steps in order:

- creates the project folder and enters it;
- writes `tsconfig.json`;
- runs `<pm> init -y --name=<name>`, then installs `internetdata` and `zod`;
- writes the default `index.ts` when code help is declined, with the session
  mode `BROWSER` when Bicycle is installed and `TRAVERSER` otherwise;
- goes back up one directory.

The model has one module per concern:

- `Validator`: the name rules and the three answer normalisers.
- `Prompt`: the five questions and the retry. The retry is a recursive
  specification (`FirstAccepted`) and a loop proved equal to it
  (`AskUntilAccepted`). Standard input is a finite sequence of lines.
- `Environment`: the probes, over one snapshot of the machine (platform,
  existing paths, home directory, environment variables, commands on the
  PATH).
- `Paths`: relative-path resolution for `mkdirSync`, `chdir` and
  `writeFileSync`.
- `Steps`: every step of the run as a function over a `World` value. The
  `World` holds the unread input, the questions shown, the directories, the
  files, the working directory and a log of effects (mkdir, chdir, writes,
  subprocess commands).
- `Wizard`: a class holding that state in fields. It has one method per
  helper of the source, and each method is proved to end in the state the
  matching `Steps` function gives.
- `RunProperties`: what the run promises, proved about `Steps`.
- `Scenarios`: whole runs on given answers.
- `Delimiters`: bracket matching, used only to show that the file as written
  does not parse.

## Model

| member | source | states |
|---|---|---|
| Validator.ToLower | bin/create-your-internet.js:47 | the result has the input's length and each character is the input's character lower-cased |
| Validator.LowerIffUnchanged | bin/create-your-internet.js:47 | a string equals its lower-case form exactly when it holds no upper-case letter |
| Validator.ToLowerIdempotent | bin/create-your-internet.js:35 | lower-casing an answer twice gives the same as lower-casing it once |
| Validator.IsValidPackageName | bin/create-your-internet.js:45-65 | an accepted name has 1 to 214 characters, does not start with `.` or `_`, and is not `node_modules` or `favicon.ico` (the full rule set, in both directions, is `ValidNameRules`) |
| Validator.ValidNameRules | bin/create-your-internet.js:45-65 | a name is valid exactly when all six rules hold: no upper-case letter, length 1 to 214, every character in `[a-z0-9-._~]`, first character not `.` or `_`, no two adjacent dots, and not `node_modules` or `favicon.ico` |
| Validator.UrlSafeIsLowercase | bin/create-your-internet.js:47-53 | a name that matches the URL-safe class is already lower-case, so the first rule never rejects a name the third accepts |
| Validator.ValidNameIsPlainSegment | bin/create-your-internet.js:168-170 | a valid name is non-empty, is neither `.` nor `..`, and holds no `/`, so `mkdirSync(name)` and `chdir('./' + name)` name one child directory |
| Validator.LetterNameIsValid | bin/create-your-internet.js:45-65 | a non-reserved name of 1 to 214 lower-case letters, `-` and `_` that starts with a letter is valid |
| Validator.DefaultNameIsValid | bin/create-your-internet.js:69-70 | the fallback name `my_project` passes every rule |
| Validator.NormalizePackageManager | bin/create-your-internet.js:34-43 | the answer is `yarn` exactly when the lower-cased line is empty or `yarn`, `npm` exactly when it is `npm`, and otherwise the question is asked again |
| Validator.NormalizeProjectName | bin/create-your-internet.js:67-77 | an empty line gives `my_project`; a non-empty line is accepted unchanged exactly when it is valid; every accepted name is valid |
| Validator.NormalizeYesNo | bin/create-your-internet.js:79-99 | the answer is `y` exactly when the lower-cased line is empty or `y`, `n` exactly when it is `n`, and otherwise the question is asked again |
| Validator.NormalisersIgnoreCase | bin/create-your-internet.js:34-43 | the package-manager and yes/no normalisers give the same answer for a line and for its lower-case form |
| Prompt.Normalize | bin/create-your-internet.js:34-99 | every accepted answer is normalised: `npm`/`yarn`, a valid name, or `y`/`n` |
| Prompt.NormalizedIsFixedPoint | bin/create-your-internet.js:34-99 | a normalised answer typed again is accepted unchanged |
| Prompt.FirstAccepted | bin/create-your-internet.js:67-77 | the retry's answer is the normalised form of the first accepted line; every line before it was refused; when no line is accepted every line was refused |
| Prompt.AcceptedIsNormalized | bin/create-your-internet.js:67-77 | whatever the retry accepts is a normalised answer to its question |
| Prompt.AskUntilAccepted | bin/create-your-internet.js:34-43 | the read-until-accepted loop returns exactly the answer and line count that `FirstAccepted` specifies |
| Prompt.ReadAnswer | bin/create-your-internet.js:35 | the corrected read succeeds on every line. The answer keeps the line's length and holds no upper-case letter, and the manager and yes/no questions classify it exactly as they classify the typed line |
| Prompt.ReadAnswerAsWritten | bin/create-your-internet.js:35 | the read as written fails with a TypeError, whatever line is typed |
| Prompt.CallToLowerCase | bin/create-your-internet.js:35 | `.toLowerCase()` succeeds exactly on a string, giving its lower-case form |
| Prompt.AsWrittenReadThrows | bin/create-your-internet.js:35 | as written, reading any answer throws; as intended, the line is lower-cased, so `YARN` reads as `yarn` and is accepted |
| Environment.IsExecutableInPath | bin/create-your-internet.js:12-20 | a command counts as executable exactly when the snapshot lists it as resolving to an executable file (`which` and `access` are not modelled) |
| Environment.BicycleCandidates | bin/create-your-internet.js:119-127 | macOS checks one install location and the other platforms two; every location is an absolute path, on drive `C:` under Windows and under `/` elsewhere |
| Environment.IsBicycleInstalled | bin/create-your-internet.js:118-128 | Bicycle counts as installed exactly when one of the install paths for the current platform exists |
| Environment.ConfigFilePath | bin/create-your-internet.js:131 | for a non-empty home directory, the credential file path starts with the home directory and ends in `.lsd`, with exactly the platform's separator between them: it is inserted when the home directory does not already end in one, and otherwise the home directory's own final separator serves |
| Environment.ConfigPathWithTrailingSeparator | bin/create-your-internet.js:131 | when the home directory already ends in the platform's separator, the path is the home directory followed directly by `.lsd`, with no second separator |
| Environment.ConfigPathWithoutHome | bin/create-your-internet.js:131 | with an empty home directory the path is the bare name `.lsd` |
| Environment.LsdAuthExists | bin/create-your-internet.js:130-145 | a credential exists exactly when the `.lsd` file exists, or `LSD_USER` and `LSD_PASSWORD` are both non-empty |
| Environment.AuthNeedsBothVariables | bin/create-your-internet.js:137-144 | without the file, an unset variable reads as empty, and a credential exists exactly when both variables are set and non-empty |
| Environment.ModeToken | bin/create-your-internet.js:210 | the template's mode is `BROWSER` exactly when Bicycle is installed, and `TRAVERSER` otherwise |
| Paths.Split | bin/create-your-internet.js:170 | splitting a path gives at least one segment, and no segment holds `/` |
| Paths.JoinSplit | bin/create-your-internet.js:170 | joining the segments of a path with `/` gives the path back |
| Paths.SplitSegment | bin/create-your-internet.js:169 | a string without `/` is one segment |
| Paths.SplitDotSlash | bin/create-your-internet.js:170 | `./name` splits into `.` followed by the segments of `name` |
| Paths.DotSlashIsSame | bin/create-your-internet.js:169-170 | `./name` and `name` resolve to the same path |
| Paths.DotSlashDotDotIsParent | bin/create-your-internet.js:242-244 | `./..` resolves to the parent of the working directory, and the root stays the root |
| Paths.EnterAndLeave | bin/create-your-internet.js:168-171 | for a plain segment, `name` and `./name` resolve to the child `name`, and `./..` from that child leads back |
| Steps.Ask | bin/create-your-internet.js:22-43 | the answer is present exactly when `FirstAccepted` accepts a line, and it is that line's normalised value. The input loses exactly the lines up to and including the accepted one, and the question is shown once per line read. With no accepted line, all input is consumed and the question is shown once more than there were lines. Only the question log and the input change |
| Steps.Gate | bin/create-your-internet.js:147-166 | a gate whose probe holds asks nothing and changes nothing. Otherwise it reads the input exactly as `Ask` does. When `FirstAccepted` accepts a line, the gate completes, the lines up to and including that one are consumed, and its question is shown once per line read. When no line is accepted, the gate does not complete, all input is consumed, and its question is shown once more than there were lines. It adds no other question, and no file, directory or working directory changes |
| Steps.MakeDirectory | bin/create-your-internet.js:169 | `mkdirSync` fails exactly when the target exists or its parent does not; otherwise it adds the directory and logs one mkdir |
| Steps.InitCommand | bin/create-your-internet.js:223 | the initialisation command is the chosen manager followed by ` init -y --name=` and the project name, and nothing else |
| Steps.InstallCommand | bin/create-your-internet.js:224-228 | the install command is `yarn add internetdata zod` exactly when the manager is `yarn`, and `npm i internetdata zod` otherwise; it starts with the chosen manager and ends with the two dependencies |
| Steps.CopyDefaultIndexTS | bin/create-your-internet.js:195-220 | `index.ts` in the working directory is created or replaced with the template whose mode is `BROWSER` when Bicycle is installed and `TRAVERSER` otherwise. Every other file stays as it was, one write is logged, and the directories, working directory and input do not change |
| Steps.WantsCodeAssist | bin/create-your-internet.js:275 | for a normalised answer, the corrected branch gives code help exactly when the answer is not `n` |
| Steps.WantsCodeAssistAsWritten | bin/create-your-internet.js:275 | the branch as written is taken exactly when the answer is a non-empty string, so it is taken for every normalised answer |
| Steps.CodeBranchAsWrittenAlwaysAssists | bin/create-your-internet.js:274-279 | as written, both normalised answers take the code-help branch; as intended, only `y` does and `n` writes the template |
| Steps.TemplateWriteAsWrittenThrows | bin/create-your-internet.js:195-220 | as written, `fs.writeSync` refuses the path `index.ts`, though it would accept any descriptor; as intended, `index.ts` in the working directory holds the template with the probe's mode token |
| Steps.Provision | bin/create-your-internet.js:270-282 | the scaffold stops with `FolderExists` exactly when creating the folder fails, and then changes nothing. It stops with `InputExhausted` only at the code question, with the input used up. A completed scaffold names the given manager and project, and no directory is ever removed |
| Steps.AfterName | bin/create-your-internet.js:264-282 | after the name, a completed run names the given manager and project; a run that stops for lack of input has used up the input; the manager check is never the reason it stops |
| Steps.AfterManager | bin/create-your-internet.js:263-282 | after the manager check, a completed run names the given manager and a valid project name, and the manager check is never the reason it stops |
| Steps.CreateYourInternet | bin/create-your-internet.js:253-284 | the run stops with a missing manager only for a normalised `npm`/`yarn` not on the PATH, with no directory, file or effect changed. A completed run names a manager on the PATH and a valid project name |
| RunProperties.AbortCreatesNothing | bin/create-your-internet.js:257-262 | when the run stops because the manager is missing, the manager was a normalised `npm`/`yarn` not on the PATH. No directory, file, working directory or command changed, and only the first question was shown |
| RunProperties.AbortWhenManagerMissing | bin/create-your-internet.js:257-262 | the run stops with a missing manager exactly when the first accepted manager is not on the PATH, and it names that manager |
| RunProperties.FolderStep | bin/create-your-internet.js:168-171 | for a valid name, creating the folder fails exactly when `name` already exists in the working directory; otherwise the new directory is the child `name`, and it becomes the working directory |
| RunProperties.ConfigWrite | bin/create-your-internet.js:173-186 | `tsconfig.json` is written into the working directory and nothing else changes |
| RunProperties.ConfigureStep | bin/create-your-internet.js:222-229 | after `tsconfig.json`, `init` and then the install command are issued in the project directory |
| RunProperties.TemplateWrite | bin/create-your-internet.js:195-220 | `index.ts` is written in the working directory with the probe's mode token |
| RunProperties.LeaveStep | bin/create-your-internet.js:242-244 | going up from `<start>/<name>` returns to `<start>` |
| RunProperties.ProvisionCompleted | bin/create-your-internet.js:270-282 | a completed scaffold adds exactly one new directory and ends in the starting directory. Its effects are mkdir, chdir, the `tsconfig.json` write, init, install, the template write when help was declined, and chdir back, in that order. The files gain exactly `tsconfig.json` and, when help was declined, `index.ts` |
| RunProperties.CompletedRun | bin/create-your-internet.js:253-284 | a completed run used a valid name and a normalised manager found on the PATH. The project directory did not exist before. The run ends in the starting directory, with the effects, directories and files stated for the scaffold |
| RunProperties.ProvisionAsksOnlyCode | bin/create-your-internet.js:270-282 | the scaffold shows no question but the code-help one |
| RunProperties.GateLog | bin/create-your-internet.js:147-166 | after the name question, the two gates keep the questions in stage order. The account question is shown exactly when no credential exists, and the browser question exactly when Bicycle is not installed |
| RunProperties.AfterNameLog | bin/create-your-internet.js:264-282 | from the gates on, the questions stay in stage order, with no account question when a credential exists and no browser question when Bicycle is installed |
| RunProperties.AfterManagerLog | bin/create-your-internet.js:263-282 | from the name question on, the same holds |
| RunProperties.ProvisionLog | bin/create-your-internet.js:270-282 | the scaffold keeps the questions in stage order and adds no question but the code-help one |
| RunProperties.QuestionLog | bin/create-your-internet.js:253-284 | the questions are shown in the fixed order (manager, name, account, browser, code), re-asking only in place. The account question is never shown when a credential exists, nor the browser question when Bicycle is installed |
| Wizard.Wizard.Ask | bin/create-your-internet.js:22-43 | the object ends in the state `Steps.Ask` gives, with the same answer |
| Wizard.Wizard.AuthWizard | bin/create-your-internet.js:147-155 | the object ends in the state `Steps.AuthWizard` gives |
| Wizard.Wizard.BicycleWizard | bin/create-your-internet.js:157-166 | the object ends in the state `Steps.BicycleWizard` gives |
| Wizard.Wizard.ChangeDirectory | bin/create-your-internet.js:170 | the working directory becomes the resolved target, one chdir is logged, and the working directory exists |
| Wizard.Wizard.CreateProjectFolder | bin/create-your-internet.js:168-171 | the method reports success exactly when `Steps.CreateProjectFolder` succeeds; it then ends in that state, and on failure nothing changes |
| Wizard.Wizard.WriteFileSync | bin/create-your-internet.js:174 | the file at the resolved path is created or replaced, and one write is logged |
| Wizard.Wizard.CopyRelevantFiles | bin/create-your-internet.js:173-186 | the object ends in the state `Steps.CopyRelevantFiles` gives |
| Wizard.Wizard.InitNewProject | bin/create-your-internet.js:222-229 | the object ends in the state `Steps.InitNewProject` gives |
| Wizard.Wizard.CopyDefaultIndexTS | bin/create-your-internet.js:195-220 | the object ends in the state `Steps.CopyDefaultIndexTS` gives |
| Wizard.Wizard.GoUpADirectory | bin/create-your-internet.js:242-244 | the object ends in the state `Steps.GoUpADirectory` gives, in an existing directory |
| Wizard.Wizard.CreateYourInternet | bin/create-your-internet.js:253-284 | the run ends with the outcome and state `Steps.CreateYourInternet` gives, whichever way it ends, and the working directory still exists |
| Scenarios.ManagerMissing | bin/create-your-internet.js:257-262 | answering `yarn` where only `npm` is on the PATH stops the run after one question, with nothing created or run |
| Scenarios.DeclineOutcome | bin/create-your-internet.js:253-284 | answering `npm`, a valid name, `n`, `n`, `n` completes the run without code help, showing each question once |
| Scenarios.DeclineEverything | bin/create-your-internet.js:253-284 | that run leaves exactly `<name>/tsconfig.json` and `<name>/index.ts` (mode `TRAVERSER`), issues the effects of a completed scaffold with `npm`, and ends in the starting directory |
| Scenarios.InvalidNameThenValid | bin/create-your-internet.js:67-77 | a non-empty invalid name is refused and the name question shown again; the valid name after it is used and the run completes |
| Scenarios.ExampleNames | bin/create-your-internet.js:45-65 | `Invalid Name!` is invalid; `my-app` and `okname` are valid |
| Delimiters.MismatchIsFinal | bin/create-your-internet.js:101-107 | once a parenthesis is opened and the next delimiter is a closing brace, no text before or after makes the delimiters balanced |
| Delimiters.AssistWithLSDAuthAsWritten | bin/create-your-internet.js:101-107 | the delimiters of `assistWithLSDAuth` as written are unbalanced: the function's `}` arrives while `console.log(` is still open |
| Delimiters.AssistWithLSDAuth | bin/create-your-internet.js:101-107 | with the call closed, the delimiters of `assistWithLSDAuth` are balanced |

## Left out

- Terminal I/O is not modelled: the prompt texts, `console.clear`, the diagnostics and `printProjectDetails` (lines 246-251, 283). The outcome `Created` stands for the summary being printed.
- `isExecutableInPath` (lines 12-20) is not resolved through `which` and `access`. Whether a command resolves to an executable is the snapshot's `onPath` set.
- `assistWithLSDAuth`, `assistWithBicycle` and `assistWithIndexTS` (lines 101-116, 188-193) are placeholders that only print text or do nothing. The model gives them no effect.
- Line 102 opens `console.log(` and never closes it (see "## Findings"). Beyond the delimiters, the model does not parse JavaScript. The rest of the model uses the corrected function, a print with no effect.
- `execSync` (lines 223-227) is recorded only as its command line, and the command is assumed to succeed. A failing subprocess would abort the run inside the project directory; that path is not modelled. The files that `init` and the install create (`package.json`, `node_modules`) are not modelled.
- `writeFileSync` failures are not modelled. The JSON text of `tsconfig.json` and the text of `index.ts` are abstracted to `TsConfig` and `IndexTs(mode)`; only the mode token is kept.
- A failing `mkdirSync` throws an uncaught error in the source. The model ends the run with the outcome `FolderExists` and no change.
- The probes read a snapshot taken once. The files the run creates are a separate model of the disk, so the probes do not see them.
- Paths are `/`-separated segments resolved against the working directory. Windows separators and absolute paths given to `mkdirSync` are not resolved. `path.join` is modelled only for a home directory with or without a trailing separator.
- Case folding covers ASCII letters only, and string length counts characters rather than UTF-16 code units. Either difference affects only characters that the URL-safe rule rejects anyway.
- The source retries without bound and would wait for more input. The model's input is a finite sequence of lines; when it runs out, the run ends with `InputExhausted` and the unanswered question is logged as shown.
- `async`/`await` scheduling and the process exit status are not modelled.
- Wizard.Wizard.ChangeDirectory: requires the target directory to exist, where `process.chdir` would throw. Every call in the run meets this, as `Wizard.Wizard.CreateYourInternet` proves.
- Wizard.Wizard.GoUpADirectory: requires the parent directory to exist, for the same reason.

## Findings

| source | as written | input that shows it | evidently intended | confidence | as-written member | corrected member |
|---|---|---|---|---|---|---|
| bin/create-your-internet.js:102 | `console.log(` is opened and the function's closing `}` follows with the call still open, so the file does not parse and nothing runs. This hides the three defects below | the file as written | close the call: ``console.log(`…`);`` | high; not executed | Delimiters.AssistWithLSDAuthAsWritten, Delimiters.MismatchIsFinal | Delimiters.AssistWithLSDAuth |
| bin/create-your-internet.js:35 | `await askQuestion(…).toLowerCase()` calls `toLowerCase` on the pending Promise, which throws a TypeError. Lines 80, 91 and 232 repeat the pattern | any typed line, e.g. `npm` | lower-case the awaited answer: `(await askQuestion(…)).toLowerCase()` | high; not executed | Prompt.ReadAnswerAsWritten, Prompt.AsWrittenReadThrows | Prompt.ReadAnswer, Validator.NormalizePackageManager |
| bin/create-your-internet.js:275 | `if (assistWithCode)` tests the answer string for truthiness. Both `y` and `n` are truthy, so the default template is never written | answer `n` to the code-help question | take the code-help branch only when the answer is `y` | high; not executed | Steps.WantsCodeAssistAsWritten, Steps.CodeBranchAsWrittenAlwaysAssists | Steps.WantsCodeAssist, Scenarios.DeclineEverything |
| bin/create-your-internet.js:197 | `fs.writeSync("index.ts", …)` passes a path where `writeSync` needs a file descriptor, so it throws and writes nothing. Because of the line 275 defect, this line is never reached as written | a run that declines code help, once line 275 is corrected | `fs.writeFileSync("index.ts", …)` | high; not executed | Steps.WriteSyncRefuses, Steps.TemplateWriteAsWrittenThrows | Steps.CopyDefaultIndexTS, RunProperties.TemplateWrite |
