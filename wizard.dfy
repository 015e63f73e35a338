/**
 * The wizard as the source runs it: one object holding the process state
 * that `createYourInternet` changes step by step (standard input, the
 * questions shown, the directories and files on disk, the working
 * directory, and the log of effects issued), with one method per helper of
 * the source. Each method is proved to leave the object in the state the
 * matching function of `Steps` describes.
 */
module Wizard {
  import opened Wrappers
  import opened Validator
  import opened Prompt
  import opened Environment
  import opened Paths
  import Steps

  class Wizard {
    /** The machine as the probes see it. */
    const env: Snapshot
    /** Lines of standard input not yet read. */
    var input: seq<string>
    /** Every question shown, once per time it is shown. */
    var asked: seq<Stage>
    var dirs: set<Path>
    var files: map<Path, Steps.Content>
    var cwd: Path
    /** Directory changes, writes and subprocess commands, in the order issued. */
    var trace: seq<Steps.Effect>

    /** The working directory exists. */
    ghost predicate Valid()
      reads this
    {
      cwd in dirs
    }

    /** The object's state as a value. */
    function State(): Steps.World
      reads this
    {
      Steps.World(input, asked, dirs, files, cwd, trace)
    }

    constructor (env: Snapshot, input: seq<string>, dirs: set<Path>, files: map<Path, Steps.Content>, cwd: Path)
      requires cwd in dirs
      ensures Valid() && this.env == env
      ensures State() == Steps.World(input, [], dirs, files, cwd, [])
    {
      this.env := env;
      this.input := input;
      this.asked := [];
      this.dirs := dirs;
      this.files := files;
      this.cwd := cwd;
      this.trace := [];
    }

    /** One question with its retries (`getPreferred…`, `shouldAssistWith…`). */
    method Ask(q: Stage) returns (answer: Option<string>)
      modifies this
      ensures Steps.Asked(answer, State()) == Steps.Ask(old(State()), q)
    {
      var reply := AskUntilAccepted(q, input);
      match reply
      case Accepted(v, used) =>
        answer := Some(v);
        asked := asked + Steps.Prompts(q, used);
        input := input[used..];
      case Exhausted =>
        answer := None;
        asked := asked + Steps.Prompts(q, |input| + 1);
        input := [];
    }

    /** `authWizard`; false when input ran out. */
    method AuthWizard() returns (completed: bool)
      modifies this
      ensures Steps.Gated(completed, State()) == Steps.AuthWizard(env, old(State()))
    {
      completed := true;
      if !LsdAuthExists(env) {
        var shouldAssist := Ask(AuthQ);
        completed := shouldAssist.Some?;
      }
    }

    /** `bicycleWizard`; false when input ran out. */
    method BicycleWizard() returns (completed: bool)
      modifies this
      ensures Steps.Gated(completed, State()) == Steps.BicycleWizard(env, old(State()))
    {
      completed := true;
      if !IsBicycleInstalled(env) {
        var shouldAssist := Ask(BrowserQ);
        completed := shouldAssist.Some?;
      }
    }

    /** `process.chdir(rel)`, which needs the target directory to exist. */
    method ChangeDirectory(rel: string)
      requires Resolve(cwd, rel) in dirs
      modifies this
      ensures State() == Steps.ChangeDirectory(old(State()), rel)
      ensures Valid()
    {
      var d := Resolve(cwd, rel);
      cwd := d;
      trace := trace + [Steps.Chdir(d)];
    }

    /** `createProjectFolder`; false when `mkdirSync` throws and nothing changed. */
    method CreateProjectFolder(name: string) returns (created: bool)
      modifies this
      ensures created <==> Steps.CreateProjectFolder(old(State()), name).Some?
      ensures created ==> State() == Steps.CreateProjectFolder(old(State()), name).value && Valid()
      ensures !created ==> State() == old(State())
    {
      var d := Resolve(cwd, name);
      if Steps.MkdirFails(State(), d) {
        return false;
      }
      dirs := dirs + {d};
      trace := trace + [Steps.Mkdir(d)];
      DotSlashIsSame(cwd, name);
      ChangeDirectory("./" + name);
      created := true;
    }

    /** `fs.writeFileSync(name, content)`. */
    method WriteFileSync(name: string, content: Steps.Content)
      modifies this
      ensures State() == Steps.WriteFileSync(old(State()), name, content)
    {
      var f := Resolve(cwd, name);
      files := files[f := content];
      trace := trace + [Steps.Write(f, content)];
    }

    /** `copyRelevantFiles`. */
    method CopyRelevantFiles()
      modifies this
      ensures State() == Steps.CopyRelevantFiles(old(State()))
    {
      WriteFileSync("tsconfig.json", Steps.TsConfig);
    }

    /** `initNewProject`: two blocking subprocesses, recorded by their command lines. */
    method InitNewProject(pm: string, name: string)
      modifies this
      ensures State() == Steps.InitNewProject(old(State()), pm, name)
    {
      trace := trace + [Steps.Exec(Steps.InitCommand(pm, name))];
      if pm == "yarn" {
        trace := trace + [Steps.Exec("yarn add internetdata zod")];
      } else {
        trace := trace + [Steps.Exec("npm i internetdata zod")];
      }
    }

    /** `copyDefaultIndexTS`, with the write done by `writeFileSync`. */
    method CopyDefaultIndexTS()
      modifies this
      ensures State() == Steps.CopyDefaultIndexTS(env, old(State()))
    {
      var hasBicycle := IsBicycleInstalled(env);
      WriteFileSync("index.ts", Steps.IndexTs(if hasBicycle then "BROWSER" else "TRAVERSER"));
    }

    /** `goUpADirectory`. */
    method GoUpADirectory()
      requires Resolve(cwd, "./..") in dirs
      modifies this
      ensures State() == Steps.GoUpADirectory(old(State()))
      ensures Valid()
    {
      ChangeDirectory("./..");
    }

    /**
     * `createYourInternet`: the run ends in the state `Steps.CreateYourInternet`
     * gives, and the working directory still exists, whichever way it ends.
     */
    method CreateYourInternet() returns (outcome: Steps.Outcome)
      requires Valid()
      modifies this
      ensures Steps.Ran(outcome, State()) == Steps.CreateYourInternet(env, old(State()))
      ensures Valid()
    {
      ghost var w := State();
      var pm := Ask(PackageManagerQ);
      if pm.None? {
        return Steps.InputExhausted(PackageManagerQ);
      }
      if !IsExecutableInPath(env, pm.value) {
        return Steps.PackageManagerMissing(pm.value);
      }
      ghost var afterPm := State();
      var name := Ask(ProjectNameQ);
      if name.None? {
        return Steps.InputExhausted(ProjectNameQ);
      }
      ghost var afterName := State();
      var authDone := AuthWizard();
      if !authDone {
        return Steps.InputExhausted(AuthQ);
      }
      ghost var afterAuth := State();
      var browserDone := BicycleWizard();
      if !browserDone {
        return Steps.InputExhausted(BrowserQ);
      }
      ghost var start := State();
      assert Steps.CreateYourInternet(env, w) == Steps.Provision(env, start, pm.value, name.value);
      ValidNameIsPlainSegment(name.value);
      EnterAndLeave(start.cwd, name.value);
      var created := CreateProjectFolder(name.value);
      if !created {
        return Steps.FolderExists(name.value);
      }
      ghost var inFolder := State();
      CopyRelevantFiles();
      InitNewProject(pm.value, name.value);
      var assistWithCode := Ask(CodeQ);
      if assistWithCode.None? {
        return Steps.InputExhausted(CodeQ);
      }
      var assist := Steps.WantsCodeAssist(assistWithCode.value);
      if !assist {
        CopyDefaultIndexTS();
      }
      assert cwd == start.cwd + [name.value] && start.cwd in dirs;
      GoUpADirectory();
      outcome := Steps.Created(pm.value, name.value, assist);
    }
  }
}
