/**
 * The provisioning run as a specification over values: the state the
 * wizard reads and changes (remaining input lines, the questions shown, the
 * directories and files, the working directory, the log of issued effects)
 * and one function per step of `createYourInternet`, composed in the
 * source's order. The `Wizard` class performs the same steps in place and
 * is proved to end in the state these functions give.
 */
module Steps {
  import opened Wrappers
  import opened Validator
  import opened Prompt
  import opened Environment
  import opened Paths

  /** What a written file holds: the fixed `tsconfig.json`, or the entry template with its mode token. */
  datatype Content = TsConfig | IndexTs(mode: string)

  /** One side effect, in the order issued. */
  datatype Effect =
    | Mkdir(dir: Path)
    | Chdir(dir: Path)
    | Write(file: Path, content: Content)
    | Exec(command: string)

  datatype World = World(
    input: seq<string>,
    asked: seq<Stage>,
    dirs: set<Path>,
    files: map<Path, Content>,
    cwd: Path,
    trace: seq<Effect>)

  /** How a run ends. */
  datatype Outcome =
    | InputExhausted(stage: Stage)
    | PackageManagerMissing(pm: string)
    | FolderExists(name: string)
    | Created(pm: string, name: string, codeAssist: bool)

  datatype Asked = Asked(answer: Option<string>, world: World)
  datatype Gated = Gated(completed: bool, world: World)
  datatype Ran = Ran(outcome: Outcome, world: World)

  /** The same question shown `n` times. */
  function Prompts(q: Stage, n: nat): (r: seq<Stage>)
    ensures |r| == n && forall k :: 0 <= k < n ==> r[k] == q
  {
    seq(n, _ => q)
  }

  /** The part of the question log a step added. */
  function NewPrompts(before: World, after: World): seq<Stage>
    requires |before.asked| <= |after.asked|
  {
    after.asked[|before.asked|..]
  }

  /**
   * One question with its retries: the question is shown once per line
   * read, the lines up to the accepted one are consumed, and nothing else
   * changes. When the lines run out the question is shown once more and
   * never answered.
   */
  function Ask(w: World, q: Stage): (r: Asked)
    ensures r.world.dirs == w.dirs && r.world.files == w.files
    ensures r.world.cwd == w.cwd && r.world.trace == w.trace
    ensures r.answer.Some? ==> IsNormalized(q, r.answer.value)
    ensures |r.world.asked| > |w.asked| && r.world.asked[..|w.asked|] == w.asked
    ensures forall k :: |w.asked| <= k < |r.world.asked| ==> r.world.asked[k] == q
    ensures r.answer.None? ==> r.world.input == []
    ensures var a := FirstAccepted(q, w.input);
      && (r.answer.Some? <==> a.Accepted?)
      && (r.answer.Some? ==> r.answer.value == a.value && r.world.input == w.input[a.used..]
                             && |r.world.asked| == |w.asked| + a.used)
      && (r.answer.None? ==> |r.world.asked| == |w.asked| + |w.input| + 1)
  {
    match FirstAccepted(q, w.input)
    case Accepted(v, used) =>
      Asked(Some(v), w.(input := w.input[used..], asked := w.asked + Prompts(q, used)))
    case Exhausted =>
      Asked(None, w.(input := [], asked := w.asked + Prompts(q, |w.input| + 1)))
  }

  /**
   * An assistance gate: when the probe already holds, nothing is asked;
   * otherwise the yes/no question is asked, and the assistance flow that a
   * `y` starts has no effect. `completed` is false when input ran out.
   */
  function Gate(satisfied: bool, q: Stage, w: World): (r: Gated)
    ensures satisfied ==> r == Gated(true, w)
    ensures r.world.dirs == w.dirs && r.world.files == w.files
    ensures r.world.cwd == w.cwd && r.world.trace == w.trace
    ensures |w.asked| <= |r.world.asked| && r.world.asked[..|w.asked|] == w.asked
    ensures forall k :: |w.asked| <= k < |r.world.asked| ==> r.world.asked[k] == q
    ensures !satisfied ==> |r.world.asked| > |w.asked| && (r.completed <==> FirstAccepted(q, w.input).Accepted?)
    ensures !satisfied ==> var a := FirstAccepted(q, w.input);
      && (a.Accepted? ==> r.world.input == w.input[a.used..] && |r.world.asked| == |w.asked| + a.used)
      && (a.Exhausted? ==> r.world.input == [] && |r.world.asked| == |w.asked| + |w.input| + 1)
  {
    if satisfied then Gated(true, w)
    else
      var a := Ask(w, q);
      Gated(a.answer.Some?, a.world)
  }

  /** `authWizard`. */
  function AuthWizard(env: Snapshot, w: World): Gated {
    Gate(LsdAuthExists(env), AuthQ, w)
  }

  /** `bicycleWizard`. */
  function BicycleWizard(env: Snapshot, w: World): Gated {
    Gate(IsBicycleInstalled(env), BrowserQ, w)
  }

  /** Whether `mkdirSync` of `d` fails: it exists already, or its parent does not. */
  predicate MkdirFails(w: World, d: Path) {
    d in w.dirs || d in w.files || d == [] || d[..|d| - 1] !in w.dirs
  }

  /** `fs.mkdirSync(name)`. */
  function MakeDirectory(w: World, name: string): (r: Option<World>)
    ensures r.None? <==> MkdirFails(w, Resolve(w.cwd, name))
    ensures r.Some? ==> r.value == w.(dirs := w.dirs + {Resolve(w.cwd, name)},
                                      trace := w.trace + [Mkdir(Resolve(w.cwd, name))])
  {
    var d := Resolve(w.cwd, name);
    if MkdirFails(w, d) then None
    else Some(w.(dirs := w.dirs + {d}, trace := w.trace + [Mkdir(d)]))
  }

  /** `process.chdir(rel)`. */
  function ChangeDirectory(w: World, rel: string): World {
    var d := Resolve(w.cwd, rel);
    w.(cwd := d, trace := w.trace + [Chdir(d)])
  }

  /** `fs.writeFileSync(name, content)`: create or replace the file. */
  function WriteFileSync(w: World, name: string, content: Content): World {
    var f := Resolve(w.cwd, name);
    w.(files := w.files[f := content], trace := w.trace + [Write(f, content)])
  }

  /** `createProjectFolder`: make the directory, then enter it as `./name`. */
  function CreateProjectFolder(w: World, name: string): Option<World> {
    match MakeDirectory(w, name)
    case None => None
    case Some(w1) => Some(ChangeDirectory(w1, "./" + name))
  }

  /** `copyRelevantFiles`. */
  function CopyRelevantFiles(w: World): World {
    WriteFileSync(w, "tsconfig.json", TsConfig)
  }

  const Dependencies := "internetdata zod"

  /** The initialisation command of `initNewProject`. */
  function InitCommand(pm: string, name: string): (c: string)
    ensures |c| == |pm| + 16 + |name|
    ensures c[..|pm|] == pm && c[|pm|..] == " init -y --name=" + name
  {
    pm + " init -y --name=" + name
  }

  /** The install command of `initNewProject`: chosen by whether the manager is `yarn`. */
  function InstallCommand(pm: string): (c: string)
    ensures c == "yarn add internetdata zod" <==> pm == "yarn"
    ensures c != "yarn add internetdata zod" <==> c == "npm i internetdata zod"
    ensures pm == "npm" || pm == "yarn" ==> c[..|pm|] == pm
    ensures c[|c| - |Dependencies|..] == Dependencies
  {
    if pm == "yarn" then "yarn add " + Dependencies else "npm i " + Dependencies
  }

  /** `initNewProject`: initialise the package metadata, then install the two dependencies. */
  function InitNewProject(w: World, pm: string, name: string): World {
    w.(trace := w.trace + [Exec(InitCommand(pm, name)), Exec(InstallCommand(pm))])
  }

  /** `copyDefaultIndexTS`, writing the file as `writeFileSync` would. */
  function CopyDefaultIndexTS(env: Snapshot, w: World): (r: World)
    ensures var f := Resolve(w.cwd, "index.ts");
      && r.files == w.files[f := IndexTs(ModeToken(IsBicycleInstalled(env)))]
      && r.files[f].mode == (if IsBicycleInstalled(env) then "BROWSER" else "TRAVERSER")
      && r.trace == w.trace + [Write(f, r.files[f])]
    ensures r.dirs == w.dirs && r.cwd == w.cwd && r.input == w.input && r.asked == w.asked
  {
    WriteFileSync(w, "index.ts", IndexTs(ModeToken(IsBicycleInstalled(env))))
  }

  /** `goUpADirectory`. */
  function GoUpADirectory(w: World): World {
    ChangeDirectory(w, "./..")
  }

  /** The code-assist branch as evidently intended: assist only on `y`. */
  function WantsCodeAssist(answer: string): (b: bool)
    ensures IsNormalized(CodeQ, answer) ==> (b <==> answer != "n")
  {
    answer == "y"
  }

  /** The code-assist branch as written at line 275: a string's truthiness. */
  function WantsCodeAssistAsWritten(answer: string): (b: bool)
    ensures b <==> |answer| > 0
    ensures IsNormalized(CodeQ, answer) ==> b
  {
    answer != ""
  }

  /**
   * As written, both normalised answers are truthy, so the default template
   * is never written; as intended, `n` selects it and `y` does not.
   */
  lemma CodeBranchAsWrittenAlwaysAssists(answer: string)
    requires IsNormalized(CodeQ, answer)
    ensures WantsCodeAssistAsWritten(answer)
    ensures WantsCodeAssist(answer) <==> answer == "y"
    ensures !WantsCodeAssist("n") && WantsCodeAssistAsWritten("n")
  {
  }

  /** `fs.writeSync`'s first argument: a descriptor, or (as at line 197) a path. */
  datatype WriteTarget = Descriptor(fd: nat) | PathName(path: string)

  /** `fs.writeSync(target, text)` throws before writing when its target is not a descriptor. */
  predicate WriteSyncRefuses(target: WriteTarget) {
    !target.Descriptor?
  }

  /**
   * As written, the template write at line 197 always throws and writes
   * nothing; the corrected write creates `index.ts` in the working directory.
   */
  lemma TemplateWriteAsWrittenThrows(env: Snapshot, w: World, fd: nat)
    ensures WriteSyncRefuses(PathName("index.ts")) && !WriteSyncRefuses(Descriptor(fd))
    ensures var f := Resolve(w.cwd, "index.ts");
      && f in CopyDefaultIndexTS(env, w).files
      && CopyDefaultIndexTS(env, w).files[f] == IndexTs(ModeToken(IsBicycleInstalled(env)))
  {
  }

  /**
   * The scaffolding half of `createYourInternet` (lines 270-282): create and
   * enter the folder, write the configuration, initialise and install, ask
   * about code help, write the default template when declined, go back up.
   */
  function Provision(env: Snapshot, w: World, pm: string, name: string): (r: Ran)
    ensures r.outcome.Created? ==> r.outcome.pm == pm && r.outcome.name == name
    ensures r.outcome.FolderExists? <==> CreateProjectFolder(w, name).None?
    ensures r.outcome.FolderExists? ==> r.outcome.name == name && r.world == w
    ensures r.outcome.InputExhausted? ==> r.outcome.stage == CodeQ && r.world.input == []
    ensures !r.outcome.PackageManagerMissing?
    ensures w.dirs <= r.world.dirs
  {
    match CreateProjectFolder(w, name)
    case None => Ran(FolderExists(name), w)
    case Some(inFolder) =>
      var installed := InitNewProject(CopyRelevantFiles(inFolder), pm, name);
      var code := Ask(installed, CodeQ);
      if code.answer.None? then Ran(InputExhausted(CodeQ), code.world)
      else
        var assist := WantsCodeAssist(code.answer.value);
        var written := if assist then code.world else CopyDefaultIndexTS(env, code.world);
        Ran(Created(pm, name, assist), GoUpADirectory(written))
  }

  /** The rest of `createYourInternet` once both answers are in: the two gates, then the scaffolding. */
  function AfterName(env: Snapshot, w: World, pm: string, name: string): (r: Ran)
    ensures r.outcome.Created? ==> r.outcome.pm == pm && r.outcome.name == name
    ensures r.outcome.InputExhausted? ==> r.world.input == []
    ensures !r.outcome.PackageManagerMissing?
  {
    var auth := AuthWizard(env, w);
    if !auth.completed then Ran(InputExhausted(AuthQ), auth.world)
    else
      var browser := BicycleWizard(env, auth.world);
      if !browser.completed then Ran(InputExhausted(BrowserQ), browser.world)
      else Provision(env, browser.world, pm, name)
  }

  /** The rest of `createYourInternet` once the manager is found: the name question, then the rest. */
  function AfterManager(env: Snapshot, w: World, pm: string): (r: Ran)
    ensures r.outcome.Created? ==> r.outcome.pm == pm && IsValidPackageName(r.outcome.name)
    ensures !r.outcome.PackageManagerMissing?
  {
    var name := Ask(w, ProjectNameQ);
    if name.answer.None? then Ran(InputExhausted(ProjectNameQ), name.world)
    else AfterName(env, name.world, pm, name.answer.value)
  }

  /** `createYourInternet`: the questions, the abort check, then the scaffolding. */
  function CreateYourInternet(env: Snapshot, w: World): (r: Ran)
    ensures r.outcome.PackageManagerMissing? ==>
      && IsNormalized(PackageManagerQ, r.outcome.pm) && !IsExecutableInPath(env, r.outcome.pm)
      && r.world.dirs == w.dirs && r.world.files == w.files && r.world.trace == w.trace
    ensures r.outcome.Created? ==>
      IsExecutableInPath(env, r.outcome.pm) && IsValidPackageName(r.outcome.name)
  {
    var pm := Ask(w, PackageManagerQ);
    if pm.answer.None? then Ran(InputExhausted(PackageManagerQ), pm.world)
    else if !IsExecutableInPath(env, pm.answer.value) then
      Ran(PackageManagerMissing(pm.answer.value), pm.world)
    else AfterManager(env, pm.world, pm.answer.value)
  }
}
