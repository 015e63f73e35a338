/**
 * Whole runs on given answers, from an empty working directory on a machine
 * with only `npm` on the PATH: declining every offer, answering with a
 * package manager that is missing, and typing an invalid project name before
 * a valid one.
 */
module Scenarios {
  import opened Wrappers
  import opened Validator
  import opened Prompt
  import opened Environment
  import opened Steps
  import opened RunProperties

  lemma NpmAccepted()
    ensures Normalize(PackageManagerQ, "npm") == Some("npm")
  {
    assert ToLower("npm") == "npm";
  }

  lemma NoAccepted()
    ensures Normalize(AuthQ, "n") == Some("n")
    ensures Normalize(BrowserQ, "n") == Some("n")
    ensures Normalize(CodeQ, "n") == Some("n")
  {
    assert ToLower("n") == "n";
  }

  /** A question whose first line is accepted consumes that line and is shown once. */
  lemma AskFirst(w: World, q: Stage, v: string)
    requires |w.input| >= 1 && Normalize(q, w.input[0]) == Some(v)
    ensures Ask(w, q) == Asked(Some(v), w.(input := w.input[1..], asked := w.asked + [q]))
  {
    assert FirstAccepted(q, w.input) == Accepted(v, 1);
    assert Steps.Prompts(q, 1) == [q];
  }

  /** The question logs of the two completed runs, assembled stage by stage. */
  lemma Logs()
    ensures [PackageManagerQ] + [ProjectNameQ, ProjectNameQ] == [PackageManagerQ, ProjectNameQ, ProjectNameQ]
    ensures [PackageManagerQ, ProjectNameQ, ProjectNameQ] + [AuthQ, BrowserQ] ==
      [PackageManagerQ, ProjectNameQ, ProjectNameQ, AuthQ, BrowserQ]
    ensures [PackageManagerQ, ProjectNameQ, ProjectNameQ, AuthQ, BrowserQ] + [CodeQ] ==
      [PackageManagerQ, ProjectNameQ, ProjectNameQ, AuthQ, BrowserQ, CodeQ]
    ensures [PackageManagerQ, ProjectNameQ] + [AuthQ, BrowserQ] == [PackageManagerQ, ProjectNameQ, AuthQ, BrowserQ]
    ensures [PackageManagerQ, ProjectNameQ, AuthQ, BrowserQ] + [CodeQ] ==
      [PackageManagerQ, ProjectNameQ, AuthQ, BrowserQ, CodeQ]
  {
  }

  /** A question whose first line is refused and second accepted consumes both and is shown twice. */
  lemma AskAfterRefusal(w: World, q: Stage, v: string)
    requires |w.input| >= 2 && Normalize(q, w.input[0]).None? && Normalize(q, w.input[1]) == Some(v)
    ensures Ask(w, q) == Asked(Some(v), w.(input := w.input[2..], asked := w.asked + [q, q]))
  {
    RefusedAt(q, w.input, 0);
    AcceptedAt(q, w.input, 1, v);
    assert w.input[0..] == w.input;
    assert Steps.Prompts(q, 2) == [q, q];
  }

  /** The scaffolding half completes when the folder is new and the code question is answered. */
  lemma ProvisionAnswered(env: Snapshot, w: World, pm: string, name: string, code: string)
    requires IsValidPackageName(name) && w.cwd in w.dirs
    requires w.cwd + [name] !in w.dirs && w.cwd + [name] !in w.files
    requires |w.input| >= 1 && Normalize(CodeQ, w.input[0]) == Some(code)
    ensures var r := Provision(env, w, pm, name);
      && r.outcome == Created(pm, name, WantsCodeAssist(code))
      && r.world.asked == w.asked + [CodeQ]
  {
    FolderStep(w, name);
    var inFolder := CreateProjectFolder(w, name).value;
    ConfigureStep(inFolder, pm, name);
    var installed := InitNewProject(CopyRelevantFiles(inFolder), pm, name);
    assert installed.input == w.input && installed.asked == w.asked;
    AskFirst(installed, CodeQ, code);
    var answered := Ask(installed, CodeQ);
    var written := if WantsCodeAssist(code) then answered.world else CopyDefaultIndexTS(env, answered.world);
    assert written.asked == w.asked + [CodeQ];
  }

  /** Both gates declined with `n`: each consumes its line and asks once. */
  lemma GatesDeclined(env: Snapshot, named: World, pm: string, name: string)
    requires !LsdAuthExists(env) && !IsBicycleInstalled(env)
    requires |named.input| >= 2
    requires Normalize(AuthQ, named.input[0]) == Some("n") && Normalize(BrowserQ, named.input[1]) == Some("n")
    ensures AfterName(env, named, pm, name) ==
      Provision(env, named.(input := named.input[2..], asked := named.asked + [AuthQ, BrowserQ]), pm, name)
  {
    AskFirst(named, AuthQ, "n");
    var w3 := AuthWizard(env, named).world;
    AskFirst(w3, BrowserQ, "n");
    assert w3.input[1..] == named.input[2..];
    assert w3.asked + [BrowserQ] == named.asked + [AuthQ, BrowserQ];
  }

  /**
   * Once the package manager and the name are answered, both gates declined
   * and the manager on the PATH, the run reaches the scaffolding with the two
   * gate lines consumed.
   */
  lemma QuestionsAnswered(env: Snapshot, w: World, pm: string, chosen: World, name: string, named: World)
    requires Ask(w, PackageManagerQ) == Asked(Some(pm), chosen) && IsExecutableInPath(env, pm)
    requires Ask(chosen, ProjectNameQ) == Asked(Some(name), named)
    requires !LsdAuthExists(env) && !IsBicycleInstalled(env)
    requires |named.input| >= 2
    requires Normalize(AuthQ, named.input[0]) == Some("n") && Normalize(BrowserQ, named.input[1]) == Some("n")
    ensures CreateYourInternet(env, w) ==
      Provision(env, named.(input := named.input[2..], asked := named.asked + [AuthQ, BrowserQ]), pm, name)
  {
    GatesDeclined(env, named, pm, name);
    assert AfterManager(env, chosen, pm) == AfterName(env, named, pm, name);
  }

  /** A fresh run in an empty working directory, reading `lines`. */
  predicate FreshRun(w: World, lines: seq<string>) {
    w.input == lines && w.asked == [] && w.dirs == {w.cwd} && w.files == map[] && w.trace == []
  }

  /** A machine with `npm` alone on the PATH, no credential and no Bicycle. */
  predicate BareMachine(env: Snapshot) {
    env.onPath == {"npm"} && !LsdAuthExists(env) && !IsBicycleInstalled(env)
  }

  /**
   * The first two questions answered by `npm` and `name`: the run reaches the
   * scaffolding with the gate lines consumed.
   */
  lemma DeclineQuestions(env: Snapshot, w: World, name: string)
    requires BareMachine(env) && IsValidPackageName(name)
    requires FreshRun(w, ["npm", name, "n", "n", "n"])
    ensures CreateYourInternet(env, w) ==
      Provision(env, w.(input := ["n"], asked := [PackageManagerQ, ProjectNameQ, AuthQ, BrowserQ]), "npm", name)
  {
    NpmAccepted();
    NoAccepted();
    AskFirst(w, PackageManagerQ, "npm");
    var w1 := Ask(w, PackageManagerQ).world;
    assert w1 == w.(input := [name, "n", "n", "n"], asked := [PackageManagerQ]);
    AskFirst(w1, ProjectNameQ, name);
    var w2 := Ask(w1, ProjectNameQ).world;
    assert w2 == w.(input := ["n", "n", "n"], asked := [PackageManagerQ, ProjectNameQ]);
    QuestionsAnswered(env, w, "npm", w1, name, w2);
    Logs();
    assert w2.input[2..] == ["n"];
    assert w2.(input := w2.input[2..], asked := w2.asked + [AuthQ, BrowserQ]) ==
      w.(input := ["n"], asked := [PackageManagerQ, ProjectNameQ, AuthQ, BrowserQ]);
  }

  /** The declining run completes without code assistance, having asked each question once. */
  lemma DeclineOutcome(env: Snapshot, w: World, name: string)
    requires BareMachine(env) && IsValidPackageName(name)
    requires FreshRun(w, ["npm", name, "n", "n", "n"])
    ensures var r := CreateYourInternet(env, w);
      && r.outcome == Created("npm", name, false)
      && r.world.asked == [PackageManagerQ, ProjectNameQ, AuthQ, BrowserQ, CodeQ]
  {
    DeclineQuestions(env, w, name);
    NoAccepted();
    var w4 := w.(input := ["n"], asked := [PackageManagerQ, ProjectNameQ, AuthQ, BrowserQ]);
    assert |w.cwd + [name]| != |w.cwd|;
    Logs();
    ProvisionAnswered(env, w4, "npm", name, "n");
  }

  /**
   * Answers `npm`, a valid name, `n`, `n`, `n` on a bare machine: the run
   * completes, `<name>/tsconfig.json` holds the fixed configuration,
   * `<name>/index.ts` the template in `TRAVERSER` mode, `npm i` installs the
   * dependencies, and the run ends in the starting directory.
   */
  lemma DeclineEverything(env: Snapshot, w: World, name: string)
    requires BareMachine(env) && IsValidPackageName(name)
    requires FreshRun(w, ["npm", name, "n", "n", "n"])
    ensures var r := CreateYourInternet(env, w);
      var project := w.cwd + [name];
      && r.outcome == Created("npm", name, false)
      && r.world.files == map[project + ["tsconfig.json"] := TsConfig, project + ["index.ts"] := IndexTs("TRAVERSER")]
      && r.world.trace == ProvisionTrace([], env, w.cwd, "npm", name, false)
      && r.world.cwd == w.cwd
  {
    DeclineOutcome(env, w, name);
    CompletedRun(env, w);
    assert ModeToken(false) == "TRAVERSER";
  }

  /**
   * Answers `yarn` on a bare machine, where only `npm` is on the PATH: the run
   * stops after the first question, having created and run nothing.
   */
  lemma ManagerMissing(env: Snapshot, w: World, name: string)
    requires BareMachine(env) && FreshRun(w, ["yarn", name])
    ensures var r := CreateYourInternet(env, w);
      && r.outcome == PackageManagerMissing("yarn")
      && r.world.dirs == w.dirs && r.world.files == map[] && r.world.trace == []
      && r.world.asked == [PackageManagerQ]
  {
    assert ToLower("yarn") == "yarn";
    AskFirst(w, PackageManagerQ, "yarn");
  }

  /** The first two questions of the retrying run: `npm`, then a refused and an accepted name. */
  lemma RetryPrefix(w: World, bad: string, name: string)
    requires Normalize(ProjectNameQ, bad).None? && IsValidPackageName(name)
    requires FreshRun(w, ["npm", bad, name, "n", "n", "n"])
    ensures Ask(w, PackageManagerQ) ==
      Asked(Some("npm"), w.(input := [bad, name, "n", "n", "n"], asked := [PackageManagerQ]))
    ensures Ask(w.(input := [bad, name, "n", "n", "n"], asked := [PackageManagerQ]), ProjectNameQ) ==
      Asked(Some(name), w.(input := ["n", "n", "n"], asked := [PackageManagerQ, ProjectNameQ, ProjectNameQ]))
  {
    NpmAccepted();
    AskFirst(w, PackageManagerQ, "npm");
    var w1 := w.(input := [bad, name, "n", "n", "n"], asked := [PackageManagerQ]);
    AskAfterRefusal(w1, ProjectNameQ, name);
  }

  /** The questions of the retrying run: the name is asked twice. */
  lemma RetryQuestions(env: Snapshot, w: World, bad: string, name: string)
    requires BareMachine(env) && Normalize(ProjectNameQ, bad).None? && IsValidPackageName(name)
    requires FreshRun(w, ["npm", bad, name, "n", "n", "n"])
    ensures CreateYourInternet(env, w) ==
      Provision(env, w.(input := ["n"], asked := [PackageManagerQ, ProjectNameQ, ProjectNameQ, AuthQ, BrowserQ]),
                "npm", name)
  {
    RetryPrefix(w, bad, name);
    NoAccepted();
    var w1 := w.(input := [bad, name, "n", "n", "n"], asked := [PackageManagerQ]);
    var w2 := w.(input := ["n", "n", "n"], asked := [PackageManagerQ, ProjectNameQ, ProjectNameQ]);
    QuestionsAnswered(env, w, "npm", w1, name, w2);
    Logs();
    assert w2.input[2..] == ["n"];
  }

  /** The retrying run completes, having asked the name question twice. */
  lemma RetryOutcome(env: Snapshot, w: World, bad: string, name: string)
    requires BareMachine(env) && Normalize(ProjectNameQ, bad).None? && IsValidPackageName(name)
    requires FreshRun(w, ["npm", bad, name, "n", "n", "n"])
    ensures var r := CreateYourInternet(env, w);
      && r.outcome == Created("npm", name, false)
      && r.world.asked == [PackageManagerQ, ProjectNameQ, ProjectNameQ, AuthQ, BrowserQ, CodeQ]
  {
    RetryQuestions(env, w, bad, name);
    NoAccepted();
    var w4 := w.(input := ["n"], asked := [PackageManagerQ, ProjectNameQ, ProjectNameQ, AuthQ, BrowserQ]);
    assert |w.cwd + [name]| != |w.cwd|;
    Logs();
    ProvisionAnswered(env, w4, "npm", name, "n");
  }

  /**
   * A non-empty invalid name is refused and the name asked again; the valid
   * name that follows is accepted and its folder created.
   */
  lemma InvalidNameThenValid(env: Snapshot, w: World, bad: string, name: string)
    requires BareMachine(env) && bad != "" && !IsValidPackageName(bad) && IsValidPackageName(name)
    requires FreshRun(w, ["npm", bad, name, "n", "n", "n"])
    ensures var r := CreateYourInternet(env, w);
      && r.outcome == Created("npm", name, false)
      && r.world.asked == [PackageManagerQ, ProjectNameQ, ProjectNameQ, AuthQ, BrowserQ, CodeQ]
  {
    assert Normalize(ProjectNameQ, bad).None?;
    RetryOutcome(env, w, bad, name);
  }

  /** `Invalid Name!` is such a name; `my-app` and `okname` are valid ones. */
  lemma ExampleNames()
    ensures "Invalid Name!" != "" && !IsValidPackageName("Invalid Name!")
    ensures IsValidPackageName("my-app") && IsValidPackageName("okname")
  {
    assert !MatchesUrlSafe("Invalid Name!") by {
      assert !IsUrlSafeChar("Invalid Name!"[0]);
    }
    LetterNameIsValid("my-app");
    LetterNameIsValid("okname");
  }
}
