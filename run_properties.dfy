/**
 * What the run promises: the abort when the package manager is missing,
 * the order of the provisioning effects, the choice of install command, the
 * return to the starting directory, when the two assistance questions are
 * asked, and that questions are never asked out of order.
 */
module RunProperties {
  import opened Wrappers
  import opened Validator
  import opened Prompt
  import opened Environment
  import opened Paths
  import opened Steps

  /** The effect log of a completed run: `before`, then the run's effects in the order the source issues them. */
  function ProvisionTrace(before: seq<Effect>, env: Snapshot, cwd: Path, pm: string, name: string, assist: bool): seq<Effect> {
    var d := cwd + [name];
    var token := IndexTs(ModeToken(IsBicycleInstalled(env)));
    var installed := before + [Mkdir(d)] + [Chdir(d)] + [Write(d + ["tsconfig.json"], TsConfig)]
                     + [Exec(InitCommand(pm, name)), Exec(InstallCommand(pm))];
    (if assist then installed else installed + [Write(d + ["index.ts"], token)]) + [Chdir(cwd)]
  }

  /**
   * When the chosen manager is not on the PATH the run ends right after
   * the first question: no directory, file, working-directory change or
   * command, and the project name is never asked.
   */
  lemma AbortCreatesNothing(env: Snapshot, w: World)
    ensures var r := CreateYourInternet(env, w);
      r.outcome.PackageManagerMissing? ==>
        && !IsExecutableInPath(env, r.outcome.pm)
        && (r.outcome.pm == "npm" || r.outcome.pm == "yarn")
        && r.world.dirs == w.dirs && r.world.files == w.files
        && r.world.cwd == w.cwd && r.world.trace == w.trace
        && |w.asked| < |r.world.asked|
        && forall k :: |w.asked| <= k < |r.world.asked| ==> r.world.asked[k] == PackageManagerQ
  {
    var pm := Ask(w, PackageManagerQ);
    if pm.answer.Some? && !IsExecutableInPath(env, pm.answer.value) {
      assert CreateYourInternet(env, w) == Ran(PackageManagerMissing(pm.answer.value), pm.world);
    }
  }

  /** The abort happens exactly when the first accepted manager is not on the PATH. */
  lemma AbortWhenManagerMissing(env: Snapshot, w: World)
    requires FirstAccepted(PackageManagerQ, w.input).Accepted?
    ensures var v := FirstAccepted(PackageManagerQ, w.input).value;
      CreateYourInternet(env, w).outcome.PackageManagerMissing? <==> !IsExecutableInPath(env, v)
    ensures CreateYourInternet(env, w).outcome.PackageManagerMissing? ==>
      CreateYourInternet(env, w).outcome.pm == FirstAccepted(PackageManagerQ, w.input).value
  {
    var pm := Ask(w, PackageManagerQ);
    assert pm.answer == Some(FirstAccepted(PackageManagerQ, w.input).value);
  }

  /** `mkdir name` then `chdir ./name`, for a valid name, enters the new child `name`. */
  lemma FolderStep(w: World, name: string)
    requires IsValidPackageName(name)
    requires w.cwd in w.dirs
    ensures var d := w.cwd + [name];
      && (CreateProjectFolder(w, name).None? <==> d in w.dirs || d in w.files)
      && (CreateProjectFolder(w, name).Some? ==>
            CreateProjectFolder(w, name).value ==
              w.(dirs := w.dirs + {d}, cwd := d, trace := w.trace + [Mkdir(d)] + [Chdir(d)]))
  {
    ValidNameIsPlainSegment(name);
    var d := w.cwd + [name];
    EnterAndLeave(w.cwd, name);
    assert d[..|d| - 1] == w.cwd;
    assert MkdirFails(w, Resolve(w.cwd, name)) <==> d in w.dirs || d in w.files;
  }

  /** `tsconfig.json` is written in the working directory. */
  lemma ConfigWrite(w: World)
    ensures CopyRelevantFiles(w) == w.(files := w.files[w.cwd + ["tsconfig.json"] := TsConfig],
                                       trace := w.trace + [Write(w.cwd + ["tsconfig.json"], TsConfig)])
  {
    EnterAndLeave(w.cwd, "tsconfig.json");
  }

  /** `tsconfig.json`, `init` and the install command, issued in the project directory. */
  lemma ConfigureStep(w: World, pm: string, name: string)
    ensures InitNewProject(CopyRelevantFiles(w), pm, name) ==
      w.(files := w.files[w.cwd + ["tsconfig.json"] := TsConfig],
         trace := w.trace + [Write(w.cwd + ["tsconfig.json"], TsConfig)]
                          + [Exec(InitCommand(pm, name)), Exec(InstallCommand(pm))])
  {
    ConfigWrite(w);
  }

  /** The default template is written in the working directory with the probe's mode token. */
  lemma TemplateWrite(env: Snapshot, w: World)
    ensures var token := IndexTs(ModeToken(IsBicycleInstalled(env)));
      CopyDefaultIndexTS(env, w) == w.(files := w.files[w.cwd + ["index.ts"] := token],
                                       trace := w.trace + [Write(w.cwd + ["index.ts"], token)])
  {
    EnterAndLeave(w.cwd, "index.ts");
  }

  /** Going up from the project directory returns to its parent. */
  lemma LeaveStep(w: World, cwd: Path, name: string)
    requires IsValidPackageName(name)
    requires w.cwd == cwd + [name]
    ensures GoUpADirectory(w) == w.(cwd := cwd, trace := w.trace + [Chdir(cwd)])
  {
    ValidNameIsPlainSegment(name);
    EnterAndLeave(cwd, name);
  }

  /** The scaffolding half, when it completes. */
  lemma ProvisionCompleted(env: Snapshot, w: World, pm: string, name: string)
    requires IsValidPackageName(name)
    requires w.cwd in w.dirs
    ensures var r := Provision(env, w, pm, name);
      r.outcome.Created? ==>
        var assist := r.outcome.codeAssist;
        var d := w.cwd + [name];
        && r.outcome.pm == pm && r.outcome.name == name
        && d !in w.dirs
        && r.world.cwd == w.cwd
        && r.world.dirs == w.dirs + {d}
        && r.world.trace == ProvisionTrace(w.trace, env, w.cwd, pm, name, assist)
        && r.world.files == (
             var withConfig := w.files[d + ["tsconfig.json"] := TsConfig];
             if assist then withConfig
             else withConfig[d + ["index.ts"] := IndexTs(ModeToken(IsBicycleInstalled(env)))])
  {
    var r := Provision(env, w, pm, name);
    if r.outcome.Created? {
      var d := w.cwd + [name];
      FolderStep(w, name);
      var inFolder := CreateProjectFolder(w, name).value;
      ConfigureStep(inFolder, pm, name);
      var installed := InitNewProject(CopyRelevantFiles(inFolder), pm, name);
      var code := Ask(installed, CodeQ);
      var assist := WantsCodeAssist(code.answer.value);
      var written := if assist then code.world else CopyDefaultIndexTS(env, code.world);
      TemplateWrite(env, code.world);
      LeaveStep(written, w.cwd, name);
    }
  }

  /**
   * A completed run used a normalised manager found on the PATH and a valid
   * name; it created exactly one directory, `name` under the starting
   * directory, which did not exist before; it issued mkdir, chdir, the
   * `tsconfig.json` write, `init`, the install command and, when code help
   * was declined, the template write, in that order, and ended back in the
   * starting directory.
   */
  lemma CompletedRun(env: Snapshot, w: World)
    requires w.cwd in w.dirs
    ensures var r := CreateYourInternet(env, w);
      r.outcome.Created? ==>
        var pm, name, assist := r.outcome.pm, r.outcome.name, r.outcome.codeAssist;
        var d := w.cwd + [name];
        && IsValidPackageName(name)
        && (pm == "npm" || pm == "yarn") && IsExecutableInPath(env, pm)
        && d !in w.dirs
        && r.world.cwd == w.cwd
        && r.world.dirs == w.dirs + {d}
        && r.world.trace == ProvisionTrace(w.trace, env, w.cwd, pm, name, assist)
        && r.world.files == (
             var withConfig := w.files[d + ["tsconfig.json"] := TsConfig];
             if assist then withConfig
             else withConfig[d + ["index.ts"] := IndexTs(ModeToken(IsBicycleInstalled(env)))])
  {
    var r := CreateYourInternet(env, w);
    if r.outcome.Created? {
      var pm := Ask(w, PackageManagerQ);
      var name := Ask(pm.world, ProjectNameQ);
      var auth := AuthWizard(env, name.world);
      var browser := BicycleWizard(env, auth.world);
      assert r == Provision(env, browser.world, pm.answer.value, name.answer.value);
      ProvisionCompleted(env, browser.world, pm.answer.value, name.answer.value);
    }
  }

  /** The stages of a question log never go backwards. */
  ghost predicate InStageOrder(s: seq<Stage>) {
    forall i :: 0 < i < |s| ==> Order(s[i - 1]) <= Order(s[i])
  }

  /** No question in `s` comes after stage `q`. */
  ghost predicate NotAfter(s: seq<Stage>, q: Stage) {
    forall i :: 0 <= i < |s| ==> Order(s[i]) <= Order(q)
  }

  /** `after` is `before` followed by some number of `q` questions. */
  ghost predicate Extends(before: seq<Stage>, after: seq<Stage>, q: Stage) {
    && |before| <= |after| && after[..|before|] == before
    && forall k :: |before| <= k < |after| ==> after[k] == q
  }

  /**
   * Appending `q` questions to a log whose new part is in order and not
   * after `q` keeps it so, and adds no question other than `q`.
   */
  lemma ExtendLog(log0: seq<Stage>, mid: seq<Stage>, fin: seq<Stage>, q: Stage)
    requires |log0| <= |mid| && Extends(mid, fin, q)
    ensures forall x :: x != q ==> (x in fin[|log0|..] <==> x in mid[|log0|..])
    ensures InStageOrder(mid[|log0|..]) && NotAfter(mid[|log0|..], q) ==>
              InStageOrder(fin[|log0|..]) && NotAfter(fin[|log0|..], q)
  {
    var m, f := mid[|log0|..], fin[|log0|..];
    assert f[..|m|] == m;
    forall x | x != q
      ensures x in f <==> x in m
    {
      if x in f {
        var k :| 0 <= k < |f| && f[k] == x;
        assert fin[|log0| + k] == x;
        assert k < |m|;
        assert m[k] == x;
      }
      if x in m {
        var k :| 0 <= k < |m| && m[k] == x;
        assert f[k] == x;
      }
    }
    if InStageOrder(m) && NotAfter(m, q) {
      forall i | 0 <= i < |f| ensures Order(f[i]) <= Order(q) {
        if i >= |m| { assert fin[|log0| + i] == q; } else { assert f[i] == m[i]; }
      }
      forall i | 0 < i < |f| ensures Order(f[i - 1]) <= Order(f[i]) {
        if i >= |m| {
          assert fin[|log0| + i] == q;
        } else {
          assert f[i] == m[i] && f[i - 1] == m[i - 1];
        }
      }
    }
  }

  /** The part of `log` after `log0` is in stage order and reaches at most stage `q`. */
  ghost predicate OrderedUpTo(log0: seq<Stage>, log: seq<Stage>, q: Stage) {
    |log0| <= |log| && InStageOrder(log[|log0|..]) && NotAfter(log[|log0|..], q)
  }

  /** One more stage of questions keeps the log ordered and adds only its own question. */
  lemma Advance(log0: seq<Stage>, mid: seq<Stage>, fin: seq<Stage>, q: Stage, q': Stage)
    requires OrderedUpTo(log0, mid, q) && Order(q) <= Order(q') && Extends(mid, fin, q')
    ensures OrderedUpTo(log0, fin, q')
    ensures forall x :: x != q' ==> (x in fin[|log0|..] <==> x in mid[|log0|..])
  {
    ExtendLog(log0, mid, fin, q');
  }

  /** The scaffolding half asks the code question and nothing else. */
  lemma ProvisionAsksOnlyCode(env: Snapshot, w: World, pm: string, name: string)
    ensures Extends(w.asked, Provision(env, w, pm, name).world.asked, CodeQ)
  {
    match CreateProjectFolder(w, name)
    case None =>
    case Some(inFolder) =>
      assert inFolder.asked == w.asked by {
        match MakeDirectory(w, name)
        case None =>
        case Some(_) =>
      }
      var installed := InitNewProject(CopyRelevantFiles(inFolder), pm, name);
      var code := Ask(installed, CodeQ);
      if code.answer.Some? {
        var written := if WantsCodeAssist(code.answer.value) then code.world else CopyDefaultIndexTS(env, code.world);
        assert written.asked == code.world.asked;
      }
  }

  /** A gate whose probe fails shows its question right after the existing log. */
  lemma GateShows(satisfied: bool, q: Stage, w: World, from: nat)
    requires !satisfied && from <= |w.asked|
    ensures q in Gate(satisfied, q, w).world.asked[from..]
  {
    var asked := Gate(satisfied, q, w).world.asked;
    assert asked[from..][|w.asked| - from] == asked[|w.asked|] == q;
  }

  /**
   * The two gates, entered after the name question: the log stays ordered, and
   * a gate whose probe holds adds nothing.
   */
  lemma GateLog(env: Snapshot, log0: seq<Stage>, named: World)
    requires OrderedUpTo(log0, named.asked, ProjectNameQ)
    requires AuthQ !in named.asked[|log0|..] && BrowserQ !in named.asked[|log0|..]
    ensures var auth := AuthWizard(env, named);
      && OrderedUpTo(log0, auth.world.asked, AuthQ)
      && (LsdAuthExists(env) ==> AuthQ !in auth.world.asked[|log0|..])
      && (!LsdAuthExists(env) ==> AuthQ in auth.world.asked[|log0|..])
      && BrowserQ !in auth.world.asked[|log0|..]
    ensures var browser := BicycleWizard(env, AuthWizard(env, named).world);
      && OrderedUpTo(log0, browser.world.asked, BrowserQ)
      && (LsdAuthExists(env) ==> AuthQ !in browser.world.asked[|log0|..])
      && (IsBicycleInstalled(env) ==> BrowserQ !in browser.world.asked[|log0|..])
      && (!IsBicycleInstalled(env) ==> BrowserQ in browser.world.asked[|log0|..])
  {
    assert Order(ProjectNameQ) == 1 && Order(AuthQ) == 2 && Order(BrowserQ) == 3;
    var auth := AuthWizard(env, named);
    Advance(log0, named.asked, auth.world.asked, ProjectNameQ, AuthQ);
    assert LsdAuthExists(env) ==> auth.world == named;
    if !LsdAuthExists(env) {
      GateShows(LsdAuthExists(env), AuthQ, named, |log0|);
    }
    var browser := BicycleWizard(env, auth.world);
    Advance(log0, auth.world.asked, browser.world.asked, AuthQ, BrowserQ);
    assert IsBicycleInstalled(env) ==> browser.world == auth.world;
    if !IsBicycleInstalled(env) {
      GateShows(IsBicycleInstalled(env), BrowserQ, auth.world, |log0|);
    }
  }

  /**
   * Questions are asked in the fixed stage order (package manager, project
   * name, account, browser, code help; a stage is only re-asked in a row);
   * the account question only when no credential is configured, and the
   * browser question only when Bicycle is not installed.
   */
  lemma QuestionLog(env: Snapshot, w: World)
    ensures var r := CreateYourInternet(env, w);
      && |w.asked| <= |r.world.asked|
      && InStageOrder(NewPrompts(w, r.world))
      && (LsdAuthExists(env) ==> AuthQ !in NewPrompts(w, r.world))
      && (IsBicycleInstalled(env) ==> BrowserQ !in NewPrompts(w, r.world))
  {
    var log0 := w.asked;
    assert Order(PackageManagerQ) == 0;
    assert log0[|log0|..] == [];
    assert OrderedUpTo(log0, log0, PackageManagerQ);
    var pm := Ask(w, PackageManagerQ);
    Advance(log0, log0, pm.world.asked, PackageManagerQ, PackageManagerQ);
    if pm.answer.None? || !IsExecutableInPath(env, pm.answer.value) {
      return;
    }
    AfterManagerLog(env, log0, pm.world, pm.answer.value);
  }

  /** From the name question on, the log stays ordered and the gate questions follow their probes. */
  lemma AfterManagerLog(env: Snapshot, log0: seq<Stage>, w: World, pm: string)
    requires OrderedUpTo(log0, w.asked, PackageManagerQ)
    ensures var asked := AfterManager(env, w, pm).world.asked;
      && |log0| <= |asked| && InStageOrder(asked[|log0|..])
      && (LsdAuthExists(env) ==> AuthQ !in asked[|log0|..])
      && (IsBicycleInstalled(env) ==> BrowserQ !in asked[|log0|..])
  {
    assert Order(PackageManagerQ) == 0 && Order(ProjectNameQ) == 1;
    assert AuthQ !in w.asked[|log0|..] && BrowserQ !in w.asked[|log0|..];
    var name := Ask(w, ProjectNameQ);
    Advance(log0, w.asked, name.world.asked, PackageManagerQ, ProjectNameQ);
    if name.answer.Some? {
      AfterNameLog(env, log0, name.world, pm, name.answer.value);
    }
  }

  /** From the gates on, the log stays ordered and the gate questions follow their probes. */
  lemma AfterNameLog(env: Snapshot, log0: seq<Stage>, named: World, pm: string, name: string)
    requires OrderedUpTo(log0, named.asked, ProjectNameQ)
    requires AuthQ !in named.asked[|log0|..] && BrowserQ !in named.asked[|log0|..]
    ensures var asked := AfterName(env, named, pm, name).world.asked;
      && |log0| <= |asked| && InStageOrder(asked[|log0|..])
      && (LsdAuthExists(env) ==> AuthQ !in asked[|log0|..])
      && (IsBicycleInstalled(env) ==> BrowserQ !in asked[|log0|..])
  {
    GateLog(env, log0, named);
    var auth := AuthWizard(env, named);
    if auth.completed {
      var browser := BicycleWizard(env, auth.world);
      if browser.completed {
        ProvisionLog(env, log0, browser.world, pm, name);
      }
    }
  }

  /** The scaffold, entered after the gates, keeps the log ordered and adds only the code question. */
  lemma ProvisionLog(env: Snapshot, log0: seq<Stage>, w: World, pm: string, name: string)
    requires OrderedUpTo(log0, w.asked, BrowserQ)
    ensures var asked := Provision(env, w, pm, name).world.asked;
      && OrderedUpTo(log0, asked, CodeQ)
      && (forall x :: x != CodeQ ==> (x in asked[|log0|..] <==> x in w.asked[|log0|..]))
  {
    assert Order(BrowserQ) == 3 && Order(CodeQ) == 4;
    ProvisionAsksOnlyCode(env, w, pm, name);
    Advance(log0, w.asked, Provision(env, w, pm, name).world.asked, BrowserQ, CodeQ);
  }
}
