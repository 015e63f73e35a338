/**
 * The environment probes: each reads one snapshot of the machine, taken
 * once, instead of the live host.
 */
module Environment {

  /** `process.platform`, in the three families the wizard tells apart. */
  datatype Platform = Darwin | Win32 | OtherPlatform

  /**
   * What the probes can see: the platform, the paths that exist, the home
   * directory, the environment variables, and the commands that `which`
   * resolves to an executable file.
   */
  datatype Snapshot = Snapshot(
    platform: Platform,
    existing: set<string>,
    home: string,
    vars: map<string, string>,
    onPath: set<string>)

  /** `isExecutableInPath`: resolution and permission are facts of the snapshot. */
  predicate IsExecutableInPath(env: Snapshot, command: string) {
    command in env.onPath
  }

  /**
   * The install locations checked on each platform, in the order checked:
   * absolute paths on drive `C:` for Windows and under `/` elsewhere; one
   * location on macOS, two on the others.
   */
  function BicycleCandidates(p: Platform): (c: seq<string>)
    ensures |c| == (if p == Darwin then 1 else 2)
    ensures forall i :: 0 <= i < |c| ==>
      if p == Win32 then |c[i]| > 3 && c[i][..3] == "C:\\" else |c[i]| > 1 && c[i][0] == '/'
  {
    match p
    case Darwin => ["/Applications/Bicycle.app"]
    case Win32 => ["C:\\Program Files\\Bicycle", "C:\\Program Files (x86)\\Bicycle"]
    case OtherPlatform => ["/usr/bin/Bicycle", "/usr/local/bin/Bicycle"]
  }

  /** `isBicycleInstalled`: some candidate for the current platform exists. */
  function IsBicycleInstalled(env: Snapshot): (b: bool)
    ensures b <==> exists i :: 0 <= i < |BicycleCandidates(env.platform)| &&
                              BicycleCandidates(env.platform)[i] in env.existing
  {
    var candidates := BicycleCandidates(env.platform);
    assert candidates[0] in candidates;
    assert env.platform != Darwin ==> candidates[1] in candidates;
    match env.platform
    case Darwin => "/Applications/Bicycle.app" in env.existing
    case Win32 =>
      "C:\\Program Files\\Bicycle" in env.existing ||
      "C:\\Program Files (x86)\\Bicycle" in env.existing
    case OtherPlatform =>
      "/usr/bin/Bicycle" in env.existing ||
      "/usr/local/bin/Bicycle" in env.existing
  }

  function Separator(p: Platform): char {
    if p == Win32 then '\\' else '/'
  }

  /** `path.join(os.homedir(), ".lsd")`. */
  function ConfigFilePath(env: Snapshot): (path: string)
    ensures |path| >= 4 && path[|path| - 4..] == ".lsd"
    ensures env.home <= path && |path| <= |env.home| + 5
    ensures |path| == |env.home| + 5 ==> path[|env.home|] == Separator(env.platform)
    ensures |env.home| + 4 <= |path|
    ensures |path| == |env.home| + 4 && env.home != "" ==> env.home[|env.home| - 1] == Separator(env.platform)
  {
    var home, sep := env.home, Separator(env.platform);
    if home == "" then ".lsd"
    else if home[|home| - 1] == sep then home + ".lsd"
    else home + [sep] + ".lsd"
  }

  /** With no home directory, `path.join` gives the bare relative name. */
  lemma ConfigPathWithoutHome(env: Snapshot)
    requires env.home == ""
    ensures ConfigFilePath(env) == ".lsd"
  {
  }

  /** A home directory that already ends in a separator is not given a second one. */
  lemma ConfigPathWithTrailingSeparator(env: Snapshot)
    requires env.home != "" && env.home[|env.home| - 1] == Separator(env.platform)
    ensures ConfigFilePath(env) == env.home + ".lsd"
  {
  }

  /** `process.env[key] || ""`. */
  function EnvOrEmpty(env: Snapshot, key: string): string {
    if key in env.vars then env.vars[key] else ""
  }

  /**
   * `lsdAuthExists`: the `.lsd` file in the home directory exists, or both
   * `LSD_USER` and `LSD_PASSWORD` are set to non-empty values.
   */
  function LsdAuthExists(env: Snapshot): (b: bool)
    ensures b <==> ConfigFilePath(env) in env.existing ||
                   (EnvOrEmpty(env, "LSD_USER") != "" && EnvOrEmpty(env, "LSD_PASSWORD") != "")
  {
    if ConfigFilePath(env) in env.existing then true
    else
      var user := EnvOrEmpty(env, "LSD_USER");
      var password := EnvOrEmpty(env, "LSD_PASSWORD");
      if user != "" && password != "" then true
      else false
  }

  /**
   * The four combinations of the credential checks when the `.lsd` file is
   * absent: only both variables non-empty counts; an unset variable reads as
   * empty.
   */
  lemma AuthNeedsBothVariables(env: Snapshot)
    requires ConfigFilePath(env) !in env.existing
    ensures "LSD_USER" !in env.vars ==> !LsdAuthExists(env)
    ensures "LSD_PASSWORD" !in env.vars ==> !LsdAuthExists(env)
    ensures LsdAuthExists(env) <==>
      && "LSD_USER" in env.vars && env.vars["LSD_USER"] != ""
      && "LSD_PASSWORD" in env.vars && env.vars["LSD_PASSWORD"] != ""
  {
  }

  /** The session mode written into the default `index.ts`. */
  function ModeToken(browserInstalled: bool): (t: string)
    ensures t == "BROWSER" || t == "TRAVERSER"
    ensures t == "BROWSER" <==> browserInstalled
  {
    if browserInstalled then "BROWSER" else "TRAVERSER"
  }
}
