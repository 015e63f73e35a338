/**
 * The input validator of the wizard: the project-name rule
 * (`isValidPackageName`) and the three answer normalisers that either accept
 * one typed line, giving the normalised answer, or ask for the line again.
 *
 * Case folding is modelled on ASCII letters only: every other character is
 * left unchanged, which cannot change which names are accepted because the
 * character-class rule admits ASCII characters only.
 */
module Validator {
  import opened Wrappers

  /** An ASCII upper-case letter. */
  predicate IsUpper(c: char) {
    'A' <= c <= 'Z'
  }

  /** `toLowerCase` on one character. */
  function LowerChar(c: char): (l: char)
    ensures !IsUpper(l)
    ensures !IsUpper(c) ==> l == c
    ensures IsUpper(c) ==> 'a' <= l <= 'z'
  {
    if IsUpper(c) then (c as int - 'A' as int + 'a' as int) as char else c
  }

  /** `String.prototype.toLowerCase`. */
  function ToLower(s: string): (r: string)
    ensures |r| == |s|
    ensures forall i :: 0 <= i < |s| ==> r[i] == LowerChar(s[i])
  {
    if s == [] then [] else [LowerChar(s[0])] + ToLower(s[1..])
  }

  /** A string is its own lower-case form exactly when it holds no upper-case letter. */
  lemma LowerIffUnchanged(s: string)
    ensures ToLower(s) == s <==> forall i :: 0 <= i < |s| ==> !IsUpper(s[i])
  {
    if forall i :: 0 <= i < |s| ==> !IsUpper(s[i]) {
      assert forall i :: 0 <= i < |s| ==> ToLower(s)[i] == s[i];
    }
  }

  /** Lower-casing twice is lower-casing once. */
  lemma ToLowerIdempotent(s: string)
    ensures ToLower(ToLower(s)) == ToLower(s)
  {
    LowerIffUnchanged(ToLower(s));
  }

  const MaxNameLength := 214
  const DefaultProjectName := "my_project"

  /** The URL-safe class `[a-z0-9-._~]`. */
  predicate IsUrlSafeChar(c: char) {
    ('a' <= c <= 'z') || ('0' <= c <= '9') || c == '-' || c == '.' || c == '_' || c == '~'
  }

  /** The regular expression `^[a-z0-9-._~]+$`. */
  predicate MatchesUrlSafe(s: string) {
    |s| >= 1 && forall i :: 0 <= i < |s| ==> IsUrlSafeChar(s[i])
  }

  /** `s.startsWith(c)` for a one-character prefix. */
  predicate StartsWith(s: string, c: char) {
    |s| > 0 && s[0] == c
  }

  /** `s.includes('..')`. */
  predicate ContainsDoubleDot(s: string) {
    exists i :: 0 <= i < |s| - 1 && s[i] == '.' && s[i + 1] == '.'
  }

  /** `['node_modules', 'favicon.ico'].includes(name)`. */
  predicate IsReservedName(name: string) {
    name == "node_modules" || name == "favicon.ico"
  }

  /** `isValidPackageName`: the six rules, tried in the source's order. */
  predicate IsValidPackageName(name: string)
    ensures IsValidPackageName(name) ==>
      && 1 <= |name| <= MaxNameLength
      && name[0] != '.' && name[0] != '_' && !IsReservedName(name)
  {
    if name != ToLower(name) then false
    else if |name| == 0 || |name| > MaxNameLength then false
    else if !MatchesUrlSafe(name) then false
    else if StartsWith(name, '.') || StartsWith(name, '_') then false
    else if ContainsDoubleDot(name) then false
    else if IsReservedName(name) then false
    else true
  }

  /**
   * A name is accepted exactly when it holds no upper-case letter, has 1 to
   * 214 characters, all of them in `[a-z0-9-._~]`, does not start with `.`
   * or `_`, has no two adjacent dots and is neither reserved name.
   */
  lemma ValidNameRules(name: string)
    ensures IsValidPackageName(name) <==>
      && (forall i :: 0 <= i < |name| ==> !IsUpper(name[i]))
      && 1 <= |name| <= 214
      && (forall i :: 0 <= i < |name| ==> IsUrlSafeChar(name[i]))
      && name[0] != '.' && name[0] != '_'
      && (forall i :: 0 <= i < |name| - 1 ==> !(name[i] == '.' && name[i + 1] == '.'))
      && name != "node_modules" && name != "favicon.ico"
  {
    LowerIffUnchanged(name);
  }

  /** The lower-case rule is implied by the character-class rule. */
  lemma UrlSafeIsLowercase(name: string)
    requires MatchesUrlSafe(name)
    ensures ToLower(name) == name
  {
    LowerIffUnchanged(name);
  }

  /**
   * A valid name is one plain path segment: it is not empty, holds no `/`
   * and is neither `.` nor `..`.
   */
  lemma ValidNameIsPlainSegment(name: string)
    requires IsValidPackageName(name)
    ensures name != "" && name != "." && name != ".."
    ensures forall i :: 0 <= i < |name| ==> name[i] != '/'
  {
  }

  /**
   * A name of 1 to 214 lower-case letters, `-` and `_`, starting with a letter
   * and not reserved, is valid.
   */
  lemma LetterNameIsValid(name: string)
    requires 1 <= |name| <= MaxNameLength && 'a' <= name[0] <= 'z'
    requires forall i :: 0 <= i < |name| ==> 'a' <= name[i] <= 'z' || name[i] == '-' || name[i] == '_'
    requires !IsReservedName(name)
    ensures IsValidPackageName(name)
  {
    UrlSafeIsLowercase(name);
  }

  /** The fallback project name is itself valid. */
  lemma DefaultNameIsValid()
    ensures IsValidPackageName(DefaultProjectName)
  {
    LetterNameIsValid(DefaultProjectName);
  }

  /**
   * `getPreferredPackageManager`'s test on one line: empty or `yarn` gives
   * `yarn`, `npm` gives `npm`, anything else is asked again (`None`),
   * comparing without regard to case.
   */
  function NormalizePackageManager(line: string): (r: Option<string>)
    ensures r.Some? ==> r.value == "npm" || r.value == "yarn"
    ensures r == Some("yarn") <==> ToLower(line) == "" || ToLower(line) == "yarn"
    ensures r == Some("npm") <==> ToLower(line) == "npm"
  {
    var answer := ToLower(line);
    if answer == "yarn" || |answer| == 0 then Some("yarn")
    else if answer == "npm" then Some("npm")
    else None
  }

  /**
   * `getPreferredProjectName`'s test on one line: empty gives the fallback
   * name, a valid name is kept as typed, an invalid one is asked again.
   */
  function NormalizeProjectName(line: string): (r: Option<string>)
    ensures r.Some? ==> IsValidPackageName(r.value)
    ensures line == "" ==> r == Some(DefaultProjectName)
    ensures line != "" ==> (r.Some? <==> IsValidPackageName(line))
    ensures line != "" && r.Some? ==> r.value == line
  {
    if |line| == 0 then DefaultNameIsValid(); Some(DefaultProjectName)
    else if !IsValidPackageName(line) then None
    else Some(line)
  }

  /**
   * The yes/no test shared by `shouldAssistWithAuth`,
   * `shouldAssistWithBicycle` and `shouldAssistWithCode`: empty or `y` gives
   * `y`, `n` gives `n`, anything else is asked again, without regard to case.
   */
  function NormalizeYesNo(line: string): (r: Option<string>)
    ensures r.Some? ==> r.value == "y" || r.value == "n"
    ensures r == Some("y") <==> ToLower(line) == "" || ToLower(line) == "y"
    ensures r == Some("n") <==> ToLower(line) == "n"
  {
    var answer := ToLower(line);
    if answer == "y" || |answer| == 0 then Some("y")
    else if answer == "n" then Some("n")
    else None
  }

  /** Case does not matter to the two case-insensitive normalisers. */
  lemma NormalisersIgnoreCase(line: string)
    ensures NormalizePackageManager(line) == NormalizePackageManager(ToLower(line))
    ensures NormalizeYesNo(line) == NormalizeYesNo(ToLower(line))
  {
    ToLowerIdempotent(line);
  }
}
