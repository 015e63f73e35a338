/**
 * The five questions of the wizard and their retry: a question is asked,
 * one line is read, and the question is asked again until a line is
 * accepted. Standard input is a finite sequence of lines; when it runs out
 * before a line is accepted the question stays unanswered.
 */
module Prompt {
  import opened Wrappers
  import opened Validator

  /** The questions, in the order the wizard asks them. */
  datatype Stage = PackageManagerQ | ProjectNameQ | AuthQ | BrowserQ | CodeQ

  /** Position of a question in the wizard's fixed order. */
  function Order(q: Stage): nat {
    match q
    case PackageManagerQ => 0
    case ProjectNameQ => 1
    case AuthQ => 2
    case BrowserQ => 3
    case CodeQ => 4
  }

  /** What a normalised answer to each question looks like. */
  predicate IsNormalized(q: Stage, v: string) {
    match q
    case PackageManagerQ => v == "npm" || v == "yarn"
    case ProjectNameQ => IsValidPackageName(v)
    case _ => v == "y" || v == "n"
  }

  /** The line test of each question's `get…`/`should…` function. */
  function Normalize(q: Stage, line: string): (r: Option<string>)
    ensures r.Some? ==> IsNormalized(q, r.value)
  {
    match q
    case PackageManagerQ => NormalizePackageManager(line)
    case ProjectNameQ => NormalizeProjectName(line)
    case _ => NormalizeYesNo(line)
  }

  /** A normalised answer, typed again, is accepted unchanged. */
  lemma NormalizedIsFixedPoint(q: Stage, v: string)
    requires IsNormalized(q, v)
    ensures Normalize(q, v) == Some(v)
  {
    LowerIffUnchanged(v);
  }

  /** How one question ends: the accepted answer and how many lines it took. */
  datatype Reply = Accepted(value: string, used: nat) | Exhausted

  /**
   * The answer the retry produces on `lines`: the normalised form of the
   * first accepted line, or `Exhausted` when no line is accepted.
   */
  function FirstAccepted(q: Stage, lines: seq<string>): (r: Reply)
    ensures r.Accepted? ==>
      && 1 <= r.used <= |lines|
      && Normalize(q, lines[r.used - 1]) == Some(r.value)
      && forall j :: 0 <= j < r.used - 1 ==> Normalize(q, lines[j]).None?
    ensures r.Exhausted? ==> forall j :: 0 <= j < |lines| ==> Normalize(q, lines[j]).None?
  {
    if lines == [] then Exhausted
    else match Normalize(q, lines[0])
      case Some(v) => Accepted(v, 1)
      case None =>
        match FirstAccepted(q, lines[1..])
        case Accepted(v, used) => Accepted(v, used + 1)
        case Exhausted => Exhausted
  }

  /** Whatever the retry accepts is a normalised answer to its question. */
  lemma AcceptedIsNormalized(q: Stage, lines: seq<string>)
    requires FirstAccepted(q, lines).Accepted?
    ensures IsNormalized(q, FirstAccepted(q, lines).value)
  {
  }

  /** A reply to the lines after the first `k`, counted from the start instead. */
  function Shifted(r: Reply, k: nat): Reply {
    match r
    case Accepted(v, used) => Accepted(v, used + k)
    case Exhausted => Exhausted
  }

  /** Line `i` accepted: the retry from `i` stops there. */
  lemma AcceptedAt(q: Stage, lines: seq<string>, i: nat, v: string)
    requires i < |lines| && Normalize(q, lines[i]) == Some(v)
    ensures Shifted(FirstAccepted(q, lines[i..]), i) == Accepted(v, i + 1)
  {
    assert lines[i..][0] == lines[i];
  }

  /** Line `i` refused: the retry from `i` is the retry from `i + 1`. */
  lemma RefusedAt(q: Stage, lines: seq<string>, i: nat)
    requires i < |lines| && Normalize(q, lines[i]).None?
    ensures Shifted(FirstAccepted(q, lines[i..]), i) == Shifted(FirstAccepted(q, lines[i + 1..]), i + 1)
  {
    assert lines[i..][0] == lines[i];
    assert lines[i..][1..] == lines[i + 1..];
  }

  /**
   * The retry as a loop: read lines until one is accepted. Each rejected
   * line stands for one recursive re-ask in the source.
   */
  method AskUntilAccepted(q: Stage, lines: seq<string>) returns (r: Reply)
    ensures r == FirstAccepted(q, lines)
  {
    var i := 0;
    assert lines[0..] == lines;
    while i < |lines|
      invariant 0 <= i <= |lines|
      invariant FirstAccepted(q, lines) == Shifted(FirstAccepted(q, lines[i..]), i)
    {
      var answer := Normalize(q, lines[i]);
      if answer.Some? {
        AcceptedAt(q, lines, i, answer.value);
        return Accepted(answer.value, i + 1);
      }
      RefusedAt(q, lines, i);
      i := i + 1;
    }
    assert lines[i..] == [];
    return Exhausted;
  }

  /**
   * What reading an answer evaluates to. In the source the call
   * `askQuestion(q).toLowerCase()` binds before `await`, so `toLowerCase` is
   * looked up on the pending Promise rather than on the typed string.
   */
  datatype JsValue = JsString(s: string) | PendingPromise

  datatype Thrown = TypeError(message: string)

  /** Calling `.toLowerCase()` on a value: only strings have that method. */
  function CallToLowerCase(v: JsValue): (r: Result<string, Thrown>)
    ensures r.Success? <==> v.JsString?
    ensures v.JsString? ==> r.value == ToLower(v.s)
  {
    match v
    case JsString(s) => Success(ToLower(s))
    case PendingPromise => Failure(TypeError("toLowerCase is not a function"))
  }

  /** The answer expression as written at lines 35, 80, 91 and 232. */
  function ReadAnswerAsWritten(line: string): (r: Result<string, Thrown>)
    ensures r.Failure? && r.error.TypeError?
  {
    CallToLowerCase(PendingPromise)
  }

  /**
   * The answer expression as evidently intended: lower-case the typed line.
   * The answer keeps the line's length, holds no upper-case letter, and the
   * case-insensitive questions classify it as they classify the line.
   */
  function ReadAnswer(line: string): (r: Result<string, Thrown>)
    ensures r.Success? && |r.value| == |line| && ToLower(r.value) == r.value
    ensures NormalizePackageManager(r.value) == NormalizePackageManager(line)
    ensures NormalizeYesNo(r.value) == NormalizeYesNo(line)
  {
    ToLowerIdempotent(line);
    NormalisersIgnoreCase(line);
    CallToLowerCase(JsString(line))
  }

  /**
   * As written, reading any answer throws, so even the default `yarn` is
   * never reached; as intended, `YARN` is read as `yarn` and accepted.
   */
  lemma AsWrittenReadThrows(line: string)
    ensures ReadAnswerAsWritten(line).Failure?
    ensures ReadAnswer(line) == Success(ToLower(line))
    ensures ReadAnswer("YARN") == Success("yarn")
    ensures NormalizePackageManager("YARN") == Some("yarn")
  {
    assert ToLower("YARN") == "yarn";
  }
}
