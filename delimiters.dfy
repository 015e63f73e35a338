/**
 * Delimiter matching over the brackets of a piece of source text: enough to
 * tell whether a function's parentheses and braces close in the order they
 * were opened, which a JavaScript parser demands before anything runs.
 */
module Delimiters {
  import opened Wrappers

  datatype Kind = Paren | Brace

  /** A delimiter; all other text (names, strings, comments) is left out. */
  datatype Token = Open(kind: Kind) | Close(kind: Kind)

  /**
   * Scan the tokens against a stack of the kinds still pending, innermost
   * first: `None` at the first closing delimiter that does not close the
   * innermost pending one, otherwise the kinds left pending at the end.
   */
  function Scan(tokens: seq<Token>, pending: seq<Kind>): (r: Option<seq<Kind>>)
    ensures tokens == [] ==> r == Some(pending)
    ensures |tokens| > 0 && tokens[0].Close? && (pending == [] || pending[0] != tokens[0].kind) ==> r.None?
  {
    if tokens == [] then Some(pending)
    else match tokens[0]
      case Open(k) => Scan(tokens[1..], [k] + pending)
      case Close(k) => if pending != [] && pending[0] == k then Scan(tokens[1..], pending[1..]) else None
  }

  /** Every delimiter is closed, in order. */
  predicate Balanced(tokens: seq<Token>) {
    Scan(tokens, []) == Some([])
  }

  /** Scanning two pieces in a row is scanning the first, then the second from where it left off. */
  lemma {:induction false} ScanAppend(t: seq<Token>, u: seq<Token>, pending: seq<Kind>)
    ensures Scan(t + u, pending) ==
      match Scan(t, pending)
      case None => None
      case Some(left) => Scan(u, left)
    decreases |t|
  {
    if t == [] {
      assert t + u == u;
    } else {
      assert (t + u)[0] == t[0];
      assert (t + u)[1..] == t[1..] + u;
      match t[0]
      case Open(k) => ScanAppend(t[1..], u, [k] + pending);
      case Close(k) =>
        if pending != [] && pending[0] == k {
          ScanAppend(t[1..], u, pending[1..]);
        }
    }
  }

  /** Kinds opened before a piece that closes what it opens stay pending below it, untouched. */
  lemma {:induction false} ScanBelow(t: seq<Token>, pending: seq<Kind>, left: seq<Kind>, below: seq<Kind>)
    requires Scan(t, pending) == Some(left)
    ensures Scan(t, pending + below) == Some(left + below)
    decreases |t|
  {
    if t != [] {
      match t[0]
      case Open(k) =>
        assert [k] + (pending + below) == ([k] + pending) + below;
        ScanBelow(t[1..], [k] + pending, left, below);
      case Close(k) =>
        assert (pending + below)[1..] == pending[1..] + below;
        ScanBelow(t[1..], pending[1..], left, below);
    }
  }

  /** Two balanced pieces in a row are balanced. */
  lemma BalancedConcat(t: seq<Token>, u: seq<Token>)
    requires Balanced(t) && Balanced(u)
    ensures Balanced(t + u)
  {
    ScanAppend(t, u, []);
  }

  /** A balanced piece between an opening delimiter and the matching closing one is balanced. */
  lemma BalancedWrap(k: Kind, t: seq<Token>)
    requires Balanced(t)
    ensures Balanced([Open(k)] + t + [Close(k)])
  {
    assert [Open(k)][1..] == [] && [k] + [] == [k];
    assert Scan([Open(k)], []) == Some([k]);
    ScanAppend([Open(k)], t, []);
    ScanBelow(t, [], [], [k]);
    assert [] + [k] == [k];
    ScanAppend([Open(k)] + t, [Close(k)], []);
    assert Scan([Close(k)], [k]) == Scan([], []);
  }

  /**
   * Once a delimiter is opened and the next one closes a different kind, no
   * text before or after can make the whole balanced.
   */
  lemma MismatchIsFinal(t: seq<Token>, k: Kind, k': Kind, u: seq<Token>)
    requires k != k' && Scan(t, []).Some?
    ensures !Balanced(t + [Open(k), Close(k')] + u)
  {
    ScanAppend(t, [Open(k), Close(k')] + u, []);
    assert ([Open(k), Close(k')] + u)[1..] == [Close(k')] + u;
    assert t + [Open(k), Close(k')] + u == t + ([Open(k), Close(k')] + u);
  }

  /** `async () => { … }`: the empty parameter list, then the body in braces. */
  function ArrowFunction(body: seq<Token>): seq<Token> {
    [Open(Paren), Close(Paren)] + [Open(Brace)] + body + [Close(Brace)]
  }

  /**
   * `assistWithLSDAuth` as written: the body opens `console.log(` and the
   * function's closing brace follows with the call still pending, so the file
   * does not parse.
   */
  function AssistWithLSDAuthAsWritten(): (t: seq<Token>)
    ensures !Balanced(t)
  {
    var head := [Open(Paren), Close(Paren), Open(Brace)];
    assert head[1..] == [Close(Paren), Open(Brace)] && head[1..][1..] == [Open(Brace)];
    assert Scan(head, []) == Scan([Close(Paren), Open(Brace)], [Paren]) == Scan([Open(Brace)], []);
    assert [Open(Brace)][1..] == [] && [Brace] + [] == [Brace];
    MismatchIsFinal(head, Paren, Brace, []);
    assert ArrowFunction([Open(Paren)]) == head + [Open(Paren), Close(Brace)] + [];
    ArrowFunction([Open(Paren)])
  }

  /** `assistWithLSDAuth` with the call closed: a print of a template string, balanced. */
  function AssistWithLSDAuth(): (t: seq<Token>)
    ensures Balanced(t)
  {
    var call := [Open(Paren), Close(Paren)];
    assert Balanced([]);
    BalancedWrap(Paren, []);
    BalancedWrap(Brace, call);
    BalancedConcat(call, [Open(Brace)] + call + [Close(Brace)]);
    assert ArrowFunction(call) == call + ([Open(Brace)] + call + [Close(Brace)]);
    ArrowFunction(call)
  }
}
