/**
 Failures that cross service borders (CooperationFailure.ts): a language-neutral tree, its form as an exception, and
 the way back.
 */
module CooperationFailures {
  import opened Options

  const NO_MESSAGE := "<no message>"

  datatype Frame = Frame(fileName: string, lineNumber: int, className: Option<string>, functionName: Option<string>)

  datatype Failure = Failure(message: string, kind: string, source: string, stack: seq<Frame>, causes: seq<Failure>)

  /** An Error: a CooperationException, or any other with its `cause` and `suppressed` properties. */
  datatype Throwable =
    | Cooperation(message: string, kind: string, source: string, stack: seq<Frame>, causes: seq<Throwable>)
    | Plain(message: string, name: string, stack: seq<Frame>, cause: Option<Throwable>, suppressed: seq<Throwable>)

  // ---------------------------------------------------------------- messages

  /** What String.prototype.trim removes: ECMAScript white space and line terminators. */
  predicate IsWhiteSpace(c: char) {
    c in "\t\n\U{000B}\U{000C}\r \U{00A0}\U{1680}\U{2028}\U{2029}\U{202F}\U{205F}\U{3000}\U{FEFF}"
    || '\U{2000}' <= c <= '\U{200A}'
  }

  predicate IsBlank(s: string) {
    forall c :: c in s ==> IsWhiteSpace(c)
  }

  /** String.prototype.trim, first at the front, then at the back. */
  function Trimmed(s: string): string
    decreases |s|
  {
    if s != "" && IsWhiteSpace(s[0]) then Trimmed(s[1..])
    else if s != "" && IsWhiteSpace(s[|s| - 1]) then Trimmed(s[..|s| - 1])
    else s
  }

  lemma BlankInParts(s: string)
    requires s != ""
    ensures IsBlank(s) <==> IsWhiteSpace(s[0]) && IsBlank(s[1..])
    ensures IsBlank(s) <==> IsWhiteSpace(s[|s| - 1]) && IsBlank(s[..|s| - 1])
  {
    assert s == [s[0]] + s[1..] && s == s[..|s| - 1] + [s[|s| - 1]];
  }

  /** A message is blank exactly if nothing is left of it when it is trimmed. */
  lemma {:induction false} BlankIffTrimmedAway(s: string)
    ensures IsBlank(s) <==> Trimmed(s) == ""
    decreases |s|
  {
    hide IsWhiteSpace;
    if s != "" {
      BlankInParts(s);
      BlankIffTrimmedAway(s[1..]);
      BlankIffTrimmedAway(s[..|s| - 1]);
      hide IsBlank;
    }
  }

  /** The white space and line terminators of ECMAScript, by code point. */
  lemma WhiteSpaceIs(c: char)
    ensures IsWhiteSpace(c)
            <==> 9 <= c as int <= 13 || 0x2000 <= c as int <= 0x200A
                 || c as int in {32, 0xA0, 0x1680, 0x2028, 0x2029, 0x202F, 0x205F, 0x3000, 0xFEFF}
  {}

  function Heard(message: string): string {
    if IsBlank(message) then NO_MESSAGE else message
  }

  function Heading(source: string, kind: string): string {
    "[" + source + "] " + kind + ": "
  }

  /** String.prototype.indexOf. */
  function IndexOf(s: string, part: string, from: nat): (index: int)
    requires from <= |s|
    ensures index == -1 || from <= index <= |s| - |part|
    ensures index >= 0 ==> s[index..index + |part|] == part && forall i :: from <= i < index ==> !(part <= s[i..])
    ensures index == -1 ==> forall i :: from <= i <= |s| ==> !(part <= s[i..])
    decreases |s| - from
  {
    if part <= s[from..] then from
    else if from == |s| then -1
    else IndexOf(s, part, from + 1)
  }

  function StripPrefix(message: string, prefix: string): string {
    var index := IndexOf(message, prefix, 0);
    if index == -1 then message else message[index + |prefix|..]
  }

  lemma StripsOwnHeading(prefix: string, body: string)
    ensures StripPrefix(prefix + body, prefix) == body
  {
    assert (prefix + body)[0..] == prefix + body;
    assert (prefix + body)[|prefix|..] == body;
  }

  // ---------------------------------------------------------------- there and back

  /** toCooperationException. */
  function ToException(f: Failure): (t: Throwable)
    ensures t.Cooperation?
  {
    Cooperation(Heading(f.source, f.kind) + Heard(f.message), f.kind, f.source, f.stack,
                seq(|f.causes|, i requires 0 <= i < |f.causes| => ToException(f.causes[i])))
  }

  /** The constructor's `cause` and `suppressed`. */
  function CauseOf(t: Throwable): Option<Throwable> {
    if t.Plain? then t.cause else if t.causes == [] then None else Some(t.causes[0])
  }

  function SuppressedOf(t: Throwable): seq<Throwable> {
    if t.Plain? then t.suppressed else if t.causes == [] then [] else t.causes[1..]
  }

  /** The constructor splits its causes in a loop; nothing is lost or reordered. */
  method SplitCauses(causes: seq<Throwable>) returns (cause: Option<Throwable>, suppressed: seq<Throwable>)
    ensures cause == if causes == [] then None else Some(causes[0])
    ensures suppressed == if causes == [] then [] else causes[1..]
    ensures (if cause.Some? then [cause.value] else []) + suppressed == causes
  {
    cause, suppressed := None, [];
    if |causes| > 0 {
      cause := Some(causes[0]);
      for i := 1 to |causes|
        invariant suppressed == causes[1..i]
      {
        suppressed := suppressed + [causes[i]];
      }
      assert causes == [causes[0]] + causes[1..];
    }
  }

  function AllFrom(ts: seq<Throwable>, source: string): (fs: seq<Failure>)
    ensures |fs| == |ts| && forall i :: 0 <= i < |ts| ==> fs[i] == FromThrowable(ts[i], source)
    decreases ts
  {
    seq(|ts|, i requires 0 <= i < |ts| => FromThrowable(ts[i], source))
  }

  /** cooperationFailureFromThrowable. */
  function FromThrowable(t: Throwable, source: string): Failure
    decreases t
  {
    match t
    case Cooperation(message, kind, itsSource, stack, causes) =>
      Failure(StripPrefix(message, Heading(itsSource, kind)), kind, itsSource, stack, AllFrom(causes, source))
    case Plain(message, name, stack, cause, suppressed) =>
      Failure(if message != "" then message else NO_MESSAGE, name, source, stack,
              (if cause.Some? then [FromThrowable(cause.value, source)] else []) + AllFrom(suppressed, source))
  }

  /**
   Any other error is written under its name and this service's source, with its stack; read back, its message is the text
   behind the heading.
   */
  lemma OtherErrorsAreWritten(message: string, name: string, stack: seq<Frame>, cause: Option<Throwable>,
                              suppressed: seq<Throwable>, source: string)
    ensures var f := FromThrowable(Plain(message, name, stack, cause, suppressed), source);
            && f.kind == name && f.source == source && f.stack == stack
            && f.message == (if message == "" then "<no message>" else message)
            && (!IsBlank(message) ==> StripPrefix(ToException(f).message, Heading(source, name)) == message)
  {
    hide IsBlank, StripPrefix, Heading, AllFrom;
    StripsOwnHeading(Heading(source, name), message);
    EmptyIsBlank();
  }

  /** What stands before the first mark, and what behind it, can be told from the whole. */
  lemma FirstMark(a: string, b: string, mark: char, restA: string, restB: string)
    requires mark !in a && mark !in b && a + [mark] + restA == b + [mark] + restB
    ensures a == b && restA == restB
  {
    var whole, other := a + [mark] + restA, b + [mark] + restB;
    assert whole[|a|] == mark && other[|b|] == mark;
    assert forall k :: 0 <= k < |a| ==> whole[k] == a[k];
    assert forall k :: 0 <= k < |b| ==> other[k] == b[k];
    assert |a| == |b|;
    assert a == whole[..|a|] && b == other[..|b|];
    assert restA == whole[|a| + 1..] && restB == other[|b| + 1..];
  }

  lemma HeadingParts(source: string, kind: string, said: string)
    ensures (Heading(source, kind) + said)[..1] == "["
    ensures (Heading(source, kind) + said)[1..] == source + [']'] + ([' '] + kind + [':'] + ([' '] + said))
  {}

  lemma HeadingTells(source: string, kind: string, said: string, source': string, kind': string, said': string)
    requires ']' !in source && ']' !in source' && ':' !in kind && ':' !in kind'
    requires Heading(source, kind) + said == Heading(source', kind') + said'
    ensures source == source' && kind == kind' && said == said'
  {
    hide Heading;
    HeadingParts(source, kind, said);
    HeadingParts(source', kind', said');
    var rest, rest' := [' '] + said, [' '] + said';
    FirstMark(source, source', ']', [' '] + kind + [':'] + rest, [' '] + kind' + [':'] + rest');
    FirstMark([' '] + kind, [' '] + kind', ':', rest, rest');
    assert ([' '] + kind)[1..] == kind && ([' '] + kind')[1..] == kind';
    assert rest[1..] == said && rest'[1..] == said';
  }

  /** The message of an exception opens with a bracket and tells where it comes from, its kind and what was said. */
  lemma MessageTells(f: Failure, g: Failure)
    requires ']' !in f.source && ']' !in g.source && ':' !in f.kind && ':' !in g.kind
    ensures ToException(f).message[..1] == "["
    ensures ToException(f).message == ToException(g).message
            ==> f.source == g.source && f.kind == g.kind && Heard(f.message) == Heard(g.message)
  {
    hide Heard, Heading;
    HeadingParts(f.source, f.kind, Heard(f.message));
    if ToException(f).message == ToException(g).message {
      HeadingTells(f.source, f.kind, Heard(f.message), g.source, g.kind, Heard(g.message));
    }
  }

  /** Its cause comes first, then what it suppressed, in order; for a CooperationException, its causes. */
  lemma CausesAreWrittenInOrder(t: Throwable, source: string, i: nat)
    ensures var f := FromThrowable(t, source);
            && |f.causes| == |SuppressedOf(t)| + (if CauseOf(t).Some? then 1 else 0)
            && (CauseOf(t).Some? ==> f.causes[0] == FromThrowable(CauseOf(t).value, source))
            && (i < |SuppressedOf(t)|
                ==> f.causes[if CauseOf(t).Some? then i + 1 else i] == FromThrowable(SuppressedOf(t)[i], source))
  {
    hide FromThrowable;
    NestedFailures(t, source);
    var first := if CauseOf(t).Some? then [FromThrowable(CauseOf(t).value, source)] else [];
    assert first + AllFrom(SuppressedOf(t), source) == FromThrowable(t, source).causes;
  }

  lemma EmptyIsBlank()
    ensures IsBlank("")
  {}

  /** The cause first, then the suppressed errors: for a CooperationException, its causes in order. */
  lemma NestedFailures(t: Throwable, source: string)
    ensures (if CauseOf(t).Some? then [FromThrowable(CauseOf(t).value, source)] else []) + AllFrom(SuppressedOf(t), source)
            == FromThrowable(t, source).causes
  {
    if t.Cooperation? && t.causes != [] {
      assert t.causes == [t.causes[0]] + t.causes[1..];
    }
  }

  method ConvertAll(ts: seq<Throwable>, source: string) returns (fs: seq<Failure>)
    ensures fs == AllFrom(ts, source)
    decreases ts
  {
    fs := [];
    for i := 0 to |ts|
      invariant |fs| == i && forall k :: 0 <= k < i ==> fs[k] == FromThrowable(ts[k], source)
    {
      var converted := ConvertThrowable(ts[i], source);
      fs := fs + [converted];
    }
  }

  /** The conversion as it is run. */
  method ConvertThrowable(t: Throwable, source: string) returns (f: Failure)
    ensures f == FromThrowable(t, source)
    decreases t
  {
    var causes: seq<Failure> := [];
    if CauseOf(t).Some? {
      assert t.Cooperation? ==> t.causes[0] == CauseOf(t).value;
      var converted := ConvertThrowable(CauseOf(t).value, source);
      causes := [converted];
    }
    assert t.Cooperation? ==> |SuppressedOf(t)| <= |t.causes|;
    var suppressed := ConvertAll(SuppressedOf(t), source);
    causes := causes + suppressed;
    NestedFailures(t, source);
    match t {
      case Cooperation(message, kind, itsSource, stack, _) =>
        f := Failure(StripPrefix(message, Heading(itsSource, kind)), kind, itsSource, stack, causes);
      case Plain(message, name, stack, _, _) =>
        f := Failure(if message != "" then message else NO_MESSAGE, name, source, stack, causes);
    }
  }

  // ---------------------------------------------------------------- round trips

  /** The tree with every blank message replaced. */
  function Normalised(f: Failure): Failure {
    f.(message := Heard(f.message),
       causes := seq(|f.causes|, i requires 0 <= i < |f.causes| => Normalised(f.causes[i])))
  }

  predicate NoBlankMessage(f: Failure) {
    !IsBlank(f.message) && forall i :: 0 <= i < |f.causes| ==> NoBlankMessage(f.causes[i])
  }

  /** One hop to another service and its answer. */
  function Hop(f: Failure, source: string): Failure {
    FromThrowable(ToException(f), source)
  }

  lemma {:induction false} HopNormalises(f: Failure, source: string)
    ensures Hop(f, source) == Normalised(f)
  {
    StripsOwnHeading(Heading(f.source, f.kind), Heard(f.message));
    var t := ToException(f);
    forall i | 0 <= i < |f.causes| ensures FromThrowable(t.causes[i], source) == Normalised(f.causes[i]) {
      HopNormalises(f.causes[i], source);
    }
    assert Hop(f, source).causes == Normalised(f).causes;
  }

  lemma NoMessageIsHeard()
    ensures !IsBlank(NO_MESSAGE)
  {
    assert '<' in NO_MESSAGE;
    assert NO_MESSAGE[0] == '<' && !IsWhiteSpace('<');
  }

  lemma {:induction false} NormalisedIff(f: Failure)
    ensures Normalised(f) == f <==> NoBlankMessage(f)
    ensures NoBlankMessage(Normalised(f))
  {
    NoMessageIsHeard();
    var causes := Normalised(f).causes;
    forall i | 0 <= i < |f.causes|
      ensures (causes[i] == f.causes[i] <==> NoBlankMessage(f.causes[i])) && NoBlankMessage(causes[i])
    {
      NormalisedIff(f.causes[i]);
    }
    if forall i :: 0 <= i < |f.causes| ==> causes[i] == f.causes[i] {
      assert causes == f.causes;
    }
  }

  /** A failure survives the way to an exception and back exactly if it has no blank message, at any depth. */
  lemma RoundTripIff(f: Failure, source: string)
    ensures Hop(f, source) == f <==> NoBlankMessage(f)
  {
    HopNormalises(f, source);
    NormalisedIff(f);
  }

  function Hops(f: Failure, sources: seq<string>): Failure
    decreases |sources|
  {
    if sources == [] then f else Hops(Hop(f, sources[0]), sources[1..])
  }

  lemma {:induction false} HopsInTurn(f: Failure, sources: seq<string>, last: string)
    ensures Hops(f, []) == f && Hops(f, sources + [last]) == Hop(Hops(f, sources), last)
    decreases |sources|
  {
    hide Hop;
    if sources == [] {
      assert sources + [last] == [last];
    } else {
      HopsInTurn(Hop(f, sources[0]), sources[1..], last);
      assert (sources + [last])[1..] == sources[1..] + [last];
    }
  }

  /** After the first hop, no further hop changes anything, whichever services it passes. */
  lemma {:induction false} FurtherHopsChangeNothing(f: Failure, first: string, sources: seq<string>)
    ensures Hops(Hop(f, first), sources) == Hop(f, first)
    decreases |sources|
  {
    if sources != [] {
      HopNormalises(f, first);
      NormalisedIff(f);
      RoundTripIff(Hop(f, first), sources[0]);
      FurtherHopsChangeNothing(f, first, sources[1..]);
    }
  }

  // ---------------------------------------------------------------- structural equality

  /** equalsStructurally: everything but the stack traces. */
  predicate EqualsStructurally(a: Throwable, b: Throwable)
    requires a.Cooperation? && b.Cooperation?
  {
    && a.kind == b.kind && a.source == b.source && a.message == b.message && |a.causes| == |b.causes|
    && forall i :: 0 <= i < |a.causes| ==>
         a.causes[i].Cooperation? && b.causes[i].Cooperation? && EqualsStructurally(a.causes[i], b.causes[i])
  }

  function WithoutStacks(f: Failure): Failure {
    f.(stack := [], causes := seq(|f.causes|, i requires 0 <= i < |f.causes| => WithoutStacks(f.causes[i])))
  }

  lemma SameHeardMessage(f: Failure, g: Failure)
    requires f.kind == g.kind && f.source == g.source
    ensures ToException(f).message == ToException(g).message <==> Heard(f.message) == Heard(g.message)
  {
    StripsOwnHeading(Heading(f.source, f.kind), Heard(f.message));
    StripsOwnHeading(Heading(g.source, g.kind), Heard(g.message));
  }

  /** Exceptions are structurally equal exactly if the failures they stand for agree up to stacks and blank messages. */
  lemma {:induction false} EqualsStructurallyIff(f: Failure, g: Failure)
    ensures EqualsStructurally(ToException(f), ToException(g))
            <==> WithoutStacks(Normalised(f)) == WithoutStacks(Normalised(g))
  {
    var t, u, n, m := ToException(f), ToException(g), WithoutStacks(Normalised(f)), WithoutStacks(Normalised(g));
    if |f.causes| == |g.causes| {
      forall i | 0 <= i < |f.causes|
        ensures EqualsStructurally(t.causes[i], u.causes[i]) <==> n.causes[i] == m.causes[i]
      {
        EqualsStructurallyIff(f.causes[i], g.causes[i]);
      }
      assert n.causes == m.causes <==> forall i :: 0 <= i < |f.causes| ==> n.causes[i] == m.causes[i];
    }
    if f.kind == g.kind && f.source == g.source {
      SameHeardMessage(f, g);
    }
  }
}
