/**
 The rollback plan (RollbackPathContinuation.ts): synthetic step names, the plan built from a run's history, and the
 position a name denotes in it.  Step names are arbitrary strings.
 */
module RollbackPlan {
  import opened Options

  const PREFIX := "Rollback of "
  const SUFFIX := " (rolling back child scopes)"

  // ---------------------------------------------------------------- fresh prefix and suffix

  predicate EndsWith(name: string, suffix: string) {
    |suffix| <= |name| && name[|name| - |suffix|..] == suffix
  }

  /** A name ends with what stands behind some front of it, and with nothing else. */
  lemma EndsWithIff(front: string, name: string, suffix: string)
    ensures EndsWith(front + suffix, suffix)
    ensures EndsWith(name, suffix) ==> name == name[..|name| - |suffix|] + suffix
  {}

  predicate SomeStartsWith(names: seq<string>, prefix: string) {
    exists n :: n in names && prefix <= n
  }

  predicate SomeEndsWith(names: seq<string>, suffix: string) {
    exists n :: n in names && EndsWith(n, suffix)
  }

  function Longest(names: seq<string>): (l: nat)
    ensures forall n :: n in names ==> |n| <= l
  {
    if names == [] then 0
    else
      var rest := Longest(names[1..]);
      assert names == [names[0]] + names[1..];
      if |names[0]| > rest then |names[0]| else rest
  }

  /** `grown` is the first of base, base$, base$$, ... that does not clash. */
  ghost predicate FirstWithoutClash(base: string, grown: string, clash: string -> bool) {
    && base <= grown && (forall i :: |base| <= i < |grown| ==> grown[i] == '$')
    && !clash(grown) && (forall l :: |base| <= l < |grown| ==> clash(grown[..l]))
  }

  function FreshPrefix(names: seq<string>, prefix: string): (grown: string)
    ensures FirstWithoutClash(prefix, grown, p => SomeStartsWith(names, p))
    decreases Longest(names) + 1 - |prefix|
  {
    if SomeStartsWith(names, prefix)
    then
      var grown := FreshPrefix(names, prefix + "$");
      assert grown[..|prefix|] == prefix && grown[|prefix|] == '$';
      grown
    else prefix
  }

  function FreshSuffix(names: seq<string>, suffix: string): (grown: string)
    ensures FirstWithoutClash(suffix, grown, s => SomeEndsWith(names, s))
    decreases Longest(names) + 1 - |suffix|
  {
    if SomeEndsWith(names, suffix)
    then
      var grown := FreshSuffix(names, suffix + "$");
      assert grown[..|suffix|] == suffix && grown[|suffix|] == '$';
      grown
    else suffix
  }

  /** Phase 1: grow the prefix until no user-defined step name starts with it. */
  method GrowPrefix(names: seq<string>) returns (prefix: string)
    ensures prefix == FreshPrefix(names, PREFIX)
    ensures |prefix| == |PREFIX| || |prefix| <= Longest(names) + 1
  {
    prefix := PREFIX;
    while SomeStartsWith(names, prefix)
      invariant FreshPrefix(names, prefix) == FreshPrefix(names, PREFIX)
      invariant |prefix| == |PREFIX| || |prefix| <= Longest(names) + 1
      decreases Longest(names) + 1 - |prefix|
    {
      prefix := prefix + "$";
    }
  }

  method GrowSuffix(names: seq<string>) returns (suffix: string)
    ensures suffix == FreshSuffix(names, SUFFIX)
    ensures |suffix| == |SUFFIX| || |suffix| <= Longest(names) + 1
  {
    suffix := SUFFIX;
    while SomeEndsWith(names, suffix)
      invariant FreshSuffix(names, suffix) == FreshSuffix(names, SUFFIX)
      invariant |suffix| == |SUFFIX| || |suffix| <= Longest(names) + 1
      decreases Longest(names) + 1 - |suffix|
    {
      suffix := suffix + "$";
    }
  }

  // ---------------------------------------------------------------- decimal numerals

  predicate IsDigit(c: char) {
    '0' <= c <= '9'
  }

  function Decimal(n: nat): (s: string)
    ensures |s| > 0 && forall c :: c in s ==> IsDigit(c)
  {
    if n < 10 then ['0' + n as char] else Decimal(n / 10) + ['0' + (n % 10) as char]
  }

  lemma {:induction false} DecimalInjective(m: nat, n: nat)
    requires Decimal(m) == Decimal(n)
    ensures m == n
  {
    var s, t := Decimal(m), Decimal(n);
    assert s[|s| - 1] == '0' + (m % 10) as char && t[|t| - 1] == '0' + (n % 10) as char;
    if m >= 10 && n >= 10 {
      assert s[..|s| - 1] == Decimal(m / 10) && t[..|t| - 1] == Decimal(n / 10);
      DecimalInjective(m / 10, n / 10);
    }
  }

  // ---------------------------------------------------------------- synthetic names

  /** One execution of a step: its name, which failure-handler run it was (if any), and the SUSPENDED that closed it. */
  datatype Instance = Instance(step: string, handler: Option<nat>, suspendedAt: int)

  function HandlerText(handler: Option<nat>): (s: string)
    ensures forall c :: c in s ==> IsDigit(c)
  {
    if handler.None? then "" else Decimal(handler.value)
  }

  function SelfName(prefix: string, step: string, iteration: nat, handler: Option<nat>): string {
    prefix + step + "[" + (Decimal(iteration) + "," + HandlerText(handler) + "]")
  }

  function ChildName(prefix: string, suffix: string, step: string, iteration: nat, handler: Option<nat>): string {
    SelfName(prefix, step, iteration, handler) + suffix
  }

  lemma LastOccurrence(a: string, b: string, c: string, d: string, mark: char)
    requires a + [mark] + b == c + [mark] + d && mark !in b
    ensures |c| <= |a|
  {
    var s, t := a + [mark] + b, c + [mark] + d;
    assert b == s[|a| + 1..];
    assert t[|c|] == mark;
  }

  /** A text splits in only one way at the last occurrence of a character. */
  lemma SplitAtLast(a: string, b: string, c: string, d: string, mark: char)
    requires a + [mark] + b == c + [mark] + d && mark !in b && mark !in d
    ensures a == c && b == d
  {
    LastOccurrence(a, b, c, d, mark);
    LastOccurrence(c, d, a, b, mark);
    var s, t := a + [mark] + b, c + [mark] + d;
    assert s[..|a|] == a && t[..|c|] == c && s[|a| + 1..] == b && t[|c| + 1..] == d;
  }

  /** A self name determines step, iteration and handler run, however the steps are named. */
  lemma SelfNameInjective(prefix: string, s: string, i: nat, h: Option<nat>, t: string, j: nat, g: Option<nat>)
    requires SelfName(prefix, s, i, h) == SelfName(prefix, t, j, g)
    ensures s == t && i == j && h == g
  {
    SelfNameSplits(prefix, s, i, h);
    SelfNameSplits(prefix, t, j, g);
    SplitAtLast(prefix + s, Bracketed(i, h), prefix + t, Bracketed(j, g), '[');
    assert (prefix + s)[|prefix|..] == s && (prefix + t)[|prefix|..] == t;
    BracketedInjective(i, h, j, g);
  }

  /** What follows the opening bracket of a self name. */
  function Bracketed(iteration: nat, handler: Option<nat>): string {
    Decimal(iteration) + "," + HandlerText(handler) + "]"
  }

  lemma SelfNameSplits(prefix: string, step: string, iteration: nat, handler: Option<nat>)
    ensures SelfName(prefix, step, iteration, handler) == (prefix + step) + ['['] + Bracketed(iteration, handler)
    ensures '[' !in Bracketed(iteration, handler)
  {
    hide Decimal, HandlerText;
  }

  lemma BracketedInjective(i: nat, h: Option<nat>, j: nat, g: Option<nat>)
    requires Bracketed(i, h) == Bracketed(j, g)
    ensures i == j && h == g
  {
    hide Decimal;
    var x, y := HandlerText(h) + "]", HandlerText(g) + "]";
    assert Bracketed(i, h) == Decimal(i) + [','] + x && Bracketed(j, g) == Decimal(j) + [','] + y;
    SplitAtLast(Decimal(i), x, Decimal(j), y, ',');
    assert x[..|x| - 1] == HandlerText(h) && y[..|y| - 1] == HandlerText(g);
    DecimalInjective(i, j);
    if h.Some? && g.Some? {
      DecimalInjective(h.value, g.value);
    }
  }

  /** The two kinds of names differ in their last character. */
  lemma ChildIsNotSelf(prefix: string, names: seq<string>, s: string, i: nat, h: Option<nat>,
                       t: string, j: nat, g: Option<nat>)
    ensures ChildName(prefix, FreshSuffix(names, SUFFIX), s, i, h) != SelfName(prefix, t, j, g)
  {
    var suffix := FreshSuffix(names, SUFFIX);
    var child, self := ChildName(prefix, suffix, s, i, h), SelfName(prefix, t, j, g);
    assert self[|self| - 1] == ']';
    assert child[|child| - 1] == suffix[|suffix| - 1];
    assert |suffix| == |SUFFIX| ==> suffix == SUFFIX;
  }

  // ---------------------------------------------------------------- the plan

  /** One entry of the plan; `own` tells the step's own rollback from the rollback of its children. */
  datatype PlanStep = PlanStep(name: string, instance: Instance, own: bool)

  /** How often the step ran normally (not as failure handler) in this history. */
  function Runs(history: seq<Instance>, step: string): nat {
    if history == [] then 0
    else Runs(history[1..], step) + if history[0].step == step && history[0].handler.None? then 1 else 0
  }

  /** The iteration index of an instance, given everything older than it; a handler run shares its step's latest. */
  function IterationOf(instance: Instance, older: seq<Instance>): nat {
    var runs := Runs(older, instance.step);
    if instance.handler.None? then runs
    else if runs == 0 then 0 else runs - 1
  }

  function StepsFor(prefix: string, suffix: string, instance: Instance, iteration: nat): seq<PlanStep> {
    var children := PlanStep(ChildName(prefix, suffix, instance.step, iteration, instance.handler), instance, false);
    var self := PlanStep(SelfName(prefix, instance.step, iteration, instance.handler), instance, true);
    if instance.handler.None? then [children, self] else [children]
  }

  /** The plan for a history given most recent first. */
  function Plan(prefix: string, suffix: string, history: seq<Instance>): seq<PlanStep> {
    if history == [] then []
    else
      StepsFor(prefix, suffix, history[0], IterationOf(history[0], history[1..]))
      + Plan(prefix, suffix, history[1..])
  }

  function Reversed<T>(s: seq<T>): (r: seq<T>)
    ensures |r| == |s| && forall i :: 0 <= i < |s| ==> r[i] == s[|s| - 1 - i]
  {
    seq(|s|, i requires 0 <= i < |s| => s[|s| - 1 - i])
  }

  /** A counter map agrees with a history when it counts the normal runs of every step that has any. */
  ghost predicate Counts(counters: map<string, nat>, history: seq<Instance>) {
    forall step :: Runs(history, step) == (if step in counters then counters[step] else 0)
                   && (step in counters ==> counters[step] > 0)
  }

  lemma CountsNext(counters: map<string, nat>, instance: Instance, older: seq<Instance>)
    requires Counts(counters, older)
    ensures IterationOf(instance, older)
            == if instance.handler.None? then (if instance.step in counters then counters[instance.step] else 0)
               else (if instance.step in counters then counters[instance.step] else 1) - 1
    ensures Counts(if instance.handler.None? then counters[instance.step := IterationOf(instance, older) + 1]
                   else counters, [instance] + older)
  {
    var grown := [instance] + older;
    assert grown[1..] == older;
    forall step ensures Runs(grown, step)
                        == Runs(older, step) + if instance.step == step && instance.handler.None? then 1 else 0 {}
  }

  /** Number the instances oldest first, one counter per step name. */
  method IterationIndices(history: seq<Instance>) returns (indices: seq<nat>)
    ensures |indices| == |history|
    ensures forall k :: 0 <= k < |history| ==> indices[k] == IterationOf(history[k], history[k + 1..])
  {
    var chronological := Reversed(history);
    var counters: map<string, nat> := map[];
    indices := [];
    for i := 0 to |chronological|
      invariant |indices| == i && Counts(counters, history[|history| - i..])
      invariant forall k :: 0 <= k < i
                  ==> indices[k] == IterationOf(history[|history| - i + k], history[|history| - i + k + 1..])
    {
      var instance := chronological[i];
      ghost var older := history[|history| - i..];
      CountsNext(counters, instance, older);
      assert history[|history| - (i + 1)..] == [instance] + older;
      var iteration: nat;
      if instance.handler.None? {
        iteration := if instance.step in counters then counters[instance.step] else 0;
        counters := counters[instance.step := iteration + 1];
      } else {
        iteration := (if instance.step in counters then counters[instance.step] else 1) - 1;
      }
      indices := [iteration] + indices;
    }
  }

  /** buildRollbackSteps: emit the sub-steps of the numbered instances, most recent first. */
  method BuildRollbackSteps(prefix: string, suffix: string, history: seq<Instance>) returns (result: seq<PlanStep>)
    ensures result == Plan(prefix, suffix, history)
  {
    hide StepsFor, IterationOf;
    var indices := IterationIndices(history);
    result := [];
    for i := 0 to |history|
      invariant result + Plan(prefix, suffix, history[i..]) == Plan(prefix, suffix, history)
    {
      var steps := StepsFor(prefix, suffix, history[i], indices[i]);
      assert history[i..][1..] == history[i + 1..];
      assert Plan(prefix, suffix, history[i..]) == steps + Plan(prefix, suffix, history[i + 1..]);
      result := result + steps;
    }
  }

  // ---------------------------------------------------------------- names in a plan

  /** What a plan entry's name is made of. */
  ghost predicate Named(p: PlanStep, prefix: string, suffix: string, iteration: nat) {
    p.name == if p.own then SelfName(prefix, p.instance.step, iteration, p.instance.handler)
              else ChildName(prefix, suffix, p.instance.step, iteration, p.instance.handler)
  }

  /** The entry belongs to history[k]. */
  ghost predicate EntryOf(p: PlanStep, prefix: string, suffix: string, history: seq<Instance>, k: nat)
    requires k < |history|
  {
    p.instance == history[k] && Named(p, prefix, suffix, IterationOf(history[k], history[k + 1..]))
    && (p.own ==> p.instance.handler.None?)
  }

  lemma {:induction false} EntriesComeFromHistory(prefix: string, suffix: string, history: seq<Instance>, i: nat)
    returns (k: nat)
    requires i < |Plan(prefix, suffix, history)|
    ensures k < |history| && EntryOf(Plan(prefix, suffix, history)[i], prefix, suffix, history, k)
  {
    hide SelfName, ChildName;
    var first := StepsFor(prefix, suffix, history[0], IterationOf(history[0], history[1..]));
    if i < |first| {
      k := 0;
    } else {
      hide StepsFor, IterationOf;
      var j := EntriesComeFromHistory(prefix, suffix, history[1..], i - |first|);
      assert history[1..][j + 1..] == history[j + 2..];
      k := j + 1;
    }
  }

  /** Two executions a plan cannot tell apart: same step, same iteration index, same handler run. */
  predicate Confused(history: seq<Instance>, i: nat, j: nat)
    requires i < j < |history|
  {
    && history[i].step == history[j].step && history[i].handler == history[j].handler
    && IterationOf(history[i], history[i + 1..]) == IterationOf(history[j], history[j + 1..])
  }

  predicate NoneConfused(history: seq<Instance>) {
    forall i, j :: 0 <= i < j < |history| ==> !Confused(history, i, j)
  }

  predicate DistinctNames(plan: seq<PlanStep>) {
    forall i, j :: 0 <= i < j < |plan| ==> plan[i].name != plan[j].name
  }

  lemma {:induction false} FirstNamesApart(names: seq<string>, prefix: string, history: seq<Instance>, i: nat, j: nat)
    requires history != [] && NoneConfused(history)
    requires i < |StepsFor(prefix, FreshSuffix(names, SUFFIX), history[0], IterationOf(history[0], history[1..]))| <= j
    requires j < |Plan(prefix, FreshSuffix(names, SUFFIX), history)|
    ensures Plan(prefix, FreshSuffix(names, SUFFIX), history)[i].name
            != Plan(prefix, FreshSuffix(names, SUFFIX), history)[j].name
  {
    var suffix := FreshSuffix(names, SUFFIX);
    var it := IterationOf(history[0], history[1..]);
    var first := StepsFor(prefix, suffix, history[0], it);
    var plan := Plan(prefix, suffix, history);
    var k := EntriesComeFromHistory(prefix, suffix, history[1..], j - |first|);
    assert history[1..][k + 1..] == history[k + 2..];
    assert !Confused(history, 0, k + 1);
    NamesApart(names, prefix, plan[i], it, plan[j], IterationOf(history[k + 1], history[k + 2..]));
  }

  /** Entries of instances a plan can tell apart have different names. */
  lemma NamesApart(names: seq<string>, prefix: string, p: PlanStep, i: nat, q: PlanStep, j: nat)
    requires Named(p, prefix, FreshSuffix(names, SUFFIX), i) && Named(q, prefix, FreshSuffix(names, SUFFIX), j)
    requires p.instance.step != q.instance.step || p.instance.handler != q.instance.handler || i != j
    ensures p.name != q.name
  {
    var s, h, t, g := p.instance.step, p.instance.handler, q.instance.step, q.instance.handler;
    if p.own != q.own {
      ChildIsNotSelf(prefix, names, s, i, h, t, j, g);
      ChildIsNotSelf(prefix, names, t, j, g, s, i, h);
    } else if p.name == q.name {
      var suffix := FreshSuffix(names, SUFFIX);
      if !p.own {
        var a, b := SelfName(prefix, s, i, h), SelfName(prefix, t, j, g);
        assert (a + suffix)[..|a|] == a && (b + suffix)[..|b|] == b;
      }
      SelfNameInjective(prefix, s, i, h, t, j, g);
    }
  }

  lemma {:induction false} DistinctIfNoneConfused(names: seq<string>, prefix: string, history: seq<Instance>)
    requires NoneConfused(history)
    ensures DistinctNames(Plan(prefix, FreshSuffix(names, SUFFIX), history))
  {
    if history != [] {
      var suffix := FreshSuffix(names, SUFFIX);
      var it := IterationOf(history[0], history[1..]);
      var first, rest := StepsFor(prefix, suffix, history[0], it), Plan(prefix, suffix, history[1..]);
      TailNotConfused(history);
      DistinctIfNoneConfused(names, prefix, history[1..]);
      ChildIsNotSelf(prefix, names, history[0].step, it, history[0].handler, history[0].step, it, history[0].handler);
      var plan := Plan(prefix, suffix, history);
      forall i, j | 0 <= i < j < |plan| ensures plan[i].name != plan[j].name {
        if i < |first| <= j {
          FirstNamesApart(names, prefix, history, i, j);
        } else if |first| <= i {
          assert plan[i] == rest[i - |first|] && plan[j] == rest[j - |first|];
        }
      }
    }
  }

  lemma TailNotConfused(history: seq<Instance>)
    requires history != [] && NoneConfused(history)
    ensures NoneConfused(history[1..])
  {
    forall i, j | 0 <= i < j < |history[1..]| ensures !Confused(history[1..], i, j) {
      assert history[1..][i + 1..] == history[i + 2..] && history[1..][j + 1..] == history[j + 2..];
      assert !Confused(history, i + 1, j + 1);
    }
  }

  /** Every instance has its child rollback in the plan. */
  lemma {:induction false} ChildEntryOf(prefix: string, suffix: string, history: seq<Instance>, k: nat)
    returns (i: nat)
    requires k < |history|
    ensures i < |Plan(prefix, suffix, history)|
    ensures Plan(prefix, suffix, history)[i]
            == StepsFor(prefix, suffix, history[k], IterationOf(history[k], history[k + 1..]))[0]
    ensures k == 0 ==> i == 0
    ensures k > 0 ==> i > 0
  {
    if k == 0 {
      i := 0;
    } else {
      var j := ChildEntryOf(prefix, suffix, history[1..], k - 1);
      assert history[1..][k..] == history[k + 1..];
      i := j + |StepsFor(prefix, suffix, history[0], IterationOf(history[0], history[1..]))|;
    }
  }

  lemma {:induction false} ConfusedCollide(prefix: string, suffix: string, history: seq<Instance>, i: nat, j: nat)
    requires i < j < |history| && Confused(history, i, j)
    ensures !DistinctNames(Plan(prefix, suffix, history))
  {
    var plan := Plan(prefix, suffix, history);
    if i == 0 {
      hide Plan;
      var a := ChildEntryOf(prefix, suffix, history, 0);
      var b := ChildEntryOf(prefix, suffix, history, j);
      assert a < b && plan[a].name == plan[b].name;
    } else {
      var tail := history[1..];
      assert tail[i..] == history[i + 1..] && tail[j..] == history[j + 1..];
      ConfusedCollide(prefix, suffix, tail, i - 1, j - 1);
      SuffixNotDistinct(plan[..|plan| - |Plan(prefix, suffix, tail)|], Plan(prefix, suffix, tail));
      assert plan == plan[..|plan| - |Plan(prefix, suffix, tail)|] + Plan(prefix, suffix, tail);
    }
  }

  lemma SuffixNotDistinct(first: seq<PlanStep>, rest: seq<PlanStep>)
    requires !DistinctNames(rest)
    ensures !DistinctNames(first + rest)
  {
    var a, b :| 0 <= a < b < |rest| && rest[a].name == rest[b].name;
    assert (first + rest)[a + |first|] == rest[a] && (first + rest)[b + |first|] == rest[b];
  }

  /** The names of a plan are pairwise distinct exactly when no two instances share step, iteration and handler run. */
  lemma PlanNamesDistinctIff(names: seq<string>, prefix: string, history: seq<Instance>)
    ensures DistinctNames(Plan(prefix, FreshSuffix(names, SUFFIX), history)) <==> NoneConfused(history)
  {
    if NoneConfused(history) {
      DistinctIfNoneConfused(names, prefix, history);
    } else {
      var i, j :| 0 <= i < j < |history| && Confused(history, i, j);
      ConfusedCollide(prefix, FreshSuffix(names, SUFFIX), history, i, j);
    }
  }

  // ---------------------------------------------------------------- histories the engine writes

  function Incremented(handler: Option<nat>): nat {
    if handler.None? then 0 else handler.value + 1
  }

  /** The failure handler of the step just completed ran. */
  predicate HandlerRun(newer: Instance, older: Instance) {
    newer.step == older.step && newer.handler == Some(Incremented(older.handler))
  }

  /**
   Forward history, most recent first.  A resume either runs the failure handler of the completed step, or invokes some
   step; an invocation is recorded under the handler iteration the run was suspended with.  Failures of other runs'
   children are reported too, so even the very first resume may run a handler.
   */
  predicate EngineHistory(history: seq<Instance>) {
    && (history != [] ==> history[|history| - 1].handler.None? || history[|history| - 1].handler == Some(0))
    && forall i :: 0 <= i < |history| - 1 ==>
         HandlerRun(history[i], history[i + 1]) || history[i].handler == history[i + 1].handler
  }

  /** A step suspended twice under one and the same handler iteration. */
  predicate TwiceInOneHandlerRun(history: seq<Instance>, i: nat, j: nat)
    requires i < j < |history|
  {
    history[i].handler.Some? && history[i].handler == history[j].handler && history[i].step == history[j].step
  }

  /** Every instance recorded with a handler iteration really is a handler run of the step below it. */
  predicate OnlyHandlersCarryIterations(history: seq<Instance>) {
    forall i :: 0 <= i < |history| && history[i].handler.Some? ==>
      i + 1 < |history| && HandlerRun(history[i], history[i + 1])
  }

  lemma {:induction false} RunsAdd(history: seq<Instance>, i: nat, j: nat, step: string)
    requires i <= j <= |history|
    ensures Runs(history[i..], step) == Runs(history[i..j], step) + Runs(history[j..], step)
    decreases j - i
  {
    if i < j {
      RunsAdd(history, i + 1, j, step);
      assert history[i..][1..] == history[i + 1..] && history[i..j][1..] == history[i + 1..j];
    } else {
      assert history[i..j] == [];
    }
  }

  lemma {:induction false} NoRunsAmongHandlers(history: seq<Instance>, step: string)
    requires forall i :: 0 <= i < |history| ==> history[i].handler.Some?
    ensures Runs(history, step) == 0
  {
    if history != [] {
      NoRunsAmongHandlers(history[1..], step);
    }
  }

  /** Once a handler has run, no later instance is recorded as a normal run. */
  lemma {:induction false} HandlersStay(history: seq<Instance>, i: nat, j: nat)
    requires EngineHistory(history) && i <= j < |history| && history[j].handler.Some?
    ensures history[i].handler.Some? && history[i].handler.value >= history[j].handler.value
    decreases j - i
  {
    if i < j {
      HandlersStay(history, i + 1, j);
    }
  }

  /** For histories the engine writes: exactly one way to be confused. */
  lemma ConfusedIff(history: seq<Instance>, i: nat, j: nat)
    requires EngineHistory(history) && i < j < |history|
    ensures Confused(history, i, j) <==> TwiceInOneHandlerRun(history, i, j)
  {
    hide Runs, HandlerRun;
    var a, b := history[i], history[j];
    if a.step == b.step && a.handler == b.handler {
      RunsAdd(history, i + 1, j + 1, a.step);
      if a.handler.None? {
        RunsUpTo(history, i + 1, j);
      } else {
        var between := history[i + 1..j + 1];
        forall k | 0 <= k < |between| ensures between[k].handler.Some? {
          HandlersStay(history, i + 1 + k, j);
        }
        NoRunsAmongHandlers(between, a.step);
      }
    }
  }

  /** A normal run counts. */
  lemma RunsUpTo(history: seq<Instance>, i: nat, j: nat)
    requires i <= j < |history| && history[j].handler.None?
    ensures Runs(history[i..j + 1], history[j].step) > 0
  {
    var part := history[i..j + 1];
    RunsAdd(part, 0, j - i, history[j].step);
    assert part[0..] == part && part[j - i..] == [history[j]];
    assert Runs([history[j]], history[j].step) == 1;
  }

  lemma EngineNamesDistinctIff(names: seq<string>, prefix: string, history: seq<Instance>)
    requires EngineHistory(history)
    ensures DistinctNames(Plan(prefix, FreshSuffix(names, SUFFIX), history))
            <==> forall i, j :: 0 <= i < j < |history| ==> !TwiceInOneHandlerRun(history, i, j)
  {
    PlanNamesDistinctIff(names, prefix, history);
    forall i, j | 0 <= i < j < |history|
      ensures Confused(history, i, j) <==> TwiceInOneHandlerRun(history, i, j)
    {
      ConfusedIff(history, i, j);
    }
  }

  /** As long as only failure handlers are recorded with an iteration, names are distinct: loops never confuse a plan. */
  lemma HandlerDisciplineKeepsNamesDistinct(names: seq<string>, prefix: string, history: seq<Instance>)
    requires EngineHistory(history) && OnlyHandlersCarryIterations(history)
    ensures DistinctNames(Plan(prefix, FreshSuffix(names, SUFFIX), history))
  {
    forall i, j | 0 <= i < j < |history| ensures !TwiceInOneHandlerRun(history, i, j) {
      if history[j].handler.Some? {
        HandlersStay(history, i, j);
        HandlersStay(history, i + 1, j);
      }
    }
    EngineNamesDistinctIff(names, prefix, history);
  }

  /**
   The engine can write a history whose plan has two entries of one name: a handler of "A" ran and returned, then "B"
   was invoked and repeated, both recorded under the handler's iteration.
   */
  lemma CarriedIterationCollides(names: seq<string>, prefix: string)
    ensures var history := [Instance("B", Some(0), 4), Instance("B", Some(0), 3), Instance("A", Some(0), 2),
                            Instance("A", None, 1)];
            EngineHistory(history) && !DistinctNames(Plan(prefix, FreshSuffix(names, SUFFIX), history))
  {
    var history := [Instance("B", Some(0), 4), Instance("B", Some(0), 3), Instance("A", Some(0), 2),
                    Instance("A", None, 1)];
    assert TwiceInOneHandlerRun(history, 0, 1);
    EngineNamesDistinctIff(names, prefix, history);
  }

  // ---------------------------------------------------------------- originals and positions

  /** Phase 2: the instances whose name does not start with the rollback prefix. */
  function Originals(prefix: string, executed: seq<Instance>): seq<Instance> {
    if executed == [] then []
    else if prefix <= executed[0].step then Originals(prefix, executed[1..])
    else [executed[0]] + Originals(prefix, executed[1..])
  }

  lemma {:induction false} OriginalsOfHistory(prefix: string, history: seq<Instance>)
    requires forall i :: 0 <= i < |history| ==> !(prefix <= history[i].step)
    ensures Originals(prefix, history) == history
  {
    if history != [] {
      OriginalsOfHistory(prefix, history[1..]);
    }
  }

  /** Rollback suspensions in front of a history leave the rebuilt plan as it was. */
  lemma {:induction false} RollbackRowsLeaveOriginals(prefix: string, done: seq<Instance>, history: seq<Instance>)
    requires forall i :: 0 <= i < |done| ==> prefix <= done[i].step
    requires forall i :: 0 <= i < |history| ==> !(prefix <= history[i].step)
    ensures Originals(prefix, done + history) == history
  {
    if done == [] {
      assert done + history == history;
      OriginalsOfHistory(prefix, history);
    } else {
      RollbackRowsLeaveOriginals(prefix, done[1..], history);
      assert (done + history)[1..] == done[1..] + history;
    }
  }

  lemma PlanNamesStartWithPrefix(prefix: string, suffix: string, history: seq<Instance>, i: nat)
    requires i < |Plan(prefix, suffix, history)|
    ensures prefix <= Plan(prefix, suffix, history)[i].name
  {
    var k := EntriesComeFromHistory(prefix, suffix, history, i);
  }

  /** findIndex by name. */
  function Position(plan: seq<PlanStep>, name: string): (i: Option<nat>)
    ensures i.Some? ==> i.value < |plan| && plan[i.value].name == name
                        && forall j :: 0 <= j < i.value ==> plan[j].name != name
    ensures i.None? ==> forall j :: 0 <= j < |plan| ==> plan[j].name != name
  {
    if plan == [] then None
    else if plan[0].name == name then Some(0)
    else
      var rest := Position(plan[1..], name);
      if rest.None? then None else Some(rest.value + 1)
  }
}
