/**
 The exception a run ends with when child rollbacks fail (RollbackState.ts, exceptions.ts), and the failure tree that is
 written for it.
 */
module RollbackFailures {
  import opened Options
  import opened CooperationFailures

  predicate AllCooperation(ts: seq<Throwable>) {
    forall i :: 0 <= i < |ts| ==> ts[i].Cooperation? && AllCooperation(ts[i].causes)
  }

  predicate ContainsRecursively(exceptions: seq<Throwable>, exception: Throwable)
    requires AllCooperation(exceptions) && exception.Cooperation?
    decreases exceptions
  {
    exists i :: 0 <= i < |exceptions|
                && (EqualsStructurally(exceptions[i], exception) || ContainsRecursively(exceptions[i].causes, exception))
  }

  /** The exception reached by choosing a cause by its index, again and again. */
  function NodeAt(exceptions: seq<Throwable>, path: seq<nat>): (node: Option<Throwable>)
    requires AllCooperation(exceptions)
    ensures node.Some? ==> node.value.Cooperation?
    decreases |path|
  {
    if path == [] || path[0] >= |exceptions| then None
    else if |path| == 1 then Some(exceptions[path[0]])
    else NodeAt(exceptions[path[0]].causes, path[1..])
  }

  /** At the end of the path stands an exception like this one. */
  predicate Occurs(exceptions: seq<Throwable>, exception: Throwable, path: seq<nat>)
    requires AllCooperation(exceptions) && exception.Cooperation?
  {
    NodeAt(exceptions, path).Some? && EqualsStructurally(NodeAt(exceptions, path).value, exception)
  }

  /** The recursive search finds an exception exactly if one like it stands somewhere in the trees. */
  lemma {:induction false} ContainsIff(exceptions: seq<Throwable>, exception: Throwable)
    requires AllCooperation(exceptions) && exception.Cooperation?
    ensures ContainsRecursively(exceptions, exception) <==> exists path :: Occurs(exceptions, exception, path)
    decreases exceptions
  {
    hide EqualsStructurally;
    if ContainsRecursively(exceptions, exception) {
      var i :| 0 <= i < |exceptions|
               && (EqualsStructurally(exceptions[i], exception) || ContainsRecursively(exceptions[i].causes, exception));
      if EqualsStructurally(exceptions[i], exception) {
        assert Occurs(exceptions, exception, [i]);
      } else {
        ContainsIff(exceptions[i].causes, exception);
        var path :| Occurs(exceptions[i].causes, exception, path);
        assert ([i] + path)[1..] == path;
        assert Occurs(exceptions, exception, [i] + path);
      }
    }
    if path :| Occurs(exceptions, exception, path) {
      var i := path[0];
      if |path| > 1 {
        assert Occurs(exceptions[i].causes, exception, path[1..]);
        ContainsIff(exceptions[i].causes, exception);
      }
    }
  }

  /** A ScoopException: the first error is the cause, the others are suppressed. */
  function ScoopException(name: string, message: string, causes: seq<Throwable>): Throwable {
    Plain(message, name, [], if causes == [] then None else Some(causes[0]), if causes == [] then [] else causes[1..])
  }

  function InStep(text: string, step: Option<string>): string {
    if step.None? then "" else text + " occurred while suspended in step [" + step.value + "]"
  }

  function ChildRolledBack(causes: seq<Throwable>, step: Option<string>): Throwable {
    ScoopException("ChildRolledBackException", InStep("Child failure", step), causes)
  }

  function ChildRollbackFailed(causes: seq<Throwable>, step: Option<string>): Throwable {
    ScoopException("ChildRollbackFailedException", InStep("Child rollback failure", step), causes)
  }

  /** The causes of ChildrenFailedWhileRollingBackLastStep's throwable. */
  function CombinedCauses(failures: seq<Throwable>, original: Throwable): (causes: seq<Throwable>)
    requires AllCooperation(failures) && original.Cooperation?
    ensures failures <= causes
  {
    failures + if ContainsRecursively(failures, original) then [] else [original]
  }

  /** The tree written when a rolling run rethrows that its children failed to roll back. */
  function WrittenWhileRollingBack(failures: seq<Throwable>, original: Throwable, step: string, source: string): Failure
    requires AllCooperation(failures) && original.Cooperation?
  {
    FromThrowable(ChildRollbackFailed(CombinedCauses(failures, original), Some(step)), source)
  }

  /** The tree written when a run going forward rethrows that its children failed, and failed to roll back. */
  function WrittenWhileForward(failures: seq<Throwable>, originals: seq<Throwable>, step: string, source: string): Failure {
    FromThrowable(ChildRollbackFailed(failures + [ChildRolledBack(originals, None)], Some(step)), source)
  }

  // ---------------------------------------------------------------- exceptions that were read from the log

  /** Built by toCooperationException, as all exceptions read back from the log are. */
  ghost predicate FromLog(t: Throwable) {
    exists f :: t == ToException(f)
  }

  ghost predicate AllFromLog(ts: seq<Throwable>) {
    forall i :: 0 <= i < |ts| ==> FromLog(ts[i])
  }

  lemma {:induction false} LogExceptionsAreCooperation(f: Failure)
    ensures AllCooperation([ToException(f)]) && AllCooperation(ToException(f).causes)
  {
    var causes := ToException(f).causes;
    forall i | 0 <= i < |causes| ensures causes[i].Cooperation? && AllCooperation(causes[i].causes) {
      LogExceptionsAreCooperation(f.causes[i]);
    }
  }

  lemma AllFromLogAreCooperation(ts: seq<Throwable>)
    requires AllFromLog(ts)
    ensures AllCooperation(ts)
  {
    forall i | 0 <= i < |ts| ensures ts[i].Cooperation? && AllCooperation(ts[i].causes) {
      assert FromLog(ts[i]);
      var f :| ts[i] == ToException(f);
      LogExceptionsAreCooperation(f);
    }
  }

  lemma {:induction false} ExceptionOfNormalised(f: Failure)
    ensures ToException(Normalised(f)) == ToException(f)
  {
    NoMessageIsHeard();
    var a, b := ToException(Normalised(f)), ToException(f);
    forall i | 0 <= i < |f.causes| ensures a.causes[i] == b.causes[i] {
      ExceptionOfNormalised(f.causes[i]);
    }
    assert a.causes == b.causes;
  }

  /** Writing an exception from the log and reading it again gives the same exception. */
  lemma WrittenAndReadBack(t: Throwable, source: string)
    requires FromLog(t)
    ensures ToException(FromThrowable(t, source)) == t
  {
    var f :| t == ToException(f);
    HopNormalises(f, source);
    ExceptionOfNormalised(f);
  }

  lemma {:induction false} EqualsItself(f: Failure)
    ensures EqualsStructurally(ToException(f), ToException(f))
  {
    EqualsStructurallyIff(f, f);
  }

  lemma CausesWritten(name: string, message: string, causes: seq<Throwable>, source: string)
    ensures FromThrowable(ScoopException(name, message, causes), source).causes == AllFrom(causes, source)
  {
    if causes != [] {
      AllFromSplits(causes, source);
    }
  }

  lemma AllFromSplits(ts: seq<Throwable>, source: string)
    requires ts != []
    ensures AllFrom(ts, source) == [FromThrowable(ts[0], source)] + AllFrom(ts[1..], source)
  {
    var fs, rest := AllFrom(ts, source), AllFrom(ts[1..], source);
    assert forall i :: 0 < i < |fs| ==> fs[i] == rest[i - 1];
  }

  lemma AllReadBack(ts: seq<Throwable>, source: string, f: Failure)
    requires AllFromLog(ts) && f.causes == AllFrom(ts, source)
    ensures ToException(f).causes == ts
  {
    forall i | 0 <= i < |ts| ensures ToException(f).causes[i] == ts[i] {
      WrittenAndReadBack(ts[i], source);
    }
  }

  /** The direct causes of a written ScoopException, read back. */
  lemma CausesReadBack(name: string, message: string, causes: seq<Throwable>, source: string)
    requires AllFromLog(causes)
    ensures ToException(FromThrowable(ScoopException(name, message, causes), source)).causes == causes
  {
    CausesWritten(name, message, causes, source);
    AllReadBack(causes, source, FromThrowable(ScoopException(name, message, causes), source));
  }

  // ---------------------------------------------------------------- what the tree keeps

  /**
   The tree a failed rollback writes keeps every child failure, in order, as its first causes, and the original cause
   somewhere below, up to structural equality.
   */
  lemma FailedRollbackKeepsEverything(failures: seq<Throwable>, original: Throwable, step: string, source: string)
    requires AllFromLog(failures) && FromLog(original) && AllCooperation(failures)
    ensures var read := ToException(WrittenWhileRollingBack(failures, original, step, source));
            && failures <= read.causes && AllCooperation(read.causes)
            && (exists path :: Occurs(read.causes, original, path))
            && |read.causes| == |failures| + if exists path :: Occurs(failures, original, path) then 0 else 1
  {
    var causes := CombinedCauses(failures, original);
    CausesReadBack("ChildRollbackFailedException", InStep("Child rollback failure", Some(step)), causes, source);
    AllFromLogAreCooperation(causes);
    var f :| original == ToException(f);
    EqualsItself(f);
    ContainsIff(failures, original);
    ContainsIff(causes, original);
    if !ContainsRecursively(failures, original) {
      assert EqualsStructurally(causes[|failures|], original);
    }
  }

  /** The tree says what failed, while which step, and on which service. */
  lemma RollingTreeSaysWhere(failures: seq<Throwable>, original: Throwable, step: string, source: string)
    requires AllCooperation(failures) && original.Cooperation?
    ensures var f := WrittenWhileRollingBack(failures, original, step, source);
            && f.kind == "ChildRollbackFailedException" && f.source == source
            && f.message == InStep("Child rollback failure", Some(step))
  {
    hide FromThrowable, ScoopException, ContainsRecursively, InStep;
    NamesTheStep("Child rollback failure", step);
    ScoopWritten("ChildRollbackFailedException", InStep("Child rollback failure", Some(step)),
                 CombinedCauses(failures, original), source);
  }

  /** So does the one written going forward, with what started the rollback as its last cause. */
  lemma ForwardTreeSaysWhere(failures: seq<Throwable>, originals: seq<Throwable>, step: string, source: string)
    ensures var f := WrittenWhileForward(failures, originals, step, source);
            && f.kind == "ChildRollbackFailedException" && f.source == source
            && f.message == InStep("Child rollback failure", Some(step))
            && |f.causes| == |failures| + 1 && f.causes[|failures|].kind == "ChildRolledBackException"
  {
    hide FromThrowable, ScoopException, InStep;
    NamesTheStep("Child rollback failure", step);
    var all := failures + [ChildRolledBack(originals, None)];
    assert all[|failures|] == ChildRolledBack(originals, None);
    ScoopWritten("ChildRollbackFailedException", InStep("Child rollback failure", Some(step)), all, source);
    ScoopWritten("ChildRolledBackException", InStep("Child failure", None), originals, source);
  }

  /** The message names the step, if there is one. */
  lemma NamesTheStep(text: string, step: string)
    ensures InStep(text, Some(step)) == text + " occurred while suspended in step [" + step + "]" != ""
    ensures InStep(text, None) == ""
  {}

  lemma ScoopWritten(name: string, message: string, causes: seq<Throwable>, source: string)
    ensures var f := FromThrowable(ScoopException(name, message, causes), source);
            && f.kind == name && f.source == source && (message != "" ==> f.message == message)
            && f.causes == AllFrom(causes, source)
  {
    hide AllFrom;
    CausesWritten(name, message, causes, source);
  }

  /** A parent that fails in turn for the same reason adds nothing: causes do not multiply on the way up. */
  lemma CausesDoNotMultiply(failures: seq<Throwable>, original: Throwable, step: string, source: string)
    requires AllFromLog(failures) && FromLog(original) && AllCooperation(failures)
    ensures var read := ToException(WrittenWhileRollingBack(failures, original, step, source));
            AllCooperation([read]) && CombinedCauses([read], original) == [read]
  {
    FailedRollbackKeepsEverything(failures, original, step, source);
    var read := ToException(WrittenWhileRollingBack(failures, original, step, source));
    ContainsIff(read.causes, original);
    assert [read][0] == read;
    assert ContainsRecursively([read], original);
  }

  /** Going forward: the failed rollbacks come first, and below the last cause are all the failures that started it. */
  lemma FailedForwardKeepsEverything(failures: seq<Throwable>, originals: seq<Throwable>, step: string, source: string)
    requires AllFromLog(failures) && AllFromLog(originals)
    ensures var read := ToException(WrittenWhileForward(failures, originals, step, source));
            |read.causes| == |failures| + 1 && failures <= read.causes && read.causes[|failures|].causes == originals
  {
    var rolledBack := ChildRolledBack(originals, None);
    CausesReadBack("ChildRolledBackException", "", originals, source);
    var all := failures + [rolledBack];
    var tree := FromThrowable(ChildRollbackFailed(all, Some(step)), source);
    CausesWritten("ChildRollbackFailedException", InStep("Child rollback failure", Some(step)), all, source);
    var read := ToException(tree);
    forall i | 0 <= i < |failures| ensures read.causes[i] == failures[i] {
      WrittenAndReadBack(failures[i], source);
    }
  }
}
