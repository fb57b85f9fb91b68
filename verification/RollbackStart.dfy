/**
 How the rollback of a run starts.  The first resume in rollback decides whether the first entry of the plan is executed:
 told of a failed child rollback, of any candidate of the coroutine, it runs a failure handler in that entry's place.
 */
module RollbackStart {
  import opened Options
  import opened EventLog
  import opened Protocol
  import opened RunRows
  import opened RunHistory
  import opened RunLives
  import Saga

  /** The run resumes in rollback for the first time: it has not suspended in rollback before. */
  ghost predicate StartsBack(saga: Saga.Definition, move: Option<Move>) {
    move.Some? && move.value.rolling && RollbackPart(saga, move.value.rows) == []
  }

  /** The run has suspended in rollback, or ended it. */
  ghost predicate Begun(saga: Saga.Definition, log: Log, run: Lineage) {
    RollbackPart(saga, RowsOf(log, run)) != [] || RollbackTerminated(log, run)
  }

  ghost predicate StartedCleanly(saga: Saga.Definition, log: Log, run: Lineage) {
    CleanStart(saga, RowsOf(log, run))
  }

  /** The run has executed no step and committed nothing in between. */
  ghost predicate StoodStill(saga: Saga.Definition, log: Log, later: Log, run: Lineage) {
    && (Has(later, Committed, run) <==> Has(log, Committed, run))
    && ForwardPart(saga, RowsOf(later, run)) == ForwardPart(saga, RowsOf(log, run))
  }

  // ---------------------------------------------------------------- one action

  /** A write in rollback goes on with the rollback, or starts it, and stands still otherwise. */
  lemma WriteInRollback(saga: Saga.Definition, log: Log, log': Log, run: Lineage, move: Move)
    requires Moves(saga, log, log', run, Some(move)) && move.rolling
    ensures Begun(saga, log', run) && StoodStill(saga, log, log', run)
    ensures if RollbackPart(saga, move.rows) == []
            then StartedCleanly(saga, log', run) <==> !(move.row.kind == Suspended && move.told)
            else StartedCleanly(saga, log', run) <==> StartedCleanly(saga, log, run)
  {
    hide RowsOf, Sound, ForwardPart, PlanFor, Standing;
    if move.row.kind == Suspended {
      AddRollbackRow(saga, move.rows, SuspendedOf(move.row));
    }
  }

  /** What starts a rollback is a first resume, and once started the start does not change any more. */
  lemma MoveKeepsStart(saga: Saga.Definition, log: Log, log': Log, run: Lineage, move: Option<Move>)
    requires Moves(saga, log, log', run, move)
    ensures Begun(saga, log, run)
            ==> Begun(saga, log', run) && (StartedCleanly(saga, log', run) <==> StartedCleanly(saga, log, run))
    ensures RollbackTerminated(log, run)
            ==> RollbackTerminated(log', run) && (Has(log', RolledBack, run) <==> Has(log, RolledBack, run))
    ensures !Begun(saga, log, run) && Begun(saga, log', run) ==> StartsBack(saga, move)
  {
    hide RowsOf, RollbackPart, CleanStart, Sound, MovesBack;
    if move.Some? && move.value.rolling {
      WriteInRollback(saga, log, log', run, move.value);
    }
  }

  /** A run that is rolling back goes no further. */
  lemma RollingMoveStandsStill(saga: Saga.Definition, log: Log, log': Log, run: Lineage, move: Option<Move>)
    requires Moves(saga, log, log', run, move)
    requires Has(log, RollingBack, run) || (move.Some? && move.value.row.kind == RollingBack)
    ensures StoodStill(saga, log, log', run)
  {
    hide RowsOf, ForwardPart, Sound, MovesBack;
    if move.Some? && move.value.rolling {
      WriteInRollback(saga, log, log', run, move.value);
    }
  }

  // ---------------------------------------------------------------- along a life

  /** The first resume in rollback starts it, and decides how. */
  lemma FirstResumeDecides(saga: Saga.Definition, logs: seq<Log>, moves: seq<Option<Move>>, run: Lineage, w: nat)
    requires Life(saga, logs, moves, run) && w < |moves| && StartsBack(saga, moves[w])
    ensures var Move(_, _, told, row) := moves[w].value;
            && Begun(saga, logs[w + 1], run)
            && (StartedCleanly(saga, logs[w + 1], run) <==> !(row.kind == Suspended && told))
            && (row.kind == Suspended || row.kind == RolledBack || row.kind == RollbackFailed)
            && (row.kind != Suspended ==> RollbackTerminated(logs[w + 1], run))
            && (row.kind == RolledBack || Has(logs[w + 1], RolledBack, run) ==> !told)
  {
    hide RowsOf, CleanStart, RollbackPart;
    assert Moves(saga, logs[w], logs[w + 1], run, moves[w]);
    WriteInRollback(saga, logs[w], logs[w + 1], run, moves[w].value);
  }

  /** However the run goes on, how its rollback started stays as it is, and so does how it ended. */
  lemma {:induction false} StartStaysAlong(saga: Saga.Definition, logs: seq<Log>, moves: seq<Option<Move>>, run: Lineage,
                                           i: nat, j: nat)
    requires Life(saga, logs, moves, run) && i <= j < |logs| && Begun(saga, logs[i], run)
    ensures Begun(saga, logs[j], run) && (StartedCleanly(saga, logs[j], run) <==> StartedCleanly(saga, logs[i], run))
    ensures RollbackTerminated(logs[i], run)
            ==> RollbackTerminated(logs[j], run) && (Has(logs[j], RolledBack, run) <==> Has(logs[i], RolledBack, run))
  {
    hide Moves, Begun, StartedCleanly, RowsOf;
    if i < j {
      StartStaysAlong(saga, logs, moves, run, i, j - 1);
      MoveKeepsStart(saga, logs[j - 1], logs[j], run, moves[j - 1]);
    }
  }

  /** Every run that has begun to undo, or ended its rollback, resumed in rollback for a first time. */
  lemma {:induction false} RollbackHadAFirstResume(saga: Saga.Definition, logs: seq<Log>, moves: seq<Option<Move>>,
                                                   run: Lineage, i: nat) returns (w: nat)
    requires Life(saga, logs, moves, run) && i < |logs| && Begun(saga, logs[i], run)
    ensures w < i && StartsBack(saga, moves[w])
  {
    hide Moves, RowsOf, StartsBack;
    MoveKeepsStart(saga, logs[i - 1], logs[i], run, moves[i - 1]);
    if Begun(saga, logs[i - 1], run) {
      w := RollbackHadAFirstResume(saga, logs, moves, run, i - 1);
    } else {
      w := i - 1;
    }
  }

  /** A ROLLED_BACK run started cleanly exactly if its first resume in rollback was told of no failed child rollback. */
  lemma CleanIffUntold(saga: Saga.Definition, logs: seq<Log>, moves: seq<Option<Move>>, run: Lineage, w: nat, i: nat)
    requires Life(saga, logs, moves, run) && w < i < |logs| && StartsBack(saga, moves[w])
    requires Has(logs[i], RolledBack, run)
    ensures StartedCleanly(saga, logs[i], run) <==> !moves[w].value.told
  {
    hide Moves, Begun, StartedCleanly;
    FirstResumeDecides(saga, logs, moves, run, w);
    StartStaysAlong(saga, logs, moves, run, w + 1, i);
  }
}
