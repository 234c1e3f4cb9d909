/**
 * The learning-rate annealing with patience of the training driver
 * (train.py): after every epoch the validation loss decides whether the
 * network is kept (the pivot and prev checkpoints move on), given another
 * epoch at the same rate (a retry), or rolled back to the pivot checkpoint
 * with a decayed rate; training stops when the rate falls below its floor,
 * and the best checkpoint becomes the final network.
 */
module Schedule {
  import opened Losses
  import Train
  import opened Arith

  /** The checkpoint slots of the workspace: the names '0' and '1', and the automatic name of the best network. */
  datatype Slot = Slot0 | Slot1 | SlotBest

  /** The constants of the schedule. */
  datatype Config = Config(perEpoch: nat, maxRetry: nat, lrInitVal: real, lrDecayRate: real, lrLowerBound: real)

  /** The schedule the driver runs for its options; the epoch quota is TrainedFramesPerEpoch. */
  function ConfigOf(opts: Train.Options): Config
    requires 0 < Train.ChunkSize(opts)
  {
    Config(Train.TrainedFramesPerEpoch(opts), opts.maxRetry, opts.lrInitVal, opts.lrDecayRate, opts.lrLowerBound)
  }

  /**
   * The driver's variables between epochs. The weights are opaque values of
   * type W: `net` is the network's current weights and `workspace` the saved
   * checkpoints by slot.
   */
  datatype Scheduler<W> = Scheduler(
    trainedFrames: nat,
    trainedFramesAtPivot: nat,
    trainedFramesAtBest: nat,
    discardedFrames: nat,
    lossPivot: Loss,
    lossPrev: Loss,
    lossBest: Loss,
    curRetry: nat,
    lr: real,
    namePivot: Slot,
    namePrev: Slot,
    net: W,
    workspace: map<Slot, W>)

  /** How an epoch ended. */
  datatype Decision =
    | Progress  // no regression: pivot <- prev, prev <- current network
    | Retry     // a regression within the patience: train on at the same rate
    | Rollback  // patience exhausted: decay the rate and go back to the pivot
    | Stop      // patience exhausted and the decayed rate is below its floor

  datatype EpochEnd<W> = EpochEnd(state: Scheduler<W>, decision: Decision)

  /**
   * What holds between epochs: the pivot is not ahead of the network; the
   * retry count stays within the patience; no register holds NaN; the best
   * loss is at most the previous and the pivot loss except right after a
   * start or a rollback to zero frames; the two names are '0' and '1' in some
   * order; and every checkpoint that can be loaded has been saved.
   */
  predicate Inv<W>(cfg: Config, st: Scheduler<W>) {
    && st.trainedFramesAtPivot <= st.trainedFrames
    && st.trainedFramesAtBest <= st.trainedFramesAtPivot + cfg.perEpoch
    && st.curRetry <= cfg.maxRetry
    && st.lossPivot != NaN && st.lossPrev != NaN && st.lossBest != NaN
    && (st.trainedFrames != 0 ==> LessEq(st.lossBest, st.lossPrev))
    && (st.trainedFramesAtPivot != 0 ==> LessEq(st.lossBest, st.lossPivot))
    && st.namePivot != SlotBest && st.namePrev != SlotBest && st.namePivot != st.namePrev
    && st.namePrev in st.workspace && SlotBest in st.workspace
    && (st.trainedFrames != 0 ==> st.namePivot in st.workspace)
  }

  /** The learning rate after one decay. */
  function Decayed(cfg: Config, lr: real): real {
    lr * cfg.lrDecayRate
  }

  /**
   * The state before the first epoch: counters and losses zero, the initial
   * rate, pivot named '0' and prev named '1', and the initial network saved
   * as prev and as best (the pivot name is not saved yet).
   */
  function Start<W>(cfg: Config, initial: W): (st: Scheduler<W>)
    ensures Inv(cfg, st)
    ensures st.trainedFrames == 0 && st.discardedFrames == 0 && st.curRetry == 0 && st.lr == cfg.lrInitVal
    ensures st.trainedFramesAtPivot == 0 && st.trainedFramesAtBest == 0
    ensures st.lossPivot == Finite(0.0) && st.lossPrev == Finite(0.0) && st.lossBest == Finite(0.0)
    ensures st.namePivot == Slot0 && st.namePrev == Slot1
    ensures st.net == initial && st.workspace.Keys == {st.namePrev, SlotBest}
    ensures st.workspace[st.namePrev] == initial && st.workspace[SlotBest] == initial
  {
    Scheduler(0, 0, 0, 0, Finite(0.0), Finite(0.0), Finite(0.0), 0, cfg.lrInitVal, Slot0, Slot1, initial,
              map[Slot1 := initial, SlotBest := initial])
  }

  /**
   * The decision after one epoch whose training left the network at
   * `trained` and whose validation loss is `lossEval`.
   */
  function Epoch<W>(cfg: Config, st: Scheduler<W>, trained: W, lossEval: Loss): (r: EpochEnd<W>)
    requires Inv(cfg, st)
    ensures Inv(cfg, r.state)
    // every epoch adds its quota to the trained or to the discarded frames
    ensures r.state.trainedFrames + r.state.discardedFrames == st.trainedFrames + st.discardedFrames + cfg.perEpoch
    // no checkpoint is removed while training goes on
    ensures st.workspace.Keys <= r.state.workspace.Keys
    // the best checkpoint is replaced exactly on an improvement or on the first epoch after zero frames
    ensures if Less(Sanitize(lossEval), st.lossBest) || st.trainedFrames == 0 then
        && r.state.lossBest == Sanitize(lossEval)
        && r.state.trainedFramesAtBest == st.trainedFrames + cfg.perEpoch
        && r.state.workspace[SlotBest] == trained
      else
        && r.state.lossBest == st.lossBest
        && r.state.trainedFramesAtBest == st.trainedFramesAtBest
        && r.state.workspace[SlotBest] == st.workspace[SlotBest]
    ensures st.trainedFrames != 0 ==> LessEq(r.state.lossBest, st.lossBest)
    // a regression is a strictly larger loss than the previous one, after the first epoch
    ensures r.decision == Progress <==> !(Greater(Sanitize(lossEval), st.lossPrev) && st.trainedFrames != 0)
    ensures r.decision == Progress ==>
      && r.state.curRetry == 0 && r.state.lr == st.lr
      && r.state.trainedFrames == st.trainedFrames + cfg.perEpoch
      && r.state.trainedFramesAtPivot == st.trainedFrames
      && r.state.lossPivot == st.lossPrev && r.state.lossPrev == Sanitize(lossEval)
      && r.state.namePivot == st.namePrev && r.state.namePrev == st.namePivot
      && r.state.net == trained && r.state.workspace[r.state.namePrev] == trained
      && r.state.workspace[r.state.namePivot] == st.workspace[st.namePrev]
    // a retry changes nothing but the frames, the network and the retry count
    ensures r.decision == Retry ==>
      r.state == st.(trainedFrames := st.trainedFrames + cfg.perEpoch, net := trained, curRetry := st.curRetry + 1)
    // exhausting the patience decays the rate exactly once and resets the count
    ensures r.decision == Rollback || r.decision == Stop ==>
      && st.curRetry == cfg.maxRetry && r.state.curRetry == 0 && r.state.lr == Decayed(cfg, st.lr)
    ensures r.decision == Stop <==>
      r.decision != Progress && st.curRetry == cfg.maxRetry && Decayed(cfg, st.lr) < cfg.lrLowerBound
    // stopping changes nothing but the frames, the network, the count and the rate
    ensures r.decision == Stop ==>
      r.state == st.(trainedFrames := st.trainedFrames + cfg.perEpoch, net := trained, curRetry := 0,
                     lr := Decayed(cfg, st.lr))
    ensures r.decision == Stop ==> r.state.trainedFramesAtBest <= r.state.trainedFrames
    // a rollback returns to the pivot: its frames, its weights (saved again as prev) and its loss;
    // the pivot itself, the best checkpoint and the names stay as they were
    ensures r.decision == Rollback ==>
      r.state == st.(trainedFrames := st.trainedFramesAtPivot,
                     discardedFrames := st.discardedFrames + (st.trainedFrames + cfg.perEpoch - st.trainedFramesAtPivot),
                     net := st.workspace[st.namePivot],
                     lossPrev := st.lossPivot,
                     curRetry := 0,
                     lr := Decayed(cfg, st.lr),
                     workspace := st.workspace[st.namePrev := st.workspace[st.namePivot]])
  {
    var frames := st.trainedFrames + cfg.perEpoch;
    var cur := Sanitize(lossEval);
    var evaluated := st.(trainedFrames := frames, net := trained);
    var s1 :=
      if Less(cur, st.lossBest) || frames == cfg.perEpoch then
        evaluated.(trainedFramesAtBest := frames, lossBest := cur, workspace := st.workspace[SlotBest := trained])
      else evaluated;
    if Greater(cur, st.lossPrev) && frames > cfg.perEpoch then
      var retry := st.curRetry + 1;
      if retry > cfg.maxRetry then
        var lr := Decayed(cfg, st.lr);
        if lr < cfg.lrLowerBound then
          EpochEnd(s1.(curRetry := 0, lr := lr), Stop)
        else
          var restored := s1.workspace[st.namePivot];
          EpochEnd(s1.(curRetry := 0, lr := lr,
                       discardedFrames := st.discardedFrames + (frames - st.trainedFramesAtPivot),
                       trainedFrames := st.trainedFramesAtPivot,
                       net := restored,
                       lossPrev := st.lossPivot,
                       workspace := s1.workspace[st.namePrev := restored]), Rollback)
      else
        EpochEnd(s1.(curRetry := retry), Retry)
    else
      EpochEnd(s1.(curRetry := 0,
                   trainedFramesAtPivot := frames - cfg.perEpoch,
                   lossPivot := st.lossPrev, lossPrev := cur,
                   namePivot := st.namePrev, namePrev := st.namePivot,
                   workspace := s1.workspace[st.namePivot := trained]), Progress)
  }

  /**
   * The block after the loop: the frames since the best checkpoint are
   * discarded, the best network is loaded, and the pivot and prev checkpoints
   * are removed.
   */
  function RestoreBest<W>(st: Scheduler<W>): (r: Scheduler<W>)
    requires st.trainedFramesAtBest <= st.trainedFrames && SlotBest in st.workspace
    ensures r.trainedFrames == st.trainedFramesAtBest
    ensures r.trainedFrames + r.discardedFrames == st.trainedFrames + st.discardedFrames
    ensures r.net == st.workspace[SlotBest]
    ensures r.workspace == st.workspace - {st.namePivot, st.namePrev}
    // the rate, the losses and the best bookkeeping are left as they were
    ensures r.lr == st.lr && r.curRetry == st.curRetry
    ensures r.lossBest == st.lossBest && r.lossPrev == st.lossPrev && r.lossPivot == st.lossPivot
    ensures r.trainedFramesAtBest == st.trainedFramesAtBest && r.trainedFramesAtPivot == st.trainedFramesAtPivot
  {
    st.(discardedFrames := st.discardedFrames + (st.trainedFrames - st.trainedFramesAtBest),
        trainedFrames := st.trainedFramesAtBest,
        net := st.workspace[SlotBest],
        workspace := st.workspace - {st.namePivot, st.namePrev})
  }

  /** What an epoch hands to the schedule: the network after training, and the validation loss. */
  datatype Report<W> = Report(trained: W, valLoss: Loss)

  /** The state after a run of epochs, how many epochs ran, and whether the schedule stopped. */
  datatype Run<W> = Run(state: Scheduler<W>, epochs: nat, finished: bool)

  /**
   * The schedule over a sequence of epoch reports: epochs run in order until
   * one stops the schedule, after which the best network is restored.
   */
  function Replay<W>(cfg: Config, st: Scheduler<W>, reports: seq<Report<W>>): (r: Run<W>)
    requires Inv(cfg, st)
    ensures r.epochs <= |reports|
    ensures r.state.trainedFrames + r.state.discardedFrames == st.trainedFrames + st.discardedFrames + r.epochs * cfg.perEpoch
    ensures r.finished ==>
      && 0 < r.epochs && r.state.lr < cfg.lrLowerBound
      && r.state.trainedFrames == r.state.trainedFramesAtBest
      && r.state.workspace.Keys == {SlotBest} && r.state.net == r.state.workspace[SlotBest]
    ensures !r.finished ==> r.epochs == |reports| && Inv(cfg, r.state)
    decreases |reports|
  {
    if |reports| == 0 then Run(st, 0, false)
    else
      var e := Epoch(cfg, st, reports[0].trained, reports[0].valLoss);
      if e.decision == Stop then
        var done := RestoreBest(e.state);
        assert done.workspace.Keys == {SlotBest} by { OnlyBestLeft(e.state.namePivot, e.state.namePrev, e.state.workspace.Keys); }
        Run(done, 1, true)
      else
        var rest := Replay(cfg, e.state, reports[1..]);
        MulSucc(rest.epochs, cfg.perEpoch);
        Run(rest.state, rest.epochs + 1, rest.finished)
  }

  /** Removing the two names of the pivot and the prev checkpoint leaves at most the best slot. */
  lemma OnlyBestLeft(pivot: Slot, prev: Slot, keys: set<Slot>)
    requires pivot != SlotBest && prev != SlotBest && pivot != prev && SlotBest in keys
    ensures keys - {pivot, prev} == {SlotBest}
  {
    forall s | s in keys - {pivot, prev} ensures s == SlotBest {
      assert s != pivot && s != prev;
    }
  }

  /** A run shifted by the epochs that came before it. */
  function After<W>(r: Run<W>, epochs: nat): Run<W> {
    r.(epochs := r.epochs + epochs)
  }

  /**
   * The driver's loop over the epochs: each report goes through the epoch
   * decision, and a Stop leaves the loop and restores the best network.
   */
  method Anneal<W>(cfg: Config, initial: W, reports: seq<Report<W>>) returns (r: Run<W>)
    ensures r == Replay(cfg, Start(cfg, initial), reports)
    ensures r.state.trainedFrames + r.state.discardedFrames == r.epochs * cfg.perEpoch
    ensures r.finished ==> r.state.lr < cfg.lrLowerBound && r.state.net == r.state.workspace[SlotBest]
    ensures !r.finished ==> r.epochs == |reports| && Inv(cfg, r.state)
  {
    var st := Start(cfg, initial);
    var i := 0;
    while i < |reports|
      invariant 0 <= i <= |reports| && Inv(cfg, st)
      invariant Replay(cfg, Start(cfg, initial), reports) == After(Replay(cfg, st, reports[i..]), i)
    {
      var e := Epoch(cfg, st, reports[i].trained, reports[i].valLoss);
      ReplayUnfold(cfg, st, reports[i..]);
      if e.decision == Stop {
        return Run(RestoreBest(e.state), i + 1, true);
      }
      assert reports[i..][1..] == reports[i + 1..];
      st := e.state;
      i := i + 1;
    }
    return Run(st, i, false);
  }

  /** One step of the replay: the first report's epoch, then the restore if it stopped, else the rest. */
  lemma ReplayUnfold<W>(cfg: Config, st: Scheduler<W>, reports: seq<Report<W>>)
    requires Inv(cfg, st) && 0 < |reports|
    ensures var e := Epoch(cfg, st, reports[0].trained, reports[0].valLoss);
      e.decision == Stop ==> Replay(cfg, st, reports) == Run(RestoreBest(e.state), 1, true)
    ensures var e := Epoch(cfg, st, reports[0].trained, reports[0].valLoss);
      e.decision != Stop ==> Replay(cfg, st, reports) == After(Replay(cfg, e.state, reports[1..]), 1)
  {
  }

  /** A regression within the patience is a retry, and the replay goes on from the retried state. */
  lemma RetryStep<W>(cfg: Config, st: Scheduler<W>, reports: seq<Report<W>>)
    requires Inv(cfg, st) && st.trainedFrames != 0 && st.curRetry < cfg.maxRetry && 0 < |reports|
    requires Greater(Sanitize(reports[0].valLoss), st.lossPrev)
    ensures var next := st.(trainedFrames := st.trainedFrames + cfg.perEpoch, net := reports[0].trained, curRetry := st.curRetry + 1);
      Inv(cfg, next) && Replay(cfg, st, reports) == After(Replay(cfg, next, reports[1..]), 1)
  {
    var e := Epoch(cfg, st, reports[0].trained, reports[0].valLoss);
    assert e.decision != Progress;
    assert e.decision == Retry;
    var next := st.(trainedFrames := st.trainedFrames + cfg.perEpoch, net := reports[0].trained, curRetry := st.curRetry + 1);
    assert e.state == next;
    ReplayUnfold(cfg, st, reports);
  }

  /**
   * The regression that exhausts the patience decays the rate and either
   * stops the schedule or rolls back to the pivot.
   */
  lemma LastStraw<W>(cfg: Config, st: Scheduler<W>, report: Report<W>)
    requires Inv(cfg, st) && st.trainedFrames != 0 && st.curRetry == cfg.maxRetry
    requires Greater(Sanitize(report.valLoss), st.lossPrev)
    ensures Replay(cfg, st, [report]).epochs == 1
    ensures Replay(cfg, st, [report]).finished <==> Decayed(cfg, st.lr) < cfg.lrLowerBound
    ensures var r := Replay(cfg, st, [report]).state;
      !Replay(cfg, st, [report]).finished ==>
        && r.lr == Decayed(cfg, st.lr) && r.curRetry == 0
        && r.trainedFrames == st.trainedFramesAtPivot
        && r.discardedFrames == st.discardedFrames + (st.trainedFrames + cfg.perEpoch - st.trainedFramesAtPivot)
        && r.lossPrev == st.lossPivot
        && r.net == st.workspace[st.namePivot] && r.workspace[r.namePrev] == r.net
  {
    var e := Epoch(cfg, st, report.trained, report.valLoss);
    assert e.decision == Rollback || e.decision == Stop;
    if e.decision == Rollback {
      ReplayUnfold(cfg, st, [report]);
      assert [report][1..] == [];
    }
  }

  /**
   * Patience: from a state with a retry count of c, max_retry + 1 - c epochs
   * in a row whose loss exceeds the previous loss decay the rate exactly once.
   * Either the schedule stops, or it rolls back to the pivot, discarding every
   * frame trained since the pivot.
   */
  lemma {:induction false} PatienceRunsOut<W>(cfg: Config, st: Scheduler<W>, reports: seq<Report<W>>)
    requires Inv(cfg, st) && st.trainedFrames != 0
    requires |reports| == cfg.maxRetry + 1 - st.curRetry
    requires forall k | 0 <= k < |reports| :: Greater(Sanitize(reports[k].valLoss), st.lossPrev)
    ensures Replay(cfg, st, reports).epochs == |reports|
    ensures Replay(cfg, st, reports).finished <==> Decayed(cfg, st.lr) < cfg.lrLowerBound
    ensures var r := Replay(cfg, st, reports).state;
      !Replay(cfg, st, reports).finished ==>
        && r.lr == Decayed(cfg, st.lr) && r.curRetry == 0
        && r.trainedFrames == st.trainedFramesAtPivot
        && r.discardedFrames == st.discardedFrames + (st.trainedFrames + |reports| * cfg.perEpoch - st.trainedFramesAtPivot)
        && r.lossPrev == st.lossPivot
        && r.net == st.workspace[st.namePivot] && r.workspace[r.namePrev] == r.net
    decreases |reports|
  {
    assert Greater(Sanitize(reports[0].valLoss), st.lossPrev);
    if |reports| == 1 {
      assert reports == [reports[0]];
      LastStraw(cfg, st, reports[0]);
    } else {
      var next := st.(trainedFrames := st.trainedFrames + cfg.perEpoch, net := reports[0].trained, curRetry := st.curRetry + 1);
      RetryStep(cfg, st, reports);
      var rest := reports[1..];
      assert forall k | 0 <= k < |rest| :: Greater(Sanitize(rest[k].valLoss), next.lossPrev) by {
        forall k | 0 <= k < |rest| ensures Greater(Sanitize(rest[k].valLoss), next.lossPrev) {
          assert rest[k] == reports[k + 1];
        }
      }
      PatienceRunsOut(cfg, next, rest);
      var tail := Replay(cfg, next, rest);
      assert Replay(cfg, st, reports) == After(tail, 1);
      MulSucc(|rest|, cfg.perEpoch);
      assert |reports| * cfg.perEpoch == |rest| * cfg.perEpoch + cfg.perEpoch;
      if !tail.finished {
        assert tail.state.discardedFrames
            == st.discardedFrames + (st.trainedFrames + |reports| * cfg.perEpoch - st.trainedFramesAtPivot);
      }
    }
  }

  /**
   * With the driver's options, every epoch of a run adds a whole number of
   * training steps: trained plus discarded frames is a multiple of
   * `step_size * batch_size`, and at most `frames_per_epoch` per epoch.
   */
  lemma {:induction false} FramesAreWholeSteps<W>(opts: Train.Options, initial: W, reports: seq<Report<W>>)
    requires 0 < Train.ChunkSize(opts)
    ensures var r := Replay(ConfigOf(opts), Start(ConfigOf(opts), initial), reports);
      && (r.state.trainedFrames + r.state.discardedFrames) % Train.ChunkSize(opts) == 0
      && r.state.trainedFrames + r.state.discardedFrames <= r.epochs * opts.framesPerEpoch
  {
    var cfg := ConfigOf(opts);
    var r := Replay(cfg, Start(cfg, initial), reports);
    var chunk, quota := Train.ChunkSize(opts), Train.TrainedFramesPerEpoch(opts);
    var q := quota / chunk;
    ModUnique(quota, q, 0, chunk);
    assert r.epochs * quota == (r.epochs * q) * chunk;
    ModUnique(r.epochs * quota, r.epochs * q, 0, chunk);
    MulMonotone(r.epochs, quota, opts.framesPerEpoch);
  }

  /**
   * One epoch under a zero quota, from zero frames: it is a first epoch, so
   * it is progress, replaces the best checkpoint whatever its loss, and
   * leaves the trained frames at zero.
   */
  lemma EmptyQuotaEpoch<W>(cfg: Config, st: Scheduler<W>, trained: W, lossEval: Loss)
    requires Inv(cfg, st) && cfg.perEpoch == 0 && st.trainedFrames == 0
    ensures var e := Epoch(cfg, st, trained, lossEval);
      && e.decision == Progress
      && e.state.trainedFrames == 0 && e.state.curRetry == 0
      && e.state.lossBest == Sanitize(lossEval) && e.state.lossPrev == Sanitize(lossEval)
      && e.state.workspace[SlotBest] == trained
  {
  }

  /**
   * When `frames_per_epoch` is below one training step the quota is zero:
   * the trained frames stay at zero, every epoch counts as a first epoch,
   * nothing regresses, every report is consumed, and after the last epoch the
   * best checkpoint holds that epoch's network and loss.
   */
  lemma {:induction false} EmptyQuotaNeverStops<W>(cfg: Config, st: Scheduler<W>, reports: seq<Report<W>>)
    requires Inv(cfg, st) && cfg.perEpoch == 0 && st.trainedFrames == 0
    ensures !Replay(cfg, st, reports).finished
    ensures Replay(cfg, st, reports).epochs == |reports|
    ensures Replay(cfg, st, reports).state.trainedFrames == 0
    ensures var r := Replay(cfg, st, reports).state;
      0 < |reports| ==>
        && r.curRetry == 0
        && r.lossBest == Sanitize(reports[|reports| - 1].valLoss)
        && r.lossPrev == r.lossBest
        && r.workspace[SlotBest] == reports[|reports| - 1].trained
    decreases |reports|
  {
    if 0 < |reports| {
      var e := Epoch(cfg, st, reports[0].trained, reports[0].valLoss);
      EmptyQuotaEpoch(cfg, st, reports[0].trained, reports[0].valLoss);
      ReplayUnfold(cfg, st, reports);
      var rest := reports[1..];
      EmptyQuotaNeverStops(cfg, e.state, rest);
      if 0 < |rest| {
        assert rest[|rest| - 1] == reports[|reports| - 1];
      }
    }
  }

  /**
   * The best loss does not rise in general: after a rollback to a pivot at
   * zero frames, the next epoch is again a first epoch and replaces the best
   * checkpoint whatever its loss.
   */
  lemma BestCanRiseAfterRollbackToStart()
    ensures var cfg := Config(1, 0, 1.0, 0.5, 0.1);
      var e1 := Epoch(cfg, Start(cfg, 0), 1, Finite(2.0));
      var e2 := Epoch(cfg, e1.state, 2, Finite(3.0));
      var e3 := Epoch(cfg, e2.state, 3, Finite(5.0));
      && e1.decision == Progress && e2.decision == Rollback && e2.state.trainedFrames == 0
      && e2.state.lossBest == Finite(2.0) && e3.state.lossBest == Finite(5.0)
  {
    var cfg := Config(1, 0, 1.0, 0.5, 0.1);
    var e1 := Epoch(cfg, Start(cfg, 0), 1, Finite(2.0));
    assert e1.decision == Progress && e1.state.trainedFrames == 1 && e1.state.trainedFramesAtPivot == 0;
    assert e1.state.lossPrev == Finite(2.0) && e1.state.lossBest == Finite(2.0);
    var e2 := Epoch(cfg, e1.state, 2, Finite(3.0));
    assert e2.decision == Rollback && e2.state.trainedFrames == 0;
  }
}
