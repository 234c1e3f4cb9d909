/**
 * Epoch accounting of the training driver (train.py): the frame quota of an
 * epoch and the loop that runs one epoch over a DataIter.
 */
module Train {
  import opened Wrappers
  import opened Losses
  import opened Data
  import opened Arith

  /** The options the driver uses. */
  datatype Options = Options(
    batchSize: nat,
    windowSize: nat,
    stepSize: nat,
    framesPerEpoch: nat,
    lrInitVal: real,
    lrLowerBound: real,
    lrDecayRate: real,
    maxRetry: nat)

  /** Frames one training step consumes: `step_size * batch_size`. */
  function ChunkSize(opts: Options): nat {
    opts.stepSize * opts.batchSize
  }

  /**
   * The frame quota of an epoch: `frames_per_epoch` rounded down to a whole
   * number of training steps.
   */
  function TrainedFramesPerEpoch(opts: Options): (r: nat)
    requires 0 < ChunkSize(opts)
    ensures r % ChunkSize(opts) == 0
    ensures r <= opts.framesPerEpoch
    ensures opts.framesPerEpoch - ChunkSize(opts) < r
  {
    var chunk := ChunkSize(opts);
    var q := opts.framesPerEpoch / chunk;
    ModUnique(q * chunk, q, 0, chunk);
    q * chunk
  }

  /**
   * The number of iterations of an epoch loop that adds `framesPerStep`
   * frames per iteration and stops at the first iteration that reaches the
   * quota: the least positive k with `quota <= k * framesPerStep`.
   */
  function EpochSteps(quota: nat, framesPerStep: nat): (k: nat)
    requires 0 < framesPerStep
    ensures 1 <= k && quota <= k * framesPerStep
    ensures k == 1 || (k - 1) * framesPerStep < quota
    decreases quota
  {
    if quota <= framesPerStep then 1
    else
      var k' := EpochSteps(quota - framesPerStep, framesPerStep);
      assert (k' + 1) * framesPerStep == k' * framesPerStep + framesPerStep;
      k' + 1
  }

  /** EpochSteps is the only count with its two properties. */
  lemma {:induction false} EpochStepsIs(quota: nat, framesPerStep: nat, k: nat)
    requires 0 < framesPerStep && 1 <= k && quota <= k * framesPerStep
    requires k == 1 || (k - 1) * framesPerStep < quota
    ensures EpochSteps(quota, framesPerStep) == k
    decreases k
  {
    if k > 1 {
      MulSucc(k - 1, framesPerStep);
      MulSucc(k - 2, framesPerStep);
      EpochStepsIs(quota - framesPerStep, framesPerStep, k - 1);
    }
  }


  /** A training epoch ends exactly on its quota: the quota is a whole number of training steps. */
  lemma TrainingEpochExact(opts: Options)
    requires 0 < ChunkSize(opts) && 0 < TrainedFramesPerEpoch(opts)
    ensures EpochSteps(TrainedFramesPerEpoch(opts), ChunkSize(opts)) * ChunkSize(opts) == TrainedFramesPerEpoch(opts)
  {
    var chunk, quota := ChunkSize(opts), TrainedFramesPerEpoch(opts);
    StepsOfMultiple(quota / chunk, chunk);
    assert quota == (quota / chunk) * chunk;
  }

  lemma {:induction false} StepsOfMultiple(m: nat, f: nat)
    requires 0 < m && 0 < f
    ensures EpochSteps(m * f, f) == m
    decreases m
  {
    if m > 1 {
      assert m * f == (m - 1) * f + f;
      StepsOfMultiple(m - 1, f);
      MulAtLeast(m - 1, f);
    }
  }

  /** The sum of the losses of the first k steps, added in order. */
  function SumLoss(stepLoss: nat -> Loss, k: nat): (r: Loss)
    ensures r == NaN <==> exists i | 0 <= i < k :: stepLoss(i) == NaN
    ensures (forall i | 0 <= i < k :: stepLoss(i).Finite?) ==> r.Finite?
  {
    if k == 0 then Finite(0.0) else Add(SumLoss(stepLoss, k - 1), stepLoss(k - 1))
  }

  /** The step size of an epoch: the training step with a learning rate, the whole window without. */
  function StepSizeFor(opts: Options, lrCur: Option<real>): (s: nat)
    ensures lrCur.None? || opts.stepSize <= opts.windowSize ==> s <= opts.windowSize
    ensures lrCur.Some? ==> s == opts.stepSize
    ensures lrCur.None? ==> s == opts.windowSize
  {
    if lrCur.Some? then opts.stepSize else opts.windowSize
  }

  /**
   * One pass of the epoch loop over the iterator, with what the epoch's
   * accounting needs of it: after `read` more symbols per slot in all, the
   * filled part of the window and the cursors have moved by one more step.
   */
  method Pull(iter: DataIter, ghost filled0: nat, ghost idx0: seq<int>, ghost read: int)
    returns (input: array2<int>, target: array2<int>)
    requires iter.Valid() && 1 <= iter.stepSize && iter.stepSize + 1 <= iter.batcher.n
    requires iter.filled == Min(filled0 + read, iter.windowSize)
    requires Advanced(idx0, iter.batcher.idx, read, iter.batcher.n)
    modifies iter, iter.input, iter.target, iter.batcher
    ensures iter.Valid() && iter.stepSize == old(iter.stepSize)
    ensures input == iter.input && target == iter.target
    ensures iter.filled == Min(filled0 + read + iter.stepSize, iter.windowSize)
    ensures Advanced(idx0, iter.batcher.idx, read + iter.stepSize, iter.batcher.n)
  {
    ghost var before := iter.batcher.idx;
    input, target := iter.Next();
    AdvancedTwice(idx0, before, iter.batcher.idx, read, iter.stepSize, iter.batcher.n);
  }

  /**
   * One epoch over `iter`: training when a learning rate is given, inference
   * otherwise. The loss of the i-th step comes from the network, which is not
   * modelled, and is given as `stepLoss(i)`. The loop stops at the first
   * iteration whose frame count reaches the quota; the mean loss per frame is
   * returned.
   */
  method RunEpoch(opts: Options, quota: nat, iter: DataIter, lrCur: Option<real>, stepLoss: nat -> Loss)
    returns (loss: Loss, steps: nat)
    requires iter.Valid() && iter.windowSize == opts.windowSize && iter.batcher.batchSize == opts.batchSize
    requires 1 <= opts.stepSize <= opts.windowSize && 1 <= opts.batchSize && opts.windowSize + 1 <= iter.batcher.n
    modifies iter, iter.input, iter.target, iter.batcher
    ensures iter.Valid()
    ensures iter.stepSize == StepSizeFor(opts, lrCur)
    ensures steps == EpochSteps(quota, iter.stepSize * opts.batchSize)
    ensures loss == Mean(SumLoss(stepLoss, steps), steps * (iter.stepSize * opts.batchSize))
    ensures iter.filled == Min(old(iter.filled) + steps * iter.stepSize, iter.windowSize)
    ensures Advanced(old(iter.batcher.idx), iter.batcher.idx, steps * iter.stepSize, iter.batcher.n)
  {
    var s := StepSizeFor(opts, lrCur);
    var framesPerStep := s * opts.batchSize;
    var ok := iter.SetStepSize(s);
    assert ok;
    var lossSum := Finite(0.0);
    var framesSeen := 0;
    steps := 0;
    ghost var read := 0;
    AdvancedByZero(iter.batcher.idx, iter.batcher.n);
    while true
      invariant iter.Valid() && iter.stepSize == s
      invariant framesSeen == steps * framesPerStep && read == steps * s
      invariant steps == 0 || framesSeen < quota
      invariant lossSum == SumLoss(stepLoss, steps)
      invariant iter.filled == Min(old(iter.filled) + read, iter.windowSize)
      invariant Advanced(old(iter.batcher.idx), iter.batcher.idx, read, iter.batcher.n)
      decreases quota - framesSeen
    {
      var input, target := Pull(iter, old(iter.filled), old(iter.batcher.idx), read);
      lossSum := Add(lossSum, stepLoss(steps));
      framesSeen := framesSeen + framesPerStep;
      read := read + s;
      MulSucc(steps, s);
      MulSucc(steps, framesPerStep);
      steps := steps + 1;
      if framesSeen >= quota {
        break;
      }
    }
    EpochStepsIs(quota, framesPerStep, steps);
    loss := Mean(lossSum, framesSeen);
  }
}
