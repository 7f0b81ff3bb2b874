/**
 * The training loop of `train.py` as a state machine. One call of
 * `Trainer.Step` is one pass of the `while True` body: map the batch's
 * speaker ids to labels, log the loss, evaluate on the schedule, save the
 * regular checkpoint and, when the test EER improved on the best so far,
 * run the best-pool retention pass and write the best checkpoint.
 *
 * The networks, the evaluation and the batch miner stay outside: the GRU
 * loss, both evaluations and the batch's speaker ids are inputs. Folders
 * are sequences of file names; logs are sequences of records.
 */
module Training {
  import opened Wrappers
  import opened Text
  import opened Collections
  import opened Speakers
  import opened Checkpoints

  /** `lasteer = 10` in units of 10^-5. */
  const InitialLastEer: nat := 1000000
  /** `eer = 1` in units of 10^-5. */
  const InitialEer: nat := 100000
  /** Training-data evaluation runs every ten steps. */
  const TrainEvalPeriod: nat := 10

  /** The part of `eval_model`'s result the loop uses; the EER in units of 10^-5. */
  datatype Evaluation = Evaluation(eer: nat, fm: real, acc: real)

  /** One line `step,eer,fm,acc` of an evaluation log. */
  datatype EvalRecord = EvalRecord(step: int, eer: nat, fm: real, acc: real)

  function Record(step: int, e: Evaluation): EvalRecord {
    EvalRecord(step, e.eer, e.fm, e.acc)
  }

  /**
   * `grad_steps` at start-up: 0 without a checkpoint, otherwise the step
   * parsed from the checkpoint's name, which can fail.
   */
  function StartStep(last: Option<string>): Result<int, ResumeError> {
    if last.None? then Ok(0) else ResumeStep(last.value)
  }

  /** Resuming from a regular checkpoint written at `step` starts again at `step`. */
  lemma ResumeFromSaved(folder: string, step: int)
    ensures StartStep(Some(ModelCheckpointName(folder, step, FixedPoint5(0)))) == Ok(step)
  {
    FixedPoint5NoUnderscore(0);
    ResumeRoundTrip(folder, step, FixedPoint5(0));
  }

  /**
   * The best folder after an improving save at `step` with metric `eer`:
   * per network one retention pass, ranked as written by the key
   * `split('.')[-2]` (see `KeyRanksEerOneLast` for what that key does to
   * metrics of 1.0 and above), then one new `.h5` file.
   */
  function BestPoolAfter(pool: seq<string>, step: int, eer: nat, combineModel: bool): seq<string> {
    var one := AfterBestSave(pool, BestName(BestModelPrefix, step, eer));
    if combineModel then AfterBestSave(one, BestName(BestGruModelPrefix, step, eer)) else one
  }

  /** The last best checkpoint an improving save writes. */
  function LastBest(step: int, eer: nat, combineModel: bool): string {
    BestName(if combineModel then BestGruModelPrefix else BestModelPrefix, step, eer)
  }

  /**
   * An improving save leaves at most five `.h5` files in the best folder,
   * the last one it wrote among them; every other file was there before or
   * was written by this save, and files other than `.h5` are never removed.
   */
  lemma BestPoolAfterBounded(pool: seq<string>, step: int, eer: nat, combineModel: bool)
    requires Distinct(pool)
    ensures var after := BestPoolAfter(pool, step, eer, combineModel);
      && Distinct(after)
      && |H5Files(after)| <= 5
      && LastBest(step, eer, combineModel) in after
      && (forall f :: f in after ==>
            f in pool || f == BestName(BestModelPrefix, step, eer) || f == BestName(BestGruModelPrefix, step, eer))
      && (forall f :: f in pool && !IsH5(f) ==> f in after)
  {
    var one := AfterBestSave(pool, BestName(BestModelPrefix, step, eer));
    PoolAtMostFive(pool, BestName(BestModelPrefix, step, eer));
    PruneKeepsFour(pool);
    if combineModel {
      PoolAtMostFive(one, BestName(BestGruModelPrefix, step, eer));
      PruneKeepsFour(one);
    }
  }

  /** The settings the loop runs with: `c.TEST_PER_EPOCHS`, `c.SAVE_PER_EPOCHS`, `c.COMBINE_MODEL`, the folders, the label map. */
  datatype Config = Config(
    testPerEpochs: nat,
    savePerEpochs: nat,
    combineModel: bool,
    checkpointFolder: string,
    gruCheckpointFolder: string,
    spkIndex: map<SpeakerId, nat>)

  /** Python's `%` by zero raises; the loop needs both periods positive. */
  predicate ConfigOk(c: Config) {
    c.testPerEpochs > 0 && c.savePerEpochs > 0
  }

  /**
   * Everything one pass of the loop reads and writes. The three appended
   * logs hold the lines this run appends. Each folder holds names as the
   * code that reads it sees them: the regular and GRU checkpoints as the
   * paths `save_weights` is given (`{folder}/...`, the form
   * `int(name.split('_')[-2])` parses on resume), the best folder as the
   * base names `os.listdir` returns, which its retention pass ranks.
   */
  datatype TrainState = TrainState(
    gradSteps: int,
    lastEer: nat,                      // `lasteer`, the best test EER so far
    eer: nat,                          // the latest test EER
    lossLog: seq<(int, int)>,          // LOSS_LOG; the loss is hard-coded to 0
    gruLossLog: seq<(int, nat)>,       // losses_gru.txt
    trainLog: seq<EvalRecord>,         // train_acc_eer.txt, inside the regular checkpoint folder
    testLog: seq<EvalRecord>,          // TEST_LOG
    checkpoint: Option<string>,        // the regular checkpoint folder, cleared before each save
    gruCheckpoints: seq<string>,       // the GRU checkpoint folder, never cleared
    bestPool: seq<string>)             // the best folder's file names, in listing order

  /**
   * The state `main` enters the loop with after resuming from `last`, the
   * regular checkpoint found in the checkpoint folder (if any): the step
   * parsed from its name, the checkpoint still in its folder, and the lines
   * an earlier run left in train_acc_eer.txt beside it.
   */
  function InitialState(last: Option<string>, trainLog: seq<EvalRecord>, bestPool: seq<string>, gruCheckpoints: seq<string>): TrainState
    requires StartStep(last).Ok?
  {
    TrainState(StartStep(last).value, InitialLastEer, InitialEer, [], [], trainLog, [], last, gruCheckpoints, bestPool)
  }

  /** SAVE_PER_EPOCHS divides the step: the loop saves a regular checkpoint there. */
  predicate SaveStep(c: Config, g: int) {
    c.savePerEpochs > 0 && g % c.savePerEpochs == 0
  }

  /**
   * What the loop keeps true: `lasteer` never above its start value, the
   * folders free of duplicates, and the regular checkpoint the latest one:
   * it resumes at a step no later than the current one, and no save step
   * lies between the two.
   */
  predicate StateOk(c: Config, s: TrainState) {
    && s.lastEer <= InitialLastEer
    && Distinct(s.bestPool) && Distinct(s.gruCheckpoints)
    && (s.checkpoint.Some? ==>
          var r := StartStep(s.checkpoint);
          && r.Ok? && r.value <= s.gradSteps
          && forall k :: r.value < k < s.gradSteps ==> !SaveStep(c, k))
  }

  /**
   * One pass of the loop body once the batch's labels are found: log the
   * loss, evaluate on schedule, save on schedule, and on a save whose EER
   * beats `lasteer` run retention and write the best checkpoint(s). A save
   * empties the regular checkpoint folder first, and with it
   * train_acc_eer.txt.
   */
  function Next(c: Config, s: TrainState, gruLoss: nat, trainEval: Evaluation, testEval: Evaluation): TrainState
    requires ConfigOk(c)
  {
    var g := s.gradSteps;
    var tested := g % c.testPerEpochs == 0;
    var saved := g % c.savePerEpochs == 0;
    var eer := if tested then testEval.eer else s.eer;
    var improved := saved && eer < s.lastEer;
    TrainState(
      g + 1,
      if improved then eer else s.lastEer,
      eer,
      s.lossLog + [(g, 0)],
      s.gruLossLog + (if c.combineModel then [(g, gruLoss)] else []),
      if saved then [] else s.trainLog + (if g % TrainEvalPeriod == 0 then [Record(g, trainEval)] else []),
      s.testLog + (if tested then [Record(g, testEval)] else []),
      if saved then Some(ModelCheckpointName(c.checkpointFolder, g, FixedPoint5(0))) else s.checkpoint,
      if saved && c.combineModel
        then AddFile(s.gruCheckpoints, GruCheckpointName(c.gruCheckpointFolder, g, gruLoss))
        else s.gruCheckpoints,
      if improved then BestPoolAfter(s.bestPool, g, eer, c.combineModel) else s.bestPool)
  }

  /**
   * The start state, fresh or resumed, satisfies the loop's invariant and
   * resumes again at the step it starts from.
   */
  lemma InitialStateOk(c: Config, last: Option<string>, trainLog: seq<EvalRecord>, bestPool: seq<string>, gruCheckpoints: seq<string>)
    requires StartStep(last).Ok?
    requires Distinct(bestPool) && Distinct(gruCheckpoints)
    ensures var s := InitialState(last, trainLog, bestPool, gruCheckpoints);
      && StateOk(c, s)
      && (s.checkpoint.Some? ==> StartStep(s.checkpoint) == Ok(s.gradSteps))
      && (last.None? ==> s.gradSteps == 0)
      && s.lastEer == 10 * s.eer
  {
  }

  /** Every pass keeps the loop's invariant. */
  lemma NextStateOk(c: Config, s: TrainState, gruLoss: nat, trainEval: Evaluation, testEval: Evaluation)
    requires ConfigOk(c) && StateOk(c, s)
    ensures StateOk(c, Next(c, s, gruLoss, trainEval, testEval))
  {
    var g := s.gradSteps;
    var t := Next(c, s, gruLoss, trainEval, testEval);
    if g % c.savePerEpochs == 0 {
      ResumeFromSaved(c.checkpointFolder, g);
      var eer := if g % c.testPerEpochs == 0 then testEval.eer else s.eer;
      if eer < s.lastEer {
        BestPoolAfterBounded(s.bestPool, g, eer, c.combineModel);
      }
    } else if s.checkpoint.Some? {
      // No save at `g`: the checkpoint stays, and `g` joins the steps it has outlived.
      var r := StartStep(s.checkpoint).value;
      assert t.checkpoint == s.checkpoint && t.gradSteps == g + 1;
      assert !SaveStep(c, g);
      forall k | r < k < g + 1 ensures !SaveStep(c, k) {
      }
    }
  }

  /**
   * Each pass advances the step counter by one and logs one loss line, and
   * `lasteer` never increases.
   */
  lemma NextAdvances(c: Config, s: TrainState, gruLoss: nat, trainEval: Evaluation, testEval: Evaluation)
    requires ConfigOk(c)
    ensures var t := Next(c, s, gruLoss, trainEval, testEval);
      && t.gradSteps == s.gradSteps + 1
      && |t.lossLog| == |s.lossLog| + 1 && t.lossLog[..|s.lossLog|] == s.lossLog
      && t.lossLog[|s.lossLog|] == (s.gradSteps, 0)
      && t.lastEer <= s.lastEer
  {
    var t := Next(c, s, gruLoss, trainEval, testEval);
    assert t.lossLog[..|s.lossLog|] == s.lossLog;
  }

  /**
   * The schedule: off save steps a training-data evaluation line is kept
   * exactly when the step is a multiple of ten; a save step empties that
   * log with the rest of the regular checkpoint folder; a test evaluation
   * (the only place `eer` changes) happens exactly when the step is a
   * multiple of TEST_PER_EPOCHS, a regular checkpoint exactly when it is a
   * multiple of SAVE_PER_EPOCHS.
   */
  lemma NextSchedule(c: Config, s: TrainState, gruLoss: nat, trainEval: Evaluation, testEval: Evaluation)
    requires ConfigOk(c)
    ensures var t, g := Next(c, s, gruLoss, trainEval, testEval), s.gradSteps;
      && (g % c.savePerEpochs != 0 ==> (|t.trainLog| == |s.trainLog| + 1 <==> g % 10 == 0))
      && (g % c.savePerEpochs == 0 ==> t.trainLog == [])
      && (|t.testLog| == |s.testLog| + 1 <==> g % c.testPerEpochs == 0)
      && (t.eer != s.eer ==> g % c.testPerEpochs == 0)
      && (t.checkpoint != s.checkpoint ==> g % c.savePerEpochs == 0)
      && (g % c.savePerEpochs == 0 ==> StartStep(t.checkpoint) == Ok(g))
  {
    if s.gradSteps % c.savePerEpochs == 0 {
      ResumeFromSaved(c.checkpointFolder, s.gradSteps);
    }
  }

  /**
   * The best folder changes only on a save whose EER beats `lasteer`;
   * `lasteer` drops exactly then, to that EER, and the folder is left with
   * at most five `.h5` files, the new best checkpoint among them.
   */
  lemma NextBestSave(c: Config, s: TrainState, gruLoss: nat, trainEval: Evaluation, testEval: Evaluation)
    requires ConfigOk(c) && StateOk(c, s)
    ensures var t, g := Next(c, s, gruLoss, trainEval, testEval), s.gradSteps;
      var improved := g % c.savePerEpochs == 0 && t.eer < s.lastEer;
      && (t.lastEer < s.lastEer <==> improved)
      && (improved ==> t.lastEer == t.eer)
      && (t.bestPool != s.bestPool ==> improved)
      && (improved ==> |H5Files(t.bestPool)| <= 5 && LastBest(g, t.eer, c.combineModel) in t.bestPool)
  {
    var t := Next(c, s, gruLoss, trainEval, testEval);
    if s.gradSteps % c.savePerEpochs == 0 && t.eer < s.lastEer {
      BestPoolAfterBounded(s.bestPool, s.gradSteps, t.eer, c.combineModel);
    }
  }

  /** The inputs of one pass. */
  datatype StepInput = StepInput(gruLoss: nat, trainEval: Evaluation, testEval: Evaluation)

  /** The state after a sequence of passes. */
  function Run(c: Config, s: TrainState, inputs: seq<StepInput>): TrainState
    requires ConfigOk(c)
    decreases |inputs|
  {
    if |inputs| == 0 then s
    else
      var i := inputs[0];
      Run(c, Next(c, s, i.gruLoss, i.trainEval, i.testEval), inputs[1..])
  }

  /**
   * Over any run the invariant holds throughout, the counter advances by
   * the number of passes, the loss log grows by one line per pass, and
   * `lasteer` never increases.
   */
  lemma {:induction false} RunInvariant(c: Config, s: TrainState, inputs: seq<StepInput>)
    requires ConfigOk(c) && StateOk(c, s)
    ensures var t := Run(c, s, inputs);
      && StateOk(c, t)
      && t.gradSteps == s.gradSteps + |inputs|
      && |t.lossLog| == |s.lossLog| + |inputs|
      && t.lastEer <= s.lastEer
    decreases |inputs|
  {
    if |inputs| > 0 {
      var i := inputs[0];
      NextStateOk(c, s, i.gruLoss, i.trainEval, i.testEval);
      NextAdvances(c, s, i.gruLoss, i.trainEval, i.testEval);
      RunInvariant(c, Next(c, s, i.gruLoss, i.trainEval, i.testEval), inputs[1..]);
    }
  }

  class Trainer {
    const config: Config

    var gradSteps: int
    var lastEer: nat
    var eer: nat
    var lossLog: seq<(int, int)>
    var gruLossLog: seq<(int, nat)>
    var trainLog: seq<EvalRecord>
    var testLog: seq<EvalRecord>
    var checkpoint: Option<string>
    var gruCheckpoints: seq<string>
    var bestPool: seq<string>

    /** The loop's variables as one value. */
    function State(): TrainState
      reads this
    {
      TrainState(gradSteps, lastEer, eer, lossLog, gruLossLog, trainLog, testLog, checkpoint, gruCheckpoints, bestPool)
    }

    ghost predicate Valid()
      reads this
    {
      ConfigOk(config) && StateOk(config, State())
    }

    /**
     * The state `main` enters the loop with, resumed from `last` (a name
     * whose step does not parse makes `main` raise before the loop; see
     * `StartStep`).
     */
    constructor (config: Config, last: Option<string>, trainLog: seq<EvalRecord>, bestPool: seq<string>, gruCheckpoints: seq<string>)
      requires ConfigOk(config)
      requires StartStep(last).Ok?
      requires Distinct(bestPool) && Distinct(gruCheckpoints)
      ensures Valid()
      ensures this.config == config
      ensures State() == InitialState(last, trainLog, bestPool, gruCheckpoints)
    {
      this.config := config;
      gradSteps := StartStep(last).value;
      lastEer := InitialLastEer;
      eer := InitialEer;
      lossLog, gruLossLog, testLog := [], [], [];
      this.trainLog := trainLog;
      checkpoint := last;
      this.bestPool := bestPool;
      this.gruCheckpoints := gruCheckpoints;
      new;
      InitialStateOk(config, last, trainLog, bestPool, gruCheckpoints);
    }

    /**
     * One retention pass over the best folder (`os.remove` of every `.h5`
     * file but the last four of the key ranking) followed by writing `name`.
     */
    method SaveBest(name: string)
      modifies this`bestPool
      ensures bestPool == AfterBestSave(old(bestPool), name)
    {
      RemoveAll(Victims(bestPool));
      bestPool := AddFile(bestPool, name);
    }

    /** `for file in files: os.remove(file)` on the best folder. */
    method RemoveAll(victims: seq<string>)
      modifies this`bestPool
      ensures bestPool == Without(old(bestPool), victims)
    {
      ghost var pool0 := bestPool;
      for i := 0 to |victims|
        invariant bestPool == Without(pool0, victims[..i])
      {
        WithoutPrefixStep(pool0, victims, i);
        bestPool := Without(bestPool, [victims[i]]);
      }
      assert victims[..|victims|] == victims;
    }

    /** The loss lines of step `g`. */
    method LogLosses(g: int, gruLoss: nat)
      modifies this`lossLog, this`gruLossLog
      ensures lossLog == old(lossLog) + [(g, 0)]
      ensures gruLossLog == old(gruLossLog) + (if config.combineModel then [(g, gruLoss)] else [])
    {
      if config.combineModel {
        gruLossLog := gruLossLog + [(g, gruLoss)];
      }
      lossLog := lossLog + [(g, 0)];
    }

    /** The two evaluations of step `g`, each on its own schedule. */
    method Evaluate(g: int, trainEval: Evaluation, testEval: Evaluation)
      requires ConfigOk(config)
      modifies this`trainLog, this`testLog, this`eer
      ensures trainLog == old(trainLog) + (if g % TrainEvalPeriod == 0 then [Record(g, trainEval)] else [])
      ensures eer == (if g % config.testPerEpochs == 0 then testEval.eer else old(eer))
      ensures testLog == old(testLog) + (if g % config.testPerEpochs == 0 then [Record(g, testEval)] else [])
    {
      if g % TrainEvalPeriod == 0 {
        trainLog := trainLog + [Record(g, trainEval)];
      }
      if g % config.testPerEpochs == 0 {
        eer := testEval.eer;
        testLog := testLog + [Record(g, testEval)];
      }
    }

    /**
     * The save branch of step `g`, taken when `g` is a multiple of
     * SAVE_PER_EPOCHS: emptying the regular checkpoint folder also drops
     * train_acc_eer.txt.
     */
    method Save(g: int, gruLoss: nat)
      requires ConfigOk(config)
      modifies this`checkpoint, this`trainLog, this`gruCheckpoints, this`lastEer, this`bestPool
      ensures var saved := g % config.savePerEpochs == 0;
        && checkpoint == (if saved then Some(ModelCheckpointName(config.checkpointFolder, g, FixedPoint5(0))) else old(checkpoint))
        && trainLog == (if saved then [] else old(trainLog))
        && gruCheckpoints == (if saved && config.combineModel
                              then AddFile(old(gruCheckpoints), GruCheckpointName(config.gruCheckpointFolder, g, gruLoss))
                              else old(gruCheckpoints))
      ensures var improved := g % config.savePerEpochs == 0 && eer < old(lastEer);
        && lastEer == (if improved then eer else old(lastEer))
        && bestPool == (if improved then BestPoolAfter(old(bestPool), g, eer, config.combineModel) else old(bestPool))
    {
      if g % config.savePerEpochs == 0 {
        trainLog := [];
        checkpoint := Some(ModelCheckpointName(config.checkpointFolder, g, FixedPoint5(0)));
        if config.combineModel {
          gruCheckpoints := AddFile(gruCheckpoints, GruCheckpointName(config.gruCheckpointFolder, g, gruLoss));
        }
        if eer < lastEer {
          lastEer := eer;
          SaveBest(BestName(BestModelPrefix, g, eer));
          if config.combineModel {
            lastEer := eer;
            SaveBest(BestName(BestGruModelPrefix, g, eer));
          }
        }
      }
    }

    /**
     * One pass of the loop body. A batch id missing from the label map
     * raises KeyError before anything changes; otherwise the variables move
     * to `Next` of their old values.
     */
    method Step(batch: seq<SpeakerId>, gruLoss: nat, trainEval: Evaluation, testEval: Evaluation)
      returns (r: Result<seq<nat>, DictError>)
      requires Valid()
      modifies this
      ensures Valid()
      ensures r == LabelBatch(config.spkIndex, batch)
      ensures r.Err? ==> unchanged(this)
      ensures r.Ok? ==> State() == Next(config, old(State()), gruLoss, trainEval, testEval)
    {
      r := LabelBatch(config.spkIndex, batch);
      if r.Err? {
        return;
      }
      ghost var s0 := State();
      var g := gradSteps;
      LogLosses(g, gruLoss);
      assert eer == s0.eer && lastEer == s0.lastEer && bestPool == s0.bestPool;
      Evaluate(g, trainEval, testEval);
      assert lastEer == s0.lastEer && bestPool == s0.bestPool;
      Save(g, gruLoss);
      gradSteps := g + 1;
      assert State() == Next(config, s0, gruLoss, trainEval, testEval);
      NextStateOk(config, s0, gruLoss, trainEval, testEval);
      assert StateOk(config, State());
    }
  }
}
