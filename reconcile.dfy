/**
 * `custom_vision_prediction`: reconcile the training service's view of the
 * last iteration with the local model record. The collaborators' replies are
 * inputs (`World`); the writes are commands issued through a `Session`.
 *
 * `Planned` is the run when every write takes effect; `Run` cuts it at the
 * write that raises. The method `CustomVisionPrediction` is proved to issue
 * exactly `Run`'s writes and to end as `Run` says.
 */
module Reconcile {
  import opened Records
  import opened Labels
  import opened LabelMetrics
  import opened Effects

  /** The collaborators' replies for one request; None where the call fails or its reply cannot be read. */
  datatype World = World(
    connects: bool,                      // pyodbc.connect
    cvProject: Option<string>,           // GetModel_SEL, column 6
    iterations: Option<seq<Iteration>>,  // get_iterations
    status: Option<StatusRecord>,        // get_train_status of the last iteration
    performance: Option<Performance>,    // get_iteration_performance
    labelRows: Option<seq<Row>>)         // GetAllLabel_SEL

  /** The arguments of `custom_vision_prediction` that are not handles. */
  datatype Job = Job(
    cvModel: string, publishName: string, predictionResource: string,
    model: string, project: string, userId: int, lob: string)

  /** How the call ends: it returns a dict (or None, falling off its if-chain), or it raises. */
  datatype End = Returned(outcome: Option<Outcome>) | Raised

  /** The writes in order, and how the call ends. */
  datatype Plan = Plan(cmds: seq<Command>, end: End)

  const TRAINING := "Training"
  const FAILED := "Failed"
  const COMPLETED := "Completed"
  const TRAINED := "trained"
  const NO_ITERATIONS_MESSAGE := "There are not iteration training"
  const TRAINING_FAILED_MESSAGE := "Trainning failed"

  /** `update_model(cursor, lob, project, model, cv_model, status, user_id, 0)` */
  function ModelUpdate(job: Job, status: string): Command {
    UpdateModel(job.lob, job.project, job.model, job.cvModel, status, job.userId, 0)
  }

  function NoIterationsOutcome(model: string): Outcome {
    Outcome(ModelInfo(model, "Error", NoStamp, NoStamp), Errors([ErrorEntry("0", NO_ITERATIONS_MESSAGE)]))
  }

  function PublishStep(job: Job, iterationId: string, publishName: Option<string>): seq<Command> {
    if publishName.None? then [Publish(job.cvModel, iterationId, job.publishName, job.predictionResource, true)]
    else []
  }

  /** The `Completed` branch: publish if unpublished, fan the metrics out, mark the model trained. */
  function CompletedPlan(w: World, job: Job, info: ModelInfo, iterationId: string, publishName: Option<string>): Plan {
    var publish := PublishStep(job, iterationId, publishName);
    match w.performance
    case None => Plan(publish, Raised)
    case Some(perf) =>
      var results := TagResults(perf.perTag);
      match w.labelRows
      case None => Plan(publish, Raised)
      case Some(rows) =>
        match LabelsOf(rows)
        case None => Plan(publish, Raised)
        case Some(labels) =>
          var updates := FanOut(results, labels, job.userId);
          if !updates.completed then Plan(publish + updates.cmds, Raised)
          else
            match perf.aggregate
            case None => Plan(publish + updates.cmds, Raised)
            case Some(agg) =>
              Plan(publish + updates.cmds + [ModelUpdate(job, TRAINED)],
                   Returned(Some(Outcome(info, Metrics(agg.precision, agg.recall, agg.averagePrecision, results, [])))))
  }

  /** The run when every write takes effect. */
  function Planned(w: World, job: Job): Plan {
    match w.iterations
    case None => Plan([], Raised)
    case Some(iterations) =>
      if iterations == [] then Plan([], Returned(Some(NoIterationsOutcome(job.model))))
      else
        match w.status
        case None => Plan([], Raised)
        case Some(result) =>
          var info := ModelInfo(job.model, result.status, At(result.created), At(result.lastModified));
          if result.status == TRAINING then
            Plan([ModelUpdate(job, result.status)], Returned(Some(Outcome(info, Errors([])))))
          else if result.status == FAILED then
            Plan([ModelUpdate(job, result.status)],
                 Returned(Some(Outcome(info, Errors([ErrorEntry("0", TRAINING_FAILED_MESSAGE)])))))
          else if result.status == COMPLETED then
            CompletedPlan(w, job, info, iterations[|iterations| - 1].id, result.publishName)
          else
            Plan([], Returned(None))
  }

  /** The run when the write at position `failAt` raises: the writes before it stay, and the call raises. */
  function Run(w: World, job: Job, failAt: Option<nat>): Plan {
    Cut(Planned(w, job), failAt)
  }

  /** A plan whose write at position `failAt` raises. */
  function Cut(plan: Plan, failAt: Option<nat>): Plan {
    if failAt.Some? && failAt.value < |plan.cmds| then Plan(plan.cmds[..failAt.value], Raised)
    else plan
  }

  /**
   * Issuing the writes of trace `t` after the log `start`, when the write at
   * position `f` raises: if `f` falls among them, the ones before it stay and
   * the run fails; otherwise all of them stay, the run ends as `t` does, and
   * no write has raised.
   */
  predicate Delivered(start: seq<Command>, t: Trace, f: Option<nat>, log: seq<Command>, ok: bool) {
    if f.Some? && |start| <= f.value < |start| + |t.cmds| then
      !ok && log == start + t.cmds[..f.value - |start|]
    else
      ok == t.completed && log == start + t.cmds && (f.None? || f.value >= |log|)
  }

  lemma PrefixSlice(a: seq<Command>, b: seq<Command>, c: seq<Command>, k: nat)
    requires a + b <= c && |a| <= k <= |a| + |b|
    ensures a + b[..k - |a|] == c[..k]
  {
    assert (a + b)[..k] == a + b[..k - |a|];
  }

  /**
   * One pass of the outer loop: delivering tag `i`'s writes after those of the
   * tags before it either ends the whole fan-out as `FanOut` says, or leaves
   * the log at the fan-out of the first `i + 1` tags.
   */
  lemma FanOutDelivery(ts: seq<TagResult>, ls: seq<Label>, user: int, i: nat,
                       start: seq<Command>, f: Option<nat>, log: seq<Command>, ok: bool)
    requires i < |ts| && FanOut(ts[..i], ls, user).completed
    requires f.None? || f.value >= |start| + |FanOut(ts[..i], ls, user).cmds|
    requires Delivered(start + FanOut(ts[..i], ls, user).cmds, RowUpdates(ts[i], ls, user), f, log, ok)
    ensures !ok ==> Delivered(start, FanOut(ts, ls, user), f, log, ok)
    ensures ok ==> FanOut(ts[..i + 1], ls, user).completed && log == start + FanOut(ts[..i + 1], ls, user).cmds
    ensures ok ==> f.None? || f.value >= |log|
  {
    var done := FanOut(ts[..i], ls, user).cmds;
    var row := RowUpdates(ts[i], ls, user);
    var whole := FanOut(ts, ls, user);
    FanOutSnoc(ts, ls, user, i);
    FanOutExtends(ts, ls, user, i + 1);
    assert start + done + row.cmds == start + (done + row.cmds);
    if f.Some? && |start + done| <= f.value < |start + done| + |row.cmds| {
      PrefixSlice(done, row.cmds, whole.cmds, f.value - |start|);
      assert log == start + whole.cmds[..f.value - |start|];
    } else if !ok {
      assert whole == Trace(done + row.cmds, false);
    }
  }

  /**
   * One pass of the inner loop, at label `j` with the writes for the labels
   * before it delivered: a hash that is not text, or a matching write that
   * raises, ends the pass as `RowUpdates` says; otherwise the pass goes on
   * with one more label.
   */
  lemma RowDelivery(t: TagResult, ls: seq<Label>, user: int, j: nat, start: seq<Command>, f: Option<nat>)
    requires j < |ls| && RowUpdates(t, ls[..j], user).completed
    requires f.None? || f.value >= |start| + |RowUpdates(t, ls[..j], user).cmds|
    ensures var prev := RowUpdates(t, ls[..j], user).cmds;
      !ls[j].hashLabel.Text? ==> Delivered(start, RowUpdates(t, ls, user), f, start + prev, false)
    ensures var prev := RowUpdates(t, ls[..j], user).cmds;
      IsMatch(t, ls[j]) && f == Some(|start| + |prev|) ==> Delivered(start, RowUpdates(t, ls, user), f, start + prev, false)
    ensures var prev := RowUpdates(t, ls[..j], user).cmds;
      ls[j].hashLabel.Text? ==>
        RowUpdates(t, ls[..j + 1], user)
        == Trace(prev + if IsMatch(t, ls[j]) then [UpdateOf(t, ls[j], user)] else [], true)
  {
    var prev := RowUpdates(t, ls[..j], user).cmds;
    RowUpdatesSnoc(t, ls, user, j);
    RowUpdatesExtends(t, ls, user, j + 1);
    if IsMatch(t, ls[j]) && f == Some(|start| + |prev|) {
      PrefixSlice(prev, [], RowUpdates(t, ls, user).cmds, |prev|);
    }
  }

  /**
   * The inner comprehension `[update... for z in tags_from_db if ...]` for one
   * tag. It either completes, or stops at the first write that raises or at
   * the first label whose hash is not text.
   */
  method IssueRowUpdates(s: Session, t: TagResult, ls: seq<Label>, user: int) returns (ok: bool)
    requires s.Healthy()
    modifies s
    ensures Delivered(old(s.log), RowUpdates(t, ls, user), s.failAt, s.log, ok)
  {
    ghost var start := s.log;
    var j := 0;
    while j < |ls|
      invariant 0 <= j <= |ls|
      invariant RowUpdates(t, ls[..j], user).completed
      invariant s.log == start + RowUpdates(t, ls[..j], user).cmds
      invariant s.Healthy()
    {
      RowDelivery(t, ls, user, j, start, s.failAt);
      var z := ls[j];
      if !z.hashLabel.Text? {
        // `.lower()` on a value that is not a string raises
        return false;
      }
      if t.tagName == Sanitize.Lower(z.hashLabel.s) {
        ok := s.Issue(UpdateOf(t, z, user));
        if !ok {
          return;
        }
      }
      j := j + 1;
    }
    assert ls[..j] == ls;
    ok := true;
  }

  /** The loop `for x in result_from_prediction`, one pass over the labels per tag. */
  method IssueFanOut(s: Session, ts: seq<TagResult>, ls: seq<Label>, user: int) returns (ok: bool)
    requires s.Healthy()
    modifies s
    ensures Delivered(old(s.log), FanOut(ts, ls, user), s.failAt, s.log, ok)
  {
    ghost var start := s.log;
    var i := 0;
    while i < |ts|
      invariant 0 <= i <= |ts|
      invariant FanOut(ts[..i], ls, user).completed
      invariant s.log == start + FanOut(ts[..i], ls, user).cmds
      invariant s.Healthy()
    {
      ok := IssueRowUpdates(s, ts[i], ls, user);
      FanOutDelivery(ts, ls, user, i, start, s.failAt, s.log, ok);
      if !ok {
        return;
      }
      i := i + 1;
    }
    assert ts[..i] == ts;
    ok := true;
  }

  /**
   * The end of the `Completed` branch: the fan-out delivered after the
   * publish either already ends the run as `Cut` of the branch's plan says,
   * or leaves every write of it in place with none raised.
   */
  lemma FanOutThenModel(publish: seq<Command>, updates: Trace, readable: bool, last: Command, outcome: End,
                        f: Option<nat>, log: seq<Command>, ok: bool)
    requires f.None? || f.value >= |publish|
    requires Delivered(publish, updates, f, log, ok)
    ensures var plan := if updates.completed && readable then Plan(publish + updates.cmds + [last], outcome)
                        else Plan(publish + updates.cmds, Raised);
      !ok ==> Plan(log, Raised) == Cut(plan, f)
    ensures ok ==> updates.completed && log == publish + updates.cmds && (f.None? || f.value >= |log|)
  {
    if !ok && f.Some? && |publish| <= f.value < |publish| + |updates.cmds| {
      assert (publish + updates.cmds)[..f.value] == publish + updates.cmds[..f.value - |publish|];
      assert (publish + updates.cmds + [last])[..f.value] == publish + updates.cmds[..f.value - |publish|];
    }
  }

  /** `custom_vision_prediction`, with every collaborator's reply given and its writes issued through `s`. */
  method CustomVisionPrediction(s: Session, w: World, job: Job) returns (end: End)
    requires s.log == []
    modifies s
    ensures Plan(s.log, end) == Run(w, job, s.failAt)
  {
    if w.iterations.None? {
      return Raised;
    }
    var iterations := w.iterations.value;
    if iterations != [] {
      var iterationId := iterations[|iterations| - 1].id;
      if w.status.None? {
        return Raised;
      }
      var result := w.status.value;
      var modelInfo := ModelInfo(job.model, result.status, At(result.created), At(result.lastModified));
      var status := result.status;
      if status == TRAINING {
        var ok := s.Issue(ModelUpdate(job, status));
        if !ok {
          return Raised;
        }
        return Returned(Some(Outcome(modelInfo, Errors([]))));
      } else if status == FAILED {
        var ok := s.Issue(ModelUpdate(job, status));
        if !ok {
          return Raised;
        }
        return Returned(Some(Outcome(modelInfo, Errors([ErrorEntry("0", TRAINING_FAILED_MESSAGE)]))));
      } else if status == COMPLETED {
        ghost var publish := PublishStep(job, iterationId, result.publishName);
        ghost var plan := CompletedPlan(w, job, modelInfo, iterationId, result.publishName);
        assert Planned(w, job) == plan;
        if result.publishName.None? {
          var ok := s.Issue(Publish(job.cvModel, iterationId, job.publishName, job.predictionResource, true));
          if !ok {
            return Raised;
          }
        }
        assert s.log == publish && s.Healthy();
        if w.performance.None? {
          return Raised;
        }
        var performance := w.performance.value;
        var resultFromPrediction := TagResults(performance.perTag);
        if w.labelRows.None? {
          return Raised;
        }
        var tagsFromDb := BuildJsonLabels(w.labelRows.value);
        if tagsFromDb.None? {
          return Raised;
        }
        ghost var updates := FanOut(resultFromPrediction, tagsFromDb.value, job.userId);
        var ok := IssueFanOut(s, resultFromPrediction, tagsFromDb.value, job.userId);
        FanOutThenModel(publish, updates, performance.aggregate.Some?, ModelUpdate(job, TRAINED), plan.end,
                        s.failAt, s.log, ok);
        if !ok {
          return Raised;
        }
        if performance.aggregate.None? {
          return Raised;
        }
        var aggregate := performance.aggregate.value;
        ok := s.Issue(ModelUpdate(job, TRAINED));
        if !ok {
          assert plan.cmds[..s.failAt.value] == publish + updates.cmds;
          return Raised;
        }
        return Returned(Some(Outcome(modelInfo, Metrics(aggregate.precision, aggregate.recall,
          aggregate.averagePrecision, resultFromPrediction, []))));
      } else {
        return Returned(None);
      }
    } else {
      return Returned(Some(NoIterationsOutcome(job.model)));
    }
  }

  // ---------------------------------------------------------------------------
  // Properties of the reconciliation

  /** No iterations: status "Error", null timestamps, exactly one error, and no write at all. */
  lemma NoIterations(w: World, job: Job, failAt: Option<nat>)
    requires w.iterations == Some([])
    ensures Run(w, job, failAt).cmds == []
    ensures Run(w, job, failAt).end.Returned? && Run(w, job, failAt).end.outcome.Some?
    ensures var o := Run(w, job, failAt).end.outcome.value;
      o.modelInfo == ModelInfo(job.model, "Error", NoStamp, NoStamp) &&
      o.trainResult == Errors([ErrorEntry("0", "There are not iteration training")])
  {
  }

  /** Only the last iteration of a non-empty list is looked at. */
  lemma OnlyLastIteration(w: World, job: Job, its: seq<Iteration>)
    requires w.iterations.Some? && w.iterations.value != [] && its != []
    requires its[|its| - 1] == w.iterations.value[|w.iterations.value| - 1]
    ensures Planned(w.(iterations := Some(its)), job) == Planned(w, job)
  {
  }

  /** `Training`: one model update to "Training" with accuracy 0, and an empty error list. */
  lemma TrainingBranch(w: World, job: Job)
    requires w.iterations.Some? && w.iterations.value != []
    requires w.status.Some? && w.status.value.status == "Training"
    ensures var st := w.status.value;
      Planned(w, job) == Plan(
        [UpdateModel(job.lob, job.project, job.model, job.cvModel, "Training", job.userId, 0)],
        Returned(Some(Outcome(ModelInfo(job.model, "Training", At(st.created), At(st.lastModified)), Errors([])))))
  {
  }

  /** `Failed`: one model update to "Failed" with accuracy 0, and exactly one error. */
  lemma FailedBranch(w: World, job: Job)
    requires w.iterations.Some? && w.iterations.value != []
    requires w.status.Some? && w.status.value.status == "Failed"
    ensures var st := w.status.value;
      Planned(w, job) == Plan(
        [UpdateModel(job.lob, job.project, job.model, job.cvModel, "Failed", job.userId, 0)],
        Returned(Some(Outcome(ModelInfo(job.model, "Failed", At(st.created), At(st.lastModified)),
                              Errors([ErrorEntry("0", "Trainning failed")])))))
  {
  }

  /** Any other status falls off the if-chain: no write, and no outcome (`None`). */
  lemma OtherStatus(w: World, job: Job, failAt: Option<nat>)
    requires w.iterations.Some? && w.iterations.value != [] && w.status.Some?
    requires w.status.value.status !in {"Training", "Failed", "Completed"}
    ensures Run(w, job, failAt) == Plan([], Returned(None))
  {
  }

  /**
   * `Completed`: a publish is issued, as the very first write and never again,
   * exactly when the iteration has no publish name; it publishes the last
   * iteration under `job.publishName`, overwriting.
   */
  lemma PublishIffUnpublished(w: World, job: Job)
    requires w.iterations.Some? && w.iterations.value != []
    requires w.status.Some? && w.status.value.status == "Completed"
    ensures var cmds := Planned(w, job).cmds;
      (exists k :: 0 <= k < |cmds| && cmds[k].Publish?) <==> w.status.value.publishName.None?
    ensures var cmds := Planned(w, job).cmds; var its := w.iterations.value;
      w.status.value.publishName.None? ==>
        cmds[0] == Publish(job.cvModel, its[|its| - 1].id, job.publishName, job.predictionResource, true) &&
        forall k :: 0 < k < |cmds| ==> !cmds[k].Publish?
  {
    var st, its := w.status.value, w.iterations.value;
    var publish := PublishStep(job, its[|its| - 1].id, st.publishName);
    var cmds := Planned(w, job).cmds;
    if w.performance.Some? && w.labelRows.Some? && LabelsOf(w.labelRows.value).Some? {
      var results := TagResults(w.performance.value.perTag);
      var updates := FanOut(results, LabelsOf(w.labelRows.value).value, job.userId);
      FanOutOnlyLabels(results, LabelsOf(w.labelRows.value).value, job.userId);
      forall k | |publish| <= k < |cmds| ensures !cmds[k].Publish? {
        if k < |publish| + |updates.cmds| {
          assert cmds[k] == updates.cmds[k - |publish|];
        }
      }
    }
    if st.publishName.None? {
      assert cmds[0].Publish?;
    }
  }

  /** `Completed` with readable replies and a fan-out that runs to the end, unfolded once. */
  lemma CompletedUnfold(w: World, job: Job)
    requires w.iterations.Some? && w.iterations.value != []
    requires w.status.Some? && w.status.value.status == COMPLETED
    requires w.performance.Some? && w.labelRows.Some? && LabelsOf(w.labelRows.value).Some?
    requires FanOut(TagResults(w.performance.value.perTag), LabelsOf(w.labelRows.value).value, job.userId).completed
    requires w.performance.value.aggregate.Some?
    ensures var its, st, perf := w.iterations.value, w.status.value, w.performance.value;
      var ts := TagResults(perf.perTag); var agg := perf.aggregate.value;
      Planned(w, job) == Plan(
        PublishStep(job, its[|its| - 1].id, st.publishName)
          + FanOut(ts, LabelsOf(w.labelRows.value).value, job.userId).cmds + [ModelUpdate(job, TRAINED)],
        Returned(Some(Outcome(ModelInfo(job.model, COMPLETED, At(st.created), At(st.lastModified)),
                              Metrics(agg.precision, agg.recall, agg.averagePrecision, ts, [])))))
  {
  }

  /**
   * `Completed` with every reply available and textual label hashes: one
   * update per matching (tag, label) pair after the optional publish, then
   * exactly one model update to "trained" with accuracy 0, last.
   */
  lemma CompletedWrites(w: World, job: Job)
    requires w.iterations.Some? && w.iterations.value != []
    requires w.status.Some? && w.status.value.status == "Completed"
    requires w.performance.Some? && w.labelRows.Some? && LabelsOf(w.labelRows.value).Some?
    requires AllTextual(LabelsOf(w.labelRows.value).value) && w.performance.value.aggregate.Some?
    ensures var cmds := Planned(w, job).cmds;
      var ts := TagResults(w.performance.value.perTag); var ls := LabelsOf(w.labelRows.value).value;
      var pairs := MatchingPairs(ts, ls);
      var skip := if w.status.value.publishName.None? then 1 else 0;
      && |cmds| == skip + |pairs| + 1
      && (forall k :: 0 <= k < |pairs| ==>
            pairs[k].0 < |ts| && pairs[k].1 < |ls| &&
            cmds[skip + k] == UpdateOf(ts[pairs[k].0], ls[pairs[k].1], job.userId))
      && cmds[|cmds| - 1] == UpdateModel(job.lob, job.project, job.model, job.cvModel, "trained", job.userId, 0)
      && (forall k :: 0 <= k < |cmds| - 1 ==> !cmds[k].UpdateModel?)
  {
    var its, st := w.iterations.value, w.status.value;
    var ts := TagResults(w.performance.value.perTag);
    var ls := LabelsOf(w.labelRows.value).value;
    var publish := PublishStep(job, its[|its| - 1].id, st.publishName);
    WritesShape(publish, ts, ls, job.userId, ModelUpdate(job, TRAINED));
    CompletedUnfold(w, job);
  }

  /**
   * The optional publish, the fan-out over textual labels, then one last
   * command: the fan-out's writes are the pairs' updates in order, and only
   * the last command can be a model update.
   */
  lemma WritesShape(publish: seq<Command>, ts: seq<TagResult>, ls: seq<Label>, user: int, last: Command)
    requires forall k :: 0 <= k < |publish| ==> publish[k].Publish?
    requires AllTextual(ls)
    ensures FanOut(ts, ls, user).completed
    ensures var cmds, pairs := publish + FanOut(ts, ls, user).cmds + [last], MatchingPairs(ts, ls);
      && |cmds| == |publish| + |pairs| + 1
      && (forall k :: 0 <= k < |pairs| ==>
            pairs[k].0 < |ts| && pairs[k].1 < |ls| && cmds[|publish| + k] == UpdateOf(ts[pairs[k].0], ls[pairs[k].1], user))
      && cmds[|cmds| - 1] == last
      && (forall k :: 0 <= k < |cmds| - 1 ==> !cmds[k].UpdateModel?)
  {
    FanOutArePairs(ts, ls, user);
    FanOutOnlyLabels(ts, ls, user);
    var updates := FanOut(ts, ls, user).cmds;
    var cmds := publish + updates + [last];
    forall k | 0 <= k < |cmds| - 1 ensures !cmds[k].UpdateModel? {
      if k >= |publish| {
        assert cmds[k] == updates[k - |publish|];
      }
    }
  }



  /**
   * `Completed` with every reply available and textual label hashes: the
   * outcome reports status "Completed" (not "trained"), the aggregate metrics,
   * the per-tag list in the report's order with ap = averagePrecision, and no
   * error.
   */
  lemma CompletedOutcome(w: World, job: Job)
    requires w.iterations.Some? && w.iterations.value != []
    requires w.status.Some? && w.status.value.status == "Completed"
    requires w.performance.Some? && w.labelRows.Some? && LabelsOf(w.labelRows.value).Some?
    requires FanOut(TagResults(w.performance.value.perTag), LabelsOf(w.labelRows.value).value, job.userId).completed
    requires w.performance.value.aggregate.Some?
    ensures var st, perf := w.status.value, w.performance.value; var ts := TagResults(perf.perTag);
      var agg := perf.aggregate.value;
      && Planned(w, job).end == Returned(Some(Outcome(
           ModelInfo(job.model, "Completed", At(st.created), At(st.lastModified)),
           Metrics(agg.precision, agg.recall, agg.averagePrecision, ts, []))))
      && |ts| == |perf.perTag|
      && (forall i :: 0 <= i < |ts| ==>
            ts[i].tagName == perf.perTag[i].name && ts[i].ap == perf.perTag[i].averagePrecision &&
            ts[i].precision == perf.perTag[i].precision && ts[i].recall == perf.perTag[i].recall)
  {
    CompletedUnfold(w, job);
  }

  /**
   * No transaction: when the final model update raises, every label update
   * before it has taken effect, while the model record never says "trained".
   */
  lemma LabelUpdatesOutliveFailure(w: World, job: Job, n: nat)
    requires w.iterations.Some? && w.iterations.value != []
    requires w.status.Some? && w.status.value.status == "Completed"
    requires w.performance.Some? && w.labelRows.Some? && LabelsOf(w.labelRows.value).Some?
    requires FanOut(TagResults(w.performance.value.perTag), LabelsOf(w.labelRows.value).value, job.userId).completed
    requires w.performance.value.aggregate.Some?
    requires n == |Planned(w, job).cmds| - 1
    ensures Run(w, job, Some(n)).end == Raised
    ensures var updates := FanOut(TagResults(w.performance.value.perTag), LabelsOf(w.labelRows.value).value, job.userId);
      |Run(w, job, Some(n)).cmds| == n && Run(w, job, Some(n)).cmds[n - |updates.cmds|..] == updates.cmds
    ensures forall k :: 0 <= k < n ==> !Run(w, job, Some(n)).cmds[k].UpdateModel?
  {
    var its, st := w.iterations.value, w.status.value;
    var ts := TagResults(w.performance.value.perTag);
    var ls := LabelsOf(w.labelRows.value).value;
    var publish := PublishStep(job, its[|its| - 1].id, st.publishName);
    var updates := FanOut(ts, ls, job.userId).cmds;
    FanOutOnlyLabels(ts, ls, job.userId);
    CompletedUnfold(w, job);
    var cmds := Planned(w, job).cmds;
    assert cmds[..n] == publish + updates;
    forall k | 0 <= k < n ensures !cmds[k].UpdateModel? {
      if k >= |publish| {
        assert cmds[k] == updates[k - |publish|];
      }
    }
  }

  /** Every publish the run issues targets the training project, under `job.publishName`, overwriting. */
  lemma PublishesCarryJobName(w: World, job: Job)
    ensures var cmds := Planned(w, job).cmds;
      forall k :: 0 <= k < |cmds| && cmds[k].Publish? ==>
        cmds[k].project == job.cvModel && cmds[k].name == job.publishName &&
        cmds[k].resource == job.predictionResource && cmds[k].overwrite
  {
    if w.iterations.Some? && w.iterations.value != [] && w.status.Some? && w.status.value.status == COMPLETED {
      var its := w.iterations.value;
      PublishIffUnpublished(w, job);
      var cmds := Planned(w, job).cmds;
      forall k | 0 <= k < |cmds| && cmds[k].Publish?
        ensures cmds[k] == Publish(job.cvModel, its[|its| - 1].id, job.publishName, job.predictionResource, true)
      {
        assert w.status.value.publishName.None?;
      }
    }
  }

  /**
   * The aggregate metrics are read only after the label loop: a report
   * without them leaves every label update in place, then raises before the
   * model is marked trained.
   */
  lemma AggregateReadAfterLabels(w: World, job: Job)
    requires w.iterations.Some? && w.iterations.value != []
    requires w.status.Some? && w.status.value.status == "Completed"
    requires w.performance.Some? && w.labelRows.Some? && LabelsOf(w.labelRows.value).Some?
    requires w.performance.value.aggregate.None?
    ensures var its, st := w.iterations.value, w.status.value;
      var updates := FanOut(TagResults(w.performance.value.perTag), LabelsOf(w.labelRows.value).value, job.userId);
      Planned(w, job) == Plan(PublishStep(job, its[|its| - 1].id, st.publishName) + updates.cmds, Raised)
    ensures forall k :: 0 <= k < |Planned(w, job).cmds| ==> !Planned(w, job).cmds[k].UpdateModel?
  {
    var its, st := w.iterations.value, w.status.value;
    var ts := TagResults(w.performance.value.perTag);
    var ls := LabelsOf(w.labelRows.value).value;
    var publish := PublishStep(job, its[|its| - 1].id, st.publishName);
    var updates := FanOut(ts, ls, job.userId).cmds;
    FanOutOnlyLabels(ts, ls, job.userId);
    var cmds := Planned(w, job).cmds;
    assert cmds == publish + updates;
    forall k | 0 <= k < |cmds| ensures !cmds[k].UpdateModel? {
      if k >= |publish| {
        assert cmds[k] == updates[k - |publish|];
      }
    }
  }

  /** The rows and the fan-out of the example below. */
  lemma CatFanOut(stored: Label, user: int)
    requires stored.hashLabel == Text("Cat")
    ensures LabelsOf([RowOf(stored)]) == Some([stored])
    ensures var t := TagResult("cat", 0.9, 0.8, 0.85);
      FanOut([t], [stored], user) == Trace([UpdateOf(t, stored, user)], true)
  {
    var t := TagResult("cat", 0.9, 0.8, 0.85);
    var row := RowOf(stored);
    assert row[..COLUMNS] == row;
    var ls := LabelsOf([row]).value;
    LabelOfRowOf(ls[0]);
    LabelOfRowOf(stored);
    assert ls == [stored];
    assert Sanitize.Lower("Cat") == "cat";
    assert [stored][..0] == [] && [t][..0] == [];
    assert RowUpdates(t, [stored], user) == Trace([UpdateOf(t, stored, user)], true);
  }

  /**
   * One completed, unpublished iteration; one per-tag metric "cat" (precision
   * 0.9, recall 0.8, average precision 0.85); one stored label hashed "Cat".
   * The run publishes once, updates that label once, marks the model trained,
   * and the stored label ends with accuracy 0.85, precision 0.9, recall 0.8.
   */
  lemma CatExample(job: Job, stored: Label)
    requires stored.hashLabel == Text("Cat")
    ensures var w := World(true, Some("cv"), Some([Iteration("it")]),
                           Some(StatusRecord("Completed", "c", "m", None)),
                           Some(Performance(Some(Aggregate(0.5, 0.5, 0.5)), [TagPerformance("cat", 0.9, 0.8, 0.85)])),
                           Some([RowOf(stored)]));
      var p := Planned(w, job);
      && |p.cmds| == 3
      && p.cmds[0] == Publish(job.cvModel, "it", job.publishName, job.predictionResource, true)
      && p.cmds[1].UpdateLabel? && p.cmds[2] == ModelUpdate(job, "trained")
      && StoredAll(stored, p.cmds).accuracy == Number(0.85)
      && StoredAll(stored, p.cmds).precision == Number(0.9)
      && StoredAll(stored, p.cmds).recall == Number(0.8)
  {
    var t := TagResult("cat", 0.9, 0.8, 0.85);
    var w := World(true, Some("cv"), Some([Iteration("it")]), Some(StatusRecord("Completed", "c", "m", None)),
                   Some(Performance(Some(Aggregate(0.5, 0.5, 0.5)), [TagPerformance("cat", 0.9, 0.8, 0.85)])), Some([RowOf(stored)]));
    assert TagResults(w.performance.value.perTag) == [t];
    CatFanOut(stored, job.userId);
    CompletedUnfold(w, job);
    var u := UpdateOf(t, stored, job.userId);
    var cmds := Planned(w, job).cmds;
    assert cmds == [Publish(job.cvModel, "it", job.publishName, job.predictionResource, true), u, ModelUpdate(job, TRAINED)];
    assert cmds[..2][..1] == cmds[..1] && cmds[..1][..0] == [];
    UpdateSetsMetricsOnly(t, stored, job.userId);
    assert StoredAll(stored, cmds[..1]) == stored;
    assert StoredAll(stored, cmds[..2]) == WithMetrics(stored, t, job.userId);
  }

  /** A raising write keeps what went before it and nothing after it; without one the plan runs whole. */
  lemma RunIsPlannedPrefix(w: World, job: Job, failAt: Option<nat>)
    ensures Run(w, job, failAt).cmds <= Planned(w, job).cmds
    ensures Run(w, job, failAt).cmds != Planned(w, job).cmds ==> Run(w, job, failAt).end == Raised
    ensures failAt.None? ==> Run(w, job, failAt) == Planned(w, job)
  {
  }
}
