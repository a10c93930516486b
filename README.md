# Training-status endpoint: a verified model

The repository is an Azure Functions HTTP endpoint. It reports the training
state of a Custom Vision model and pushes that state into a SQL label store.
A request carries a bearer token (customer id and user id) and three hashed
identifiers: lob, project and model. The endpoint works in three stages.

1. **Sanitise and gate.** A field survives only if every character is in
   `[A-Za-z0-9_-]`; otherwise it becomes empty. Lob, project and model are
   also lowercased. The customer is kept as it is, with `-` replaced by `_`
   only in the key of its connection-string variable. The endpoint then
   rejects an empty model, customer, lob or project, in that order, with a 400.
2. **Reconcile.** `custom_vision_prediction` reads the status of the last
   training iteration and branches on it:
   - **Training** or **Failed**: records that status on the model row.
   - **Completed**:
     - publishes the iteration if it has no publish name yet;
     - writes each tag's precision, recall and average precision into every
       stored label whose lowercased hash equals the tag name;
     - marks the model "trained".
   - **No iterations**: returns an "Error" outcome.
   - **Any other status**: falls off the if-chain and returns `None`.
3. **Reply.** A returned outcome becomes a 200 JSON body. Any exception in the
   reconciliation becomes a 400 with one fixed error. No write is rolled back.

## How the model is built

- **Collaborators are inputs.** The replies of the training service, of the
  model lookup and of the label query are fields of `Reconcile.World`. A reply
  is `None` when the call fails or its reply cannot be used: the Python code
  then raises, either at once or when it next indexes into the placeholder
  string the helper returned. The performance report is read in two places.
  Its per-tag list is read on line 106, before any label write. Its aggregate
  precision, recall and average precision are read on line 111, after the
  label writes. So `Records.Performance` holds the per-tag list and an
  optional aggregate. A `None` performance reply raises after any publish and
  before any label write. A report whose aggregate is `None` raises after the
  label writes and before the model is marked "trained".
- **Writes are commands.** Each publish, `UpdateLabel_UPD` or
  `UpdateModelTraining_UDP` call is a `Records.Command` appended to the log of
  an `Effects.Session`. The session's `failAt` names the write that raises,
  if any. The writes before it stay in the log.
- **Specifications are functions.**
  - `Reconcile.Planned` is the run in which every write succeeds.
  - `Reconcile.Run` cuts `Planned` at the write that raises.
  - `Handler.Respond` is the whole request, from sanitising to the reply.
- **Methods are proved against them.** The imperative methods
  (`BuildJsonLabels`, `IssueRowUpdates`, `IssueFanOut`, `CustomVisionPrediction` and
  `HandleRequest`) are proved to produce exactly the log and result that these
  functions describe.
- **The fan-out has its own reference definitions.**
  - `LabelMetrics.MatchingPairs` lists the matching (tag, label) index pairs.
  - `LabelMetrics.Expected` gives what each stored label should hold
    afterwards.
  - Lemmas connect both of them to the writes.

Behaviour of the code that a reader may not expect:

- The messages are the code's own: "Trainning failed" and "There are not
  iteration training".
- A status other than Training, Failed or Completed gives no outcome: the
  if-chain ends without a `return`. The reply is then 200 with the body `null`.
- A failed performance fetch returns a placeholder string in the code, but
  the next line indexes into it. The reconciliation therefore raises, after
  any publish has already been made.
- A missing query parameter raises before the gates, because `None` reaches
  `re.findall`. So does a missing `ocr_connection_string_<customer>` variable
  (line 52). Neither produces the 400 message for that field. An invalid
  customer reaches its 400 only if a variable named exactly
  `ocr_connection_string_` exists (`Handler.CustomerGateNeedsBareKey`).

## Model

| member | source | states |
|---|---|---|
| Sanitize.FindAll | __init__.py:43-54 | the matches of `[^a-zA-Z0-9_-]`: at most one per character, every match is a disallowed character, and every disallowed character of the input is matched |
| Sanitize.NoMatchIffClean | __init__.py:43-54 | the match list is empty if and only if every character is allowed |
| Sanitize.SanitizedLower | __init__.py:47-54 | lob/project/model: the result is "" exactly when the raw value is empty or holds a disallowed character; otherwise it is the lowercase of the raw value, clean and lowercase |
| Sanitize.Sanitized | __init__.py:44-45 | customer: "" exactly when empty or unclean, otherwise the raw value unchanged (not lowercased) |
| Sanitize.LowerOfClean | __init__.py:47-54 | lowercasing a clean value keeps it clean and its length, makes it lowercase, and is idempotent |
| Sanitize.Underscored | __init__.py:51 | same length; at each position a `-` becomes `_` and any other character is kept; no `-` left; cleanliness preserved |
| Sanitize.ConnectionKey | __init__.py:51-52 | the environment key is `ocr_connection_string_` followed by the customer, position by position, with each `-` replaced by `_` |
| Sanitize.AlikeShareKey | __init__.py:51-52 | customers of equal length that differ only by `-` versus `_` at some positions read the same environment variable |
| Sanitize.SharedKeyAlike | __init__.py:51-52 | conversely, customers that read the same environment variable have equal length and differ only by `-` versus `_` |
| Sanitize.HyphenAndUnderscoreShareKey | __init__.py:51-52 | customers "a-b" and "a_b" read the same environment variable, so they share one database |
| Labels.RowOfLabelOf | __init__.py:205-224 | naming the 20 positional columns loses nothing of them |
| Labels.LabelOfRowOf | __init__.py:205-224 | a named record laid out by column position and named again is unchanged |
| Labels.LabelsOf | __init__.py:201-226 | one record per row, in order, whose columns are the row's first 20; None (IndexError) exactly when some row is shorter than 20 |
| Labels.BuildJsonLabels | __init__.py:201-226 | the appending loop returns exactly `LabelsOf` of the rows |
| Effects.Session.Issue | __init__.py:136-162 | a write either takes effect, appended to the log, or raises and changes nothing; earlier writes stay |
| LabelMetrics.TagResults | __init__.py:106 | defines `result_from_prediction`: one entry per per-tag metric, in report order, with its name, precision, recall and `ap` = averagePrecision |
| LabelMetrics.IsMatch | __init__.py:109 | defines the comprehension's filter: the label's hash is text and its lowercase equals the tag name |
| LabelMetrics.UpdateOf | __init__.py:109 | defines the 13 parameters of one `update_trainning_fields_sp` call: the tag's ap, precision and recall, the user, and every other field copied from the stored label |
| LabelMetrics.RowUpdates | __init__.py:109 | defines one tag's comprehension: over the labels in order, one update per matching label; it raises, keeping the writes before, at the first hash that is not text |
| LabelMetrics.FanOut | __init__.py:108-109 | defines the loop over the tags in report order: each tag's writes follow the previous tag's, and a raise in one tag's pass ends the loop |
| LabelMetrics.RowUpdatesOnlyLabels | __init__.py:109 | one tag's pass over the labels writes label updates only |
| LabelMetrics.FanOutOnlyLabels | __init__.py:108-109 | the fan-out writes label updates only: no publish, no model update |
| LabelMetrics.RowPairsExact | __init__.py:109 | one tag's matching labels: each index matches, every matching label is listed, labels in increasing order |
| LabelMetrics.MatchingPairsExact | __init__.py:108-109 | the matching (tag, label) pairs: each one matches, every matching pair is listed, in strictly increasing tag-major order (so once each) |
| LabelMetrics.RowUpdatesArePairs | __init__.py:109 | with textual hashes one tag's pass completes, and its k-th write is the update for its k-th matching label |
| LabelMetrics.FanOutArePairs | __init__.py:108-109 | with textual hashes the fan-out completes; the number of writes equals the number of matching pairs, and the k-th write is the update for the k-th pair |
| LabelMetrics.RowUpdatesRaises | __init__.py:109 | a label whose hash is not text makes one tag's pass raise (`.lower()`) |
| LabelMetrics.FanOutRaises | __init__.py:108-109 | with at least one tag, a label whose hash is not text makes the fan-out raise |
| LabelMetrics.UpdateSetsMetricsOnly | __init__.py:109 | the update for (tag, label) addresses that label; storing it sets accuracy to `ap`, precision, recall and the modifier, and copies every other field from the label |
| LabelMetrics.WithMetricsColumns | __init__.py:109 | setting the metrics changes columns 7, 10, 11 and 15 only, to ap, precision, recall and the user |
| LabelMetrics.LastMatch | __init__.py:108-109 | None exactly when no tag matches the label; otherwise the last matching tag: it matches and no later tag does (a later write overwrites an earlier one) |
| LabelMetrics.StoredAfterFanOut | __init__.py:108-109 | with textual, distinctly keyed labels, each stored label ends with the metrics of the last tag matching it, or unchanged if none |
| LabelMetrics.UnmatchedUntouched | __init__.py:108-109 | a label no tag matches is never written, whether or not the fan-out completes, and stays as it was |
| Reconcile.IssueRowUpdates | __init__.py:109 | one tag's comprehension issues that tag's writes in order; it stops at the first write that raises, keeping the earlier ones, or at a non-text hash |
| Reconcile.IssueFanOut | __init__.py:108-109 | the nested loop issues the fan-out's writes in order; it stops at the first write that raises, keeping the earlier ones, or at a non-text hash |
| Reconcile.CompletedPlan | __init__.py:102-113 | defines the Completed branch: publish if unpublished; raise after it if the report or the labels are unreadable; the fan-out; raise after it if it raised or the aggregate metrics are missing; otherwise the "trained" update and the Completed outcome |
| Reconcile.Planned | __init__.py:88-117 | defines the run when every write succeeds: raise on unreadable iterations or status, the no-iteration outcome, one model update for Training or Failed, the Completed plan, and no outcome for any other status |
| Reconcile.Run | __init__.py:118-121 | defines the run when the write at `failAt` raises: the writes before it stay and the call raises |
| Reconcile.CustomVisionPrediction | __init__.py:88-121 | the writes issued and the ending (outcome, or raised) are exactly `Run` of the replies and the failing write |
| Reconcile.NoIterations | __init__.py:114-117 | no iterations: no write; status "Error", null timestamps, exactly one error {"0", "There are not iteration training"} |
| Reconcile.OnlyLastIteration | __init__.py:91-93 | only the last element of a non-empty iteration list affects the run |
| Reconcile.TrainingBranch | __init__.py:96-98 | Training: exactly one model update to "Training" with accuracy 0; status and timestamps from the service; empty error list |
| Reconcile.FailedBranch | __init__.py:99-101 | Failed: exactly one model update to "Failed" with accuracy 0; exactly one error {"0", "Trainning failed"} |
| Reconcile.OtherStatus | __init__.py:95-113 | any other status: no write at all and no outcome, even when a write would raise |
| Reconcile.PublishIffUnpublished | __init__.py:102-104 | Completed: a publish is issued if and only if the iteration has no publish name; it is then the first write, of the last iteration, overwriting, and the only publish |
| Reconcile.PublishesCarryJobName | __init__.py:103-104 | every publish targets the training project under the publish-iteration name and the prediction resource, with overwrite |
| Reconcile.CompletedWrites | __init__.py:102-112 | Completed with readable replies (aggregate included) and textual hashes: writes = optional publish, one update per matching pair in pair order, then one model update to "trained" (accuracy 0), last and the only model update |
| Reconcile.CompletedOutcome | __init__.py:106-113 | Completed: status "Completed" (not "trained"), aggregate metrics copied, tags of the same length and order as the report with ap = averagePrecision, no error |
| Reconcile.LabelUpdatesOutliveFailure | __init__.py:108-113 | when the final model update raises, the label updates stay and the model is never marked trained |
| Reconcile.AggregateReadAfterLabels | __init__.py:105-112 | a report without the aggregate metrics raises after the fan-out: any publish and all label updates are written, and no model update is |
| Reconcile.CatExample | __init__.py:102-113 | one unpublished completed iteration, one tag "cat", one label hashed "Cat": publish, one label update, "trained"; the label ends with 0.85, 0.9, 0.8 |
| Reconcile.RunIsPlannedPrefix | __init__.py:118-121 | a raising write keeps the writes before it; any shortfall ends in a raise; without a failing write the planned run happens whole |
| Handler.Respond | __init__.py:43-86 | defines the whole request: what escapes before the gates, a gate's 400, `'failed'` when the database is unreachable, the 400 failure JSON for a missing model record or a raised run, otherwise 200 with the run's outcome, together with the writes that stayed |
| Handler.Admit | __init__.py:43-64 | Unhandled exactly when a parameter is missing or the connection-string key is absent; rejected exactly when some field is invalid; admitted fields are the clean, lowercased (customer: raw) values |
| Handler.GatePrecedence | __init__.py:57-64 | the first invalid field among model, customer, lob and project decides the 400 message; with none invalid the sanitised fields are admitted |
| Handler.GatedRequestsWriteNothing | __init__.py:57-64 | a request stopped before or at the gates makes no write; a gate's 400 carries its message |
| Handler.CustomerGateNeedsBareKey | __init__.py:51-60 | an invalid customer raises on the environment lookup unless `ocr_connection_string_` exists |
| Handler.FailureReplyShape | __init__.py:71-86 | once admitted and connected the reply is JSON, and every 400 JSON reply is status "failed" with the single error {"0", "error getting prediction"} |
| Handler.ReplyFollowsRun | __init__.py:71-86 | the writes that stay are a prefix of the planned ones, kept even on the 400; 200 exactly when the planned run returns and no write raises, with the planned outcome and all writes |
| Handler.PublishesUnderModelName | __init__.py:53-73 | any publish is under the sanitised, lowercased model name, overwriting, to the prediction resource |
| Handler.HandleRequest | __init__.py:43-86 | the writes and the reply of `main` are exactly `Respond` of the request, environment, replies and failing write |

## Left out

- Module-level configuration (lines 15-28): the environment variables, credentials and clients are not modelled. The prediction resource id is a parameter of the request handling.
- Token decoding (lines 40-42): the customer and user ids are given. A missing header, an undecodable token or a non-integer user id is not modelled.
- Database and HTTP calls: `pyodbc`, cursor lifecycle and SQL text, `requests`, `json.loads`. Their replies are inputs, and any failure or unusable reply is a `None` reply.
- The remaining helpers are treated the same way: `get_hash_cv_project`, `get_iterations`, `get_train_status`, `get_iteration_performance` and `get_labels` are inputs; `update_trainning_fields_sp` and `update_model` are commands.
- A status record without a `publishName` key has no separate representation. In the Completed branch the key is read on line 103, before any write, so the call raises with nothing written; that run is represented by an unreadable status reply (`None`), which ends the same way. In the other branches the key is never read, so such a record is represented with `publishName` set to `None`. A record without `created` or `lastModified` raises on line 94, before any write, and is likewise represented by a `None` status reply.
- Everything else the stored procedures do, such as setting `DateModified`, is not modelled. The store effect of `UpdateLabel_UPD` is taken to be writing its parameters into the row keyed by its three hashes.
- Floating point: the metrics are `real` values that are passed through and never computed on.
- Timestamps of the failure response come from `datetime.today()` and are only marked as the handler's clock. Logging, `json.dumps` serialisation, response headers and the `async` wrapper are not modelled.
- Lowercasing maps ASCII only. That is exact for sanitised identifiers, which are ASCII. For stored label hashes with non-ASCII letters, Python's full case mapping is not modelled.
- The Python interpreter's own failure modes (memory, interrupts) are not modelled.
- LabelMetrics.StoredAfterFanOut: states the store effect only for labels whose hashes are text and whose keys are distinct. Otherwise the fan-out raises, or two stored rows share the key that one write addresses.
