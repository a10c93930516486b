/**
 * The values that pass between the training-status endpoint and its
 * collaborators: the replies of the Custom Vision training service, the rows
 * of the label store, the commands the endpoint issues and the JSON outcome
 * it returns.
 */
module Records {

  datatype Option<+T> = None | Some(value: T)

  /** One column value of a row returned by a stored procedure. */
  datatype Value = Null | Text(s: string) | Int(i: int) | Number(r: real) | Flag(b: bool)

  /** A stored label, with the twenty column names `build_json_labels` gives its row. */
  datatype Label = Label(
    id: Value, hashLabel: Value, hashModel: Value, hashProject: Value,
    tagTitle: Value, fieldType: Value, minPercentage: Value, accuracy: Value,
    negative: Value, colorTag: Value, precision: Value, recall: Value,
    imageCount: Value, activate: Value, userCreated: Value, userModified: Value,
    dateCreated: Value, dateModified: Value, deleted: Value, idCvTag: Value)

  /** An element of the training service's iteration list; only its id is read. */
  datatype Iteration = Iteration(id: string)

  /** The training service's status record for one iteration. */
  datatype StatusRecord = StatusRecord(
    status: string, created: string, lastModified: string, publishName: Option<string>)

  /** One entry of `perTagPerformance`. Metric values are passed through, never computed on. */
  datatype TagPerformance = TagPerformance(
    name: string, precision: real, recall: real, averagePrecision: real)

  /** The report's aggregate metrics. */
  datatype Aggregate = Aggregate(precision: real, recall: real, averagePrecision: real)

  /**
   * An iteration's performance report: the per-tag list, and the aggregate
   * metrics, None when the report lacks one of their keys (they are read
   * only after the label updates).
   */
  datatype Performance = Performance(aggregate: Option<Aggregate>, perTag: seq<TagPerformance>)

  /** One element of `result_from_prediction`: a per-tag metric under the endpoint's key names. */
  datatype TagResult = TagResult(tagName: string, precision: real, recall: real, ap: real)

  datatype ErrorEntry = ErrorEntry(code: string, message: string)

  /**
   * A date-time field of `modelInfo`: JSON null, a timestamp copied from the
   * training service, or the handler's own clock (whose value is not modelled).
   */
  datatype Stamp = NoStamp | At(text: string) | Clock

  datatype ModelInfo = ModelInfo(
    modelId: string, status: string, createdDateTime: Stamp, lastUpdatedDateTime: Stamp)

  /** `trainResult`: either only an error list, or the metrics of a completed training. */
  datatype TrainResult =
    | Errors(errors: seq<ErrorEntry>)
    | Metrics(precision: real, recall: real, ap: real, tags: seq<TagResult>, errors: seq<ErrorEntry>)

  datatype Outcome = Outcome(modelInfo: ModelInfo, trainResult: TrainResult)

  /** A write the endpoint makes to the outside world, in the order it makes them. */
  datatype Command =
      /** `trainer.publish_iteration(project, iteration, name, resource, overwrite)` */
    | Publish(project: string, iteration: string, name: string, resource: string, overwrite: bool)
      /** `[dbo].[UpdateLabel_UPD]` with its thirteen parameters */
    | UpdateLabel(
        hashLabel: Value, hashProject: Value, hashModel: Value, tagTitle: Value,
        fieldType: Value, minPercentage: Value, accuracy: real, negative: Value,
        precision: real, recall: real, imageCount: Value, colorTag: Value, userModified: int)
      /** `[dbo].[UpdateModelTraining_UDP]` with its seven parameters */
    | UpdateModel(
        lob: string, project: string, model: string, cvModel: string,
        status: string, userModified: int, averageAccuracy: int)
}
