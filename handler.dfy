/**
 * `main`: sanitise the request fields, gate on the four identifiers in a
 * fixed order, run the reconciliation and turn its end into the HTTP reply.
 * The token's claims are given already decoded; the environment is a map.
 */
module Handler {
  import opened Records
  import opened Sanitize
  import opened Effects
  import opened Reconcile

  /** The token's `customer_id` and `user_id`, and the three query parameters (None when absent). */
  datatype Request = Request(
    customerId: string, userId: int, lob: Option<string>, project: Option<string>, model: Option<string>)

  /** The sanitised fields, or why the request stops before the database is reached. */
  datatype Admission =
    | Unhandled                 // an exception escapes `main` before the gates
    | Rejected(message: string) // a gate answers 400
    | Admitted(customer: string, lob: string, project: string, model: string)

  datatype Response =
    | Uncaught                                  // the exception leaves `main`; the host answers on its own
    | Plain(status: int, text: string)          // `func.HttpResponse(text, status_code=...)`
    | Json(status: int, body: Option<Outcome>)  // `json.dumps` of the dict; None is `null`
    | Bare(text: string)                        // `return 'failed'`

  datatype Reply = Reply(log: seq<Command>, response: Response)

  const MODEL_MESSAGE := "unspecified or not valid model"
  const CUSTOMER_MESSAGE := "unspecified or invalid customer"
  const LOB_MESSAGE := "unspecified or invalid lob"
  const PROJECT_MESSAGE := "unspecified or invalid hashIdentifierProject"
  const FAILURE_MESSAGE := "error getting prediction"

  /**
   * Lines 43-64. A missing query parameter reaches `re.findall` as None and
   * raises, and so does a missing connection-string variable; both happen
   * before the gates. Then model, customer, lob and project are checked in
   * that order.
   */
  function Admit(req: Request, env: map<string, string>): (a: Admission)
    ensures a.Unhandled? <==>
      req.lob.None? || req.project.None? || req.model.None? || ConnectionKey(Sanitized(req.customerId)) !in env
    ensures a.Rejected? <==>
              && !a.Unhandled?
              && (Invalid(req.model.value) || Invalid(req.customerId) || Invalid(req.lob.value) || Invalid(req.project.value))
    ensures a.Admitted? ==>
              && req.model.Some? && req.lob.Some? && req.project.Some?
              && a.customer == req.customerId && a.customer != "" && Clean(a.customer)
              && a.model == Lower(req.model.value) && a.model != "" && Clean(a.model) && IsLowerCase(a.model)
              && a.lob == Lower(req.lob.value) && a.lob != "" && Clean(a.lob) && IsLowerCase(a.lob)
              && a.project == Lower(req.project.value) && a.project != "" && Clean(a.project) && IsLowerCase(a.project)
  {
    var customer := Sanitized(req.customerId);
    if req.lob.None? || req.project.None? then Unhandled
    else
      var lob := SanitizedLower(req.lob.value);
      var project := SanitizedLower(req.project.value);
      if ConnectionKey(customer) !in env || req.model.None? then Unhandled
      else
        var model := SanitizedLower(req.model.value);
        if model == "" then Rejected(MODEL_MESSAGE)
        else if customer == "" then Rejected(CUSTOMER_MESSAGE)
        else if lob == "" then Rejected(LOB_MESSAGE)
        else if project == "" then Rejected(PROJECT_MESSAGE)
        else Admitted(customer, lob, project, model)
  }

  /** The outer `except` of `main`: status "failed", the handler's clock, one fixed error. */
  function FailureOutcome(model: string): Outcome {
    Outcome(ModelInfo(model, "failed", Clock, Clock), Errors([ErrorEntry("0", FAILURE_MESSAGE)]))
  }

  /** The whole request: the writes that took effect and the reply. */
  function Respond(req: Request, env: map<string, string>, w: World, resource: string, failAt: Option<nat>): Reply {
    match Admit(req, env)
    case Unhandled => Reply([], Uncaught)
    case Rejected(message) => Reply([], Plain(400, message))
    case Admitted(customer, lob, project, model) =>
      if !w.connects then Reply([], Bare("failed"))
      else
        match w.cvProject
        case None => Reply([], Json(400, Some(FailureOutcome(model))))
        case Some(cvModel) =>
          var run := Run(w, Job(cvModel, model, resource, model, project, req.userId, lob), failAt);
          match run.end
          case Raised => Reply(run.cmds, Json(400, Some(FailureOutcome(model))))
          case Returned(outcome) => Reply(run.cmds, Json(200, outcome))
  }

  /** `main`, with the reconciliation's writes issued through `s`. */
  method HandleRequest(s: Session, req: Request, env: map<string, string>, w: World, resource: string)
    returns (response: Response)
    requires s.log == []
    modifies s
    ensures Reply(s.log, response) == Respond(req, env, w, resource, s.failAt)
  {
    var customer := Sanitized(req.customerId);
    var userId := req.userId;
    if req.lob.None? {
      return Uncaught;
    }
    var lob := SanitizedLower(req.lob.value);
    if req.project.None? {
      return Uncaught;
    }
    var project := SanitizedLower(req.project.value);
    var formatCustomer := Underscored(customer);
    if CONNECTION_PREFIX + formatCustomer !in env {
      return Uncaught;
    }
    if req.model.None? {
      return Uncaught;
    }
    var model := SanitizedLower(req.model.value);
    var publishIterationName := model;

    if model == "" {
      return Plain(400, MODEL_MESSAGE);
    }
    if customer == "" {
      return Plain(400, CUSTOMER_MESSAGE);
    }
    if lob == "" {
      return Plain(400, LOB_MESSAGE);
    }
    if project == "" {
      return Plain(400, PROJECT_MESSAGE);
    }
    if !w.connects {
      return Bare("failed");
    }
    if w.cvProject.None? {
      return Json(400, Some(FailureOutcome(model)));
    }
    var job := Job(w.cvProject.value, publishIterationName, resource, model, project, userId, lob);
    var end := CustomVisionPrediction(s, w, job);
    if end.Raised? {
      return Json(400, Some(FailureOutcome(model)));
    }
    return Json(200, end.outcome);
  }

  // ---------------------------------------------------------------------------
  // Properties of the request handling

  /**
   * The first invalid field among model, customer, lob and project decides the
   * 400 message; with none invalid the request is admitted with the sanitised
   * fields.
   */
  lemma GatePrecedence(req: Request, env: map<string, string>)
    requires req.lob.Some? && req.project.Some? && req.model.Some?
    requires ConnectionKey(Sanitized(req.customerId)) in env
    ensures Invalid(req.model.value) ==> Admit(req, env) == Rejected("unspecified or not valid model")
    ensures !Invalid(req.model.value) && Invalid(req.customerId) ==>
      Admit(req, env) == Rejected("unspecified or invalid customer")
    ensures !Invalid(req.model.value) && !Invalid(req.customerId) && Invalid(req.lob.value) ==>
      Admit(req, env) == Rejected("unspecified or invalid lob")
    ensures (!Invalid(req.model.value) && !Invalid(req.customerId) && !Invalid(req.lob.value) &&
             Invalid(req.project.value)) ==>
      Admit(req, env) == Rejected("unspecified or invalid hashIdentifierProject")
    ensures (!Invalid(req.model.value) && !Invalid(req.customerId) && !Invalid(req.lob.value) &&
             !Invalid(req.project.value)) ==>
      Admit(req, env) == Admitted(req.customerId, Lower(req.lob.value), Lower(req.project.value), Lower(req.model.value))
  {
  }

  /** A request stopped before the gates or by one of them never reaches the database or the service. */
  lemma GatedRequestsWriteNothing(req: Request, env: map<string, string>, w: World, resource: string, failAt: Option<nat>)
    requires !Admit(req, env).Admitted?
    ensures Respond(req, env, w, resource, failAt).log == []
    ensures Admit(req, env).Rejected? ==> Respond(req, env, w, resource, failAt).response == Plain(400, Admit(req, env).message)
    ensures Admit(req, env).Unhandled? ==> Respond(req, env, w, resource, failAt).response == Uncaught
  {
  }

  /**
   * As written, the customer's 400 is reachable only when the variable
   * `ocr_connection_string_` (the key of an empty customer) exists: otherwise
   * the lookup on line 52 raises first.
   */
  lemma CustomerGateNeedsBareKey(req: Request, env: map<string, string>, w: World, resource: string, failAt: Option<nat>)
    requires Invalid(req.customerId)
    requires CONNECTION_PREFIX !in env
    ensures Respond(req, env, w, resource, failAt).response == Uncaught
  {
    assert Sanitized(req.customerId) == "";
    assert ConnectionKey("") == CONNECTION_PREFIX by {
      assert Underscored("") == "";
    }
  }

  /**
   * Once admitted and connected, the reply is JSON, and every 400 JSON reply
   * has the same shape: status "failed" and the single error
   * `{code "0", "error getting prediction"}`.
   */
  lemma FailureReplyShape(req: Request, env: map<string, string>, w: World, resource: string, failAt: Option<nat>)
    requires Admit(req, env).Admitted? && w.connects
    ensures var r := Respond(req, env, w, resource, failAt).response;
      && r.Json?
      && (r.status == 400 ==>
            r.body == Some(Outcome(ModelInfo(Admit(req, env).model, "failed", Clock, Clock),
                                   Errors([ErrorEntry("0", "error getting prediction")]))))
  {
  }

  /**
   * The writes that stay are a prefix of the planned ones, kept even when the
   * reply is the 400; the reply is 200 exactly when the planned run returns and
   * no write raises, and then it carries the planned outcome after all writes.
   */
  lemma ReplyFollowsRun(req: Request, env: map<string, string>, w: World, resource: string, failAt: Option<nat>)
    requires Admit(req, env).Admitted? && w.connects && w.cvProject.Some?
    ensures var r := Respond(req, env, w, resource, failAt); var a := Admit(req, env);
      var planned := Planned(w, Job(w.cvProject.value, a.model, resource, a.model, a.project, req.userId, a.lob));
      && r.log <= planned.cmds
      && (r.response.status == 200 <==> planned.end.Returned? && (failAt.None? || failAt.value >= |planned.cmds|))
      && (r.response.status == 200 ==> r.log == planned.cmds && r.response.body == planned.end.outcome)
  {
    var a := Admit(req, env);
    var job := Job(w.cvProject.value, a.model, resource, a.model, a.project, req.userId, a.lob);
    RunIsPlannedPrefix(w, job, failAt);
    assert Respond(req, env, w, resource, failAt).log == Run(w, job, failAt).cmds;
  }

  /** Whatever is published is published under the sanitised model name, overwriting. */
  lemma PublishesUnderModelName(req: Request, env: map<string, string>, w: World, resource: string, failAt: Option<nat>)
    requires Admit(req, env).Admitted?
    ensures var r := Respond(req, env, w, resource, failAt);
      forall k :: 0 <= k < |r.log| && r.log[k].Publish? ==>
        r.log[k].name == Lower(req.model.value) && r.log[k].overwrite && r.log[k].resource == resource
  {
    var a := Admit(req, env);
    if w.connects && w.cvProject.Some? {
      var job := Job(w.cvProject.value, a.model, resource, a.model, a.project, req.userId, a.lob);
      PublishesCarryJobName(w, job);
    }
  }
}
