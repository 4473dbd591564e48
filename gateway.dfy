/**
 * `SandboxHandler.do_POST` for `/run` once the body is parsed: admission,
 * then `execute_code`, then the reply.  Routing, the body read and the JSON
 * (de)serialisation are not modelled.
 */
module Gateway {
  import opened Wrappers
  import opened Admission
  import opened Staging
  import opened Supervision
  import opened Collection
  import opened Engine

  const OK: int := 200

  /** What the client gets: a 4xx `{"error": ...}`, the result with status 200,
      or no reply at all when an exception escapes the handler. */
  datatype Response = ErrorReply(status: int, error: string) | ResultReply(status: int, result: ExecResult) | NoReply

  /** The reply, and the phase of the workspace if one was created. */
  datatype Handled = Handled(response: Response, workspace: Option<Phase>)

  function HandleSpec(req: Request, q: Quoting, fx: Effects): (h: Handled)
    ensures h.workspace.None? <==> !Admit(req).Accept?
    ensures h.response.ErrorReply? <==> Admit(req).Reject?
    ensures h.response.ResultReply? ==> h.response.status == OK && h.workspace == Some(Removed)
  {
    match Admit(req)
    case Reject(status, message) => Handled(ErrorReply(status, message), None)
    case Raise(_) => Handled(NoReply, None)
    case Accept(lang, code, timeout) =>
      var t := ExecuteSpec(lang, code, timeout, q, fx);
      match t.execution
      case Returned(result) => Handled(ResultReply(OK, result), Some(t.finalPhase))
      case Raised(_) => Handled(NoReply, Some(t.finalPhase))
  }

  /** Lines 61-74. */
  method HandleRun(req: Request, q: Quoting, fx: Effects) returns (response: Response, workspace: Option<Phase>)
    ensures Handled(response, workspace) == HandleSpec(req, q, fx)
  {
    var admission := Admit(req);
    if admission.Reject? {
      return ErrorReply(admission.status, admission.message), None;
    }
    if admission.Raise? {
      return NoReply, None;
    }
    var r, phase, _ := ExecuteCode(admission.lang, admission.code, admission.timeout, q, fx);
    workspace := Some(phase);
    if r.Returned? {
      response := ResultReply(OK, r.result);
    } else {
      response := NoReply;
    }
  }

  /** A rejected request never reaches `execute_code`: no workspace exists and
      the reply does not depend on anything the engine would do. */
  lemma RejectionRunsNothing(req: Request, q: Quoting, fx: Effects)
    requires Admit(req).Reject?
    ensures HandleSpec(req, q, fx) == Handled(ErrorReply(Admit(req).status, Admit(req).message), None)
    ensures forall fx': Effects :: HandleSpec(req, q, fx') == HandleSpec(req, q, fx)
  {
  }

  /** An unsupported language is answered 400 with no workspace, whatever the code. */
  lemma UnsupportedLanguageNotRun(req: Request, q: Quoting, fx: Effects)
    requires !req.timeout.TimeoutUnconvertible? && RequestedLanguage(req.language).None?
    ensures HandleSpec(req, q, fx) == Handled(ErrorReply(400, "unsupported language: " + Shown(req.language)), None)
  {
    UnsupportedLanguageRejected(req);
  }

  /** A request gets a 200 reply, after removal of its workspace was
      attempted, exactly when it is admitted and neither staging nor collection
      raises; every other admitted request and every one whose `int()` raises
      gets no reply. */
  lemma AnsweredImpliesRemoved(req: Request, q: Quoting, fx: Effects)
    ensures HandleSpec(req, q, fx).response.ResultReply? <==>
      Admit(req).Accept? && fx.stagingFault.None? && Collected(fx.after).Success?
    ensures HandleSpec(req, q, fx).response.NoReply? <==>
      Admit(req).Raise? || (Admit(req).Accept? && !(fx.stagingFault.None? && Collected(fx.after).Success?))
    ensures HandleSpec(req, q, fx).response.ResultReply? ==>
      HandleSpec(req, q, fx).response.result.files == Collected(fx.after).value
  {
    if Admit(req).Accept? {
      var a := Admit(req);
      CleanupOnEveryOutcome(a.lang, a.code, a.timeout, q, fx);
    }
  }

  /** A timeout is an ordinary 200 reply carrying exit code 124 and the message
      for the effective timeout, provided staging and collection succeed. */
  lemma TimeoutIsAnOrdinaryReply(req: Request, q: Quoting, fx: Effects)
    requires Admit(req).Accept? && fx.outcome.TimedOut?
    requires fx.stagingFault.None? && Collected(fx.after).Success?
    ensures var h := HandleSpec(req, q, fx);
      h.response.ResultReply? && h.response.status == 200
      && h.response.result.exitCode == 124 && h.response.result.stdout == ""
      && h.response.result.stderr == TimeoutMessage(Admit(req).timeout)
      && h.response.result.files == Collected(fx.after).value
  {
  }
}
