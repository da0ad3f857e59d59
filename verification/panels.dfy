/**
 The page's visible state and the handlers that change it: `showError`,
 `hideError`, `showResult`, the reset click and the submit handler.

 Each handler is a pure transition on `Ui`. The server's reply is an input,
 and so are the two JavaScript primitives the handlers use: `parse` for
 `parseFloat` and `round1` for `+prob.toFixed(1)`.
 */
module Panels {
  import opened Wrappers
  import opened Validation
  import opened Gauge

  const IdleLabel: string := "Predict Risk"
  const BusyLabel: string := "Predicting..."
  const ServerErrorMsg: string := "Server error"
  const NetworkPrefix: string := "Network error: "

  /** What the user can see: the form's entries, the error panel, the result
      panel and its contents, and the submit button. */
  datatype Ui = Ui(
    form: seq<Field>,
    errorShown: bool,
    errorText: string,
    resultShown: bool,
    shownProb: real,
    badge: Badge,
    dial: Dial,
    buttonEnabled: bool,
    buttonText: string)

  /** The reply to the prediction request, as the handler sees it. */
  datatype Reply =
    | Answered(prob: real, risk: int)    // `success` true
    | Refused(error: Option<string>)     // `success` false, with `error` if any
    | Threw(message: string)             // something in the `try` threw

  // ---------------------------------------------------------------------
  // Invariants and frame predicates
  // ---------------------------------------------------------------------

  /** The error and result panels are never both visible. */
  predicate PanelsExclusive(u: Ui) {
    !(u.errorShown && u.resultShown)
  }

  /** A hidden error panel is empty. */
  predicate HiddenErrorBlank(u: Ui) {
    !u.errorShown ==> u.errorText == ""
  }

  /** The submit button is usable and carries its normal label. */
  predicate ButtonReady(u: Ui) {
    u.buttonEnabled && u.buttonText == IdleLabel
  }

  /** The button is disabled and shows that a request is under way. */
  predicate ButtonBusy(u: Ui) {
    !u.buttonEnabled && u.buttonText == BusyLabel
  }

  predicate SameButton(u: Ui, v: Ui) {
    u.buttonEnabled == v.buttonEnabled && u.buttonText == v.buttonText
  }

  predicate SameResultContents(u: Ui, v: Ui) {
    u.shownProb == v.shownProb && u.badge == v.badge && u.dial == v.dial
  }

  /** The error panel is showing exactly `msg`, and the result panel is hidden. */
  predicate ShowingError(u: Ui, msg: string) {
    u.errorShown && u.errorText == msg && !u.resultShown
  }

  // ---------------------------------------------------------------------
  // The panel helpers
  // ---------------------------------------------------------------------

  /** The risk badge: its text and its CSS class. */
  datatype Badge = Badge(text: string, cls: string)

  const HighRisk: Badge := Badge("High risk", "badge bad")
  const LowRisk: Badge := Badge("Low risk", "badge good")

  /** The badge for a risk label: high exactly when the label is 1. */
  function BadgeFor(risk: int): (b: Badge)
    ensures b == HighRisk <==> risk == 1
    ensures b == LowRisk <==> risk != 1
  {
    if risk == 1 then HighRisk else LowRisk
  }


  /** `showError(msg)`. */
  function ShowError(u: Ui, msg: string): (v: Ui)
    ensures ShowingError(v, msg)
    ensures PanelsExclusive(v) && HiddenErrorBlank(v)
    ensures v.form == u.form && SameButton(u, v) && SameResultContents(u, v)
  {
    u.(errorShown := true, errorText := msg, resultShown := false)
  }

  /** `hideError()`: only the error panel changes. */
  function HideError(u: Ui): (v: Ui)
    ensures !v.errorShown && HiddenErrorBlank(v) && PanelsExclusive(v)
    ensures v.resultShown == u.resultShown
    ensures v.form == u.form && SameButton(u, v) && SameResultContents(u, v)
  {
    u.(errorShown := false, errorText := "")
  }

  /** `showResult(prob, label)`: the gauge shows the rounded probability. */
  function ShowResult(u: Ui, prob: real, risk: int, round1: real -> real): (v: Ui)
    ensures v.resultShown && !v.errorShown
    ensures PanelsExclusive(v) && HiddenErrorBlank(v)
    ensures v.shownProb == round1(prob)
    ensures v.dial == RenderGauge(round1(prob)) && v.badge == BadgeFor(risk)
    // The same badge and dial, unfolded through the contracts of BadgeFor and RenderGauge:
    ensures v.badge == HighRisk <==> risk == 1
    ensures v.badge == LowRisk <==> risk != 1
    ensures 0.0 <= v.dial.value <= 100.0
    ensures 0.0 <= round1(prob) <= 100.0 ==> v.dial.value == round1(prob)
    ensures round1(prob) < 0.0 ==> v.dial.value == 0.0
    ensures round1(prob) > 100.0 ==> v.dial.value == 100.0
    ensures v.dial.needle == Red <==> round1(prob) > 60.0
    ensures v.dial.needle == Amber <==> 30.0 < round1(prob) <= 60.0
    ensures v.dial.needle == Green <==> round1(prob) <= 30.0
    ensures v.form == u.form && SameButton(u, v)
  {
    var rounded := round1(prob);
    HideError(u).(resultShown := true, shownProb := rounded, badge := BadgeFor(risk),
                  dial := RenderGauge(rounded))
  }

  // ---------------------------------------------------------------------
  // Reset
  // ---------------------------------------------------------------------

  /** Every entry keeps its name and loses its value. */
  function ClearValues(fields: seq<Field>): (r: seq<Field>)
    ensures |r| == |fields|
    ensures forall i :: 0 <= i < |r| ==> r[i] == (fields[i].0, "")
  {
    if |fields| == 0 then [] else ClearValues(fields[..|fields| - 1]) + [(fields[|fields| - 1].0, "")]
  }

  /** The reset click: fields emptied, both panels hidden, button untouched. */
  function Reset(u: Ui): (v: Ui)
    ensures !v.errorShown && !v.resultShown && v.errorText == ""
    ensures |v.form| == |u.form|
    ensures forall i :: 0 <= i < |v.form| ==> v.form[i] == (u.form[i].0, "")
    ensures SameButton(u, v) && SameResultContents(u, v)
  {
    HideError(u.(form := ClearValues(u.form))).(resultShown := false)
  }

  // ---------------------------------------------------------------------
  // Submit
  // ---------------------------------------------------------------------

  /** Where the submit handler stands after its synchronous part: stopped by
      validation, or waiting for the reply to a POST of `payload`. */
  datatype Begun = Rejected(ui: Ui) | Awaiting(ui: Ui, payload: map<string, string>)

  /** The submit handler up to the `await`: disable the button, hide the
      error, validate; a validation error is shown and the button restored. */
  function BeginSubmit(u: Ui, parse: string -> Option<real>): (b: Begun)
    ensures b.Awaiting? <==> Validate(u.form, parse).Ok?
    ensures b.Awaiting? ==> b.payload == Validate(u.form, parse).payload
    ensures b.Awaiting? ==> ButtonBusy(b.ui) && !b.ui.errorShown && b.ui.resultShown == u.resultShown
    ensures b.Rejected? ==> ButtonReady(b.ui) && ShowingError(b.ui, Validate(u.form, parse).message)
    ensures PanelsExclusive(b.ui) && HiddenErrorBlank(b.ui) && b.ui.form == u.form
    ensures SameResultContents(u, b.ui)
  {
    var busy := HideError(u.(buttonEnabled := false, buttonText := BusyLabel));
    match Validate(u.form, parse)
    case Err(msg) => Rejected(ShowError(busy, msg).(buttonEnabled := true, buttonText := IdleLabel))
    case Ok(payload) => Awaiting(busy, payload)
  }

  /** The message shown for a refused request: `body.error || "Server error"`,
      where an absent or empty error is falsy. */
  function ServerMessage(error: Option<string>): (msg: string)
    ensures msg != ""
    ensures error.Some? && error.value != "" ==> msg == error.value
    ensures error.None? || error.value == "" ==> msg == ServerErrorMsg
  {
    match error
    case Some(e) => if e != "" then e else ServerErrorMsg
    case None => ServerErrorMsg
  }

  /** The handler after the `await`: show the result or the error, then the
      `finally` block restores the button. */
  function FinishSubmit(u: Ui, reply: Reply, round1: real -> real): (v: Ui)
    ensures ButtonReady(v)
    ensures PanelsExclusive(v) && HiddenErrorBlank(v) && v.form == u.form
    ensures reply.Answered? ==>
              && v.resultShown
              && v.shownProb == round1(reply.prob)
              && v.badge == BadgeFor(reply.risk)
              && v.dial == RenderGauge(round1(reply.prob))
    ensures reply.Refused? ==> ShowingError(v, ServerMessage(reply.error))
    ensures reply.Threw? ==> ShowingError(v, NetworkPrefix + reply.message)
    ensures !reply.Answered? ==> SameResultContents(u, v)
  {
    var shown := match reply
      case Answered(prob, risk) => ShowResult(u, prob, risk, round1)
      case Refused(error) => ShowError(u, ServerMessage(error))
      case Threw(message) => ShowError(u, NetworkPrefix + message);
    shown.(buttonEnabled := true, buttonText := IdleLabel)
  }

  /** What one submit does: the state it leaves and the POST body, if any. */
  datatype Submission = Submission(ui: Ui, posted: Option<map<string, string>>)

  /** The whole submit handler; `reply` is consulted only if a POST is made. */
  function Submit(u: Ui, parse: string -> Option<real>, reply: Reply, round1: real -> real): (s: Submission)
    ensures s.posted.Some? <==> Validate(u.form, parse).Ok?
    ensures s.posted.Some? ==> s.posted.value == Validate(u.form, parse).payload
    ensures ButtonReady(s.ui)
    ensures PanelsExclusive(s.ui) && HiddenErrorBlank(s.ui) && s.ui.form == u.form
    ensures Validate(u.form, parse).Err? ==> ShowingError(s.ui, Validate(u.form, parse).message)
    ensures Validate(u.form, parse).Ok? && reply.Answered? ==>
              && s.ui.resultShown
              && s.ui.shownProb == round1(reply.prob)
              && s.ui.badge == BadgeFor(reply.risk)
              && s.ui.dial == RenderGauge(round1(reply.prob))
    ensures Validate(u.form, parse).Ok? && reply.Refused? ==>
              ShowingError(s.ui, ServerMessage(reply.error))
    ensures Validate(u.form, parse).Ok? && reply.Threw? ==>
              ShowingError(s.ui, NetworkPrefix + reply.message)
    ensures !(Validate(u.form, parse).Ok? && reply.Answered?) ==> SameResultContents(u, s.ui)
  {
    match BeginSubmit(u, parse)
    case Rejected(v) => Submission(v, None)
    case Awaiting(v, payload) => Submission(FinishSubmit(v, reply, round1), Some(payload))
  }

  // ---------------------------------------------------------------------
  // Runs of events
  // ---------------------------------------------------------------------

  /** A user action, with the reply the server would give to a submit. */
  datatype Event = SubmitClicked(reply: Reply) | ResetClicked

  function Step(u: Ui, e: Event, parse: string -> Option<real>, round1: real -> real): Ui
  {
    match e
    case SubmitClicked(reply) => Submit(u, parse, reply, round1).ui
    case ResetClicked => Reset(u)
  }

  /** The state after a sequence of user actions, one after the other. */
  function Run(u: Ui, events: seq<Event>, parse: string -> Option<real>, round1: real -> real): Ui
    decreases |events|
  {
    if |events| == 0 then u else Run(Step(u, events[0], parse, round1), events[1..], parse, round1)
  }

  /** The panels stay exclusive, and a hidden error panel blank, across any
      run that starts so, and after any non-empty run whatever the start. */
  lemma {:induction false} RunKeepsPanelInvariants(u: Ui, events: seq<Event>,
                                                   parse: string -> Option<real>, round1: real -> real)
    requires |events| > 0 || (PanelsExclusive(u) && HiddenErrorBlank(u))
    ensures PanelsExclusive(Run(u, events, parse, round1))
    ensures HiddenErrorBlank(Run(u, events, parse, round1))
    decreases |events|
  {
    if |events| > 0 {
      RunKeepsPanelInvariants(Step(u, events[0], parse, round1), events[1..], parse, round1);
    }
  }

  /** The button is ready after any run that starts with it ready: reset
      leaves it alone and every exit from submit restores it. */
  lemma {:induction false} RunKeepsButtonReady(u: Ui, events: seq<Event>,
                                               parse: string -> Option<real>, round1: real -> real)
    requires ButtonReady(u)
    ensures ButtonReady(Run(u, events, parse, round1))
    decreases |events|
  {
    if |events| > 0 {
      RunKeepsButtonReady(Step(u, events[0], parse, round1), events[1..], parse, round1);
    }
  }

  /** After a reset, submitting a non-empty form never reaches the server:
      it is refused with the empty-field message. */
  lemma ResetThenSubmitRefused(u: Ui, parse: string -> Option<real>, reply: Reply, round1: real -> real)
    requires |u.form| > 0
    ensures Submit(Reset(u), parse, reply, round1).posted == None
    ensures ShowingError(Submit(Reset(u), parse, reply, round1).ui, EmptyFieldMsg)
  {
  }
}
