# Cardiovascular-risk form controller, modelled in Dafny

`medical.js` is the browser-side controller of a risk-prediction page. It
validates the form, POSTs it to the prediction endpoint, and shows either an
error panel or a result panel. The result panel holds the rounded probability,
a risk badge and a gauge. This project models the controller's sequential logic
as pure Dafny functions and proves what the code promises about it:

- `wrappers.dfy` (`Wrappers`): `Option`. It stands for JavaScript's `undefined` and `NaN`.
- `validation.dfy` (`Validation`): `validateAndSerialize`.
  - The form is a sequence of `(name, value)` entries.
  - The result is `Ok(payload)` or `Err(message)`.
  - `parseFloat` is a parameter `parse: string -> Option<real>`, where `None` is `NaN`, so every contract holds for any parser.
  - A missing key reads as `None`, because `parseFloat(undefined)` is `NaN`.
- `gauge.dfy` (`Gauge`): the clamp and the needle colour from `renderGauge`.
- `panels.dfy` (`Panels`): the visible state (`Ui`), the badge choice from `showResult`, and the handlers as pure transitions.
  - The handlers are `showError`, `hideError`, `showResult`, reset and submit.
  - Submit is split at its `await`. `BeginSubmit` runs up to the POST; `FinishSubmit` runs from the reply through the `finally` block.
  - The server's reply is an input: an answer, a refusal with an optional error, or a thrown exception.
  - `+prob.toFixed(1)` is a parameter `round1`.

## Model

| member | source | states |
|---|---|---|
| `Validation.Validate` | medical.js:70-83 | An empty value anywhere fails with "Please fill all fields correctly.", and only an empty value gives that message, whatever the parser does. Otherwise, an absent, non-numeric or non-positive `age` fails with "Enter a valid age.", before any blood-pressure check. Otherwise, validation succeeds exactly when both pressures parse and `ap_lo <= ap_hi`, and fails with "Diastolic must be <= Systolic." when they do not. On success the payload is exactly the submitted name/value map. |
| `Validation.SerializeSpec` | medical.js:71-76 | This is the contract of `Serialize`, the entry loop. The loop stops exactly when an entry still to be read has an empty value. Otherwise the object it builds binds each submitted name to its submitted value, with nothing added. `Validate` reads `age`, `ap_hi` and `ap_lo` back from this object through `Lookup`. |
| `Validation.LastEntryWins` | medical.js:73-75 | Suppose entry `j` is the last entry with its name. Then the value submitted under that name is entry `j`'s value, so a later duplicate overwrites an earlier one. |
| `Validation.SubmittedIffNamed` | medical.js:72-75 | A name has a submitted value exactly when some entry carries that name. |
| `Validation.PayloadContents` | medical.js:72-82 | On success, the payload's keys are exactly the form's names. Each name maps, unchanged, to the value of the last entry with that name. |
| `Gauge.GaugeValue` | medical.js:25 | The gauge value always lies in [0, 100]. It equals the input when the input is already in that range. Below 0 it is 0, and above 100 it is 100. |
| `Gauge.GaugeValueIdempotent` | medical.js:25 | Clamping an already clamped value changes nothing. |
| `Gauge.GaugeValueMonotone` | medical.js:25 | Clamping preserves order. |
| `Gauge.NeedleFor` | medical.js:32 | The needle colour is red exactly when the value is > 60, amber exactly when it is in (30, 60], and green exactly when it is <= 30. |
| `Gauge.RenderGauge` | medical.js:24-32 | The drawn dial's value is in [0, 100]. A probability below 0 is drawn as 0, and one above 100 as 100. Its colour is red, amber or green exactly by the thresholds on the probability it was given, because clamping never moves a value across 30 or 60. |
| `Panels.ShowError` | medical.js:13-17 | The error panel shows exactly the message and the result panel is hidden. The form, the button and the result contents are untouched. |
| `Panels.HideError` | medical.js:19-22 | The error panel is hidden and emptied. The result panel, the form and the button are untouched. |
| `Panels.BadgeFor` | medical.js:58-66 | The badge is "High risk" with class "badge bad" exactly when the label is 1. Every other label gives "Low risk" with class "badge good". |
| `Panels.ShowResult` | medical.js:53-68 | The error panel is hidden and the result panel is shown. The shown probability is the rounded one. The badge is high exactly when the label is 1. The gauge gets the rounded value, clamped to [0, 100]. Its needle is red exactly above 60, amber exactly in (30, 60], and green exactly at or below 30. The button and the form are untouched. |
| `Panels.ClearValues` | medical.js:123-124 | Every field keeps its name, in order, and its value becomes the empty string. |
| `Panels.Reset` | medical.js:121-127 | Every field value becomes empty and both panels are hidden. The button and the result contents are untouched. |
| `Panels.BeginSubmit` | medical.js:85-99 | A POST is issued exactly when validation succeeds, with the validated payload as its body. While it is pending, the button is disabled with "Predicting..." and the error panel is hidden. A result panel that was showing stays visible, with its probability, badge and gauge unchanged. On a validation failure the message is shown, the result panel is hidden and the button is back to "Predict Risk". |
| `Panels.ServerMessage` | medical.js:108-109 | A refusal shows the server's error when it is a non-empty string, and "Server error" otherwise. The message is never empty. |
| `Panels.FinishSubmit` | medical.js:101-118 | An answer shows the result: the rounded probability, the badge for its label ("Low risk" for any label other than 1), and the gauge drawn from the rounded probability. A refusal shows the server's message. An exception shows "Network error: " followed by its message. Neither of those two changes the result panel's contents. Every one of these exits leaves the button enabled with "Predict Risk". |
| `Panels.Submit` | medical.js:85-119 | The whole handler makes one POST exactly when the form validates. A validation failure shows its message. Once posted, an answer shows the result with its rounded probability, badge and gauge. A refusal shows the server's message, and an exception shows "Network error: " with its message. On every exit the button is enabled with "Predict Risk", the panels are not both shown, and the form is unchanged. Only an answer changes the result panel's contents. |
| `Panels.RunKeepsPanelInvariants` | medical.js:85-127 | `Run` dispatches each click to its handler, `Step` by `Step`. Take any sequence of submits and resets. Afterwards the error and result panels are never both visible and a hidden error panel is empty. This holds from any start state once the sequence is non-empty. |
| `Panels.RunKeepsButtonReady` | medical.js:94-118 | Take any sequence of submits and resets, applied by `Run`, starting with the button ready. The button ends enabled with "Predict Risk". |
| `Panels.ResetThenSubmitRefused` | medical.js:121-127 | After a reset, submitting a non-empty form sends nothing. It shows "Please fill all fields correctly." |

## Left out

- DOM lookups, `innerHTML`/`textContent` writes and the `querySelectorAll` iteration (medical.js:3-11, 123-124) are browser plumbing. Reset is modelled only by its effect: every form entry's value becomes empty.
- The form is modelled as the list of `FormData` entries. Every entry is taken to be an `input` or `select` whose value becomes "" on reset, and `ResetThenSubmitRefused` relies on that. A browser does not always do this: a range or color input turns "" back into a non-empty default, and a select with no "" option ends with nothing selected, so `FormData` omits it instead of sending "". Textareas and file inputs are not distinguished.
- The `fetch` POST, `resp.json()` and the async control flow (medical.js:101-112) are network I/O. The reply is an input.
- A reset clicked while a request is pending is not covered by `Run`, which treats each submit as one step. `BeginSubmit` and `FinishSubmit` are separate so that such interleavings can be composed.
- `Plotly.react`, the chart layout, the trace configuration and the fixed background bands (medical.js:26-50) are a call into a foreign library with constant data. Only the dial value and needle colour are modelled. `Plotly.react` is assumed not to throw. If it did, the `catch` would run after the probability and badge had already been rewritten, and no `Reply` produces that state.
- `prob.toFixed(1)` rounding and IEEE-754 arithmetic (medical.js:56) are not modelled. Probabilities are `real`, and the rounding is the parameter `round1`.
- `parseFloat`'s prefix parsing (for example `"12abc"` giving 12) is not specified. It is the parameter `parse`.
- `NaN` or infinite `prob` values are not modelled, because `real` has neither.
- A success reply without a numeric `prob` is not modelled as its own case. There, `toFixed` throws inside the `try` and the handler takes the exception path, which `Reply.Threw` covers.
- Reply fields are typed: the label is an `int` and `success` is a boolean. Only `label === 1` selects the high badge, which matches the source for every non-number label too.
- Object keys such as `__proto__` are not modelled. They behave specially on a plain JavaScript object, and the model's payload is an ordinary map.
- The advisory text (medical.js:61, 65) is constant strings with no behaviour.
