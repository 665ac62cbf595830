/** The form as a whole (js/contact.js:12-51, 74-79, 139-217): the submit
    gate and its payload, clearing the fields, and what the page does with the
    outcome of the request. The request itself is not modelled; its outcome
    is an input. */
module Form {
  import opened Wrappers
  import opened Chars
  import opened Strings
  import opened Rules
  import opened Validation

  /** The ids of the `fields` array, in its order. */
  const FieldIds: seq<string> := [NameId, EmailId, PhoneId, CommentId]

  /** The object handed to the request, under its fixed keys. */
  datatype Payload = Payload(nameInput: string, emailAddress: string, phoneNumber: string, commentBox: string)

  /** The shared message element: whether it carries `hide`, its text and
      its background colour. */
  datatype Banner = Banner(hidden: bool, text: string, color: string)

  /** What the page shows: the four fields, whether the submit button and
      the loader carry `hide`, and the message element. */
  datatype Page = Page(fields: seq<Field>, submitHidden: bool, loaderHidden: bool, banner: Banner)

  /** The page has its four fields, in order, each with its error element. */
  predicate WellFormed(p: Page) {
    && |p.fields| == |FieldIds|
    && forall i :: 0 <= i < |p.fields| ==> p.fields[i].id == FieldIds[i] && p.fields[i].span.Some?
  }

  /** The outcome of checking every field. */
  datatype CheckedAll = CheckedAll(ok: bool, fields: seq<Field>)

  /** `fields.forEach(checkInput)` with the `isFormValid` flag: every field
      is checked, even after one has failed, and the form is valid when none
      of them is blank. */
  function CheckAll(fields: seq<Field>): (r: CheckedAll)
    requires forall i :: 0 <= i < |fields| ==> fields[i].span.Some?
    ensures |r.fields| == |fields|
    ensures forall i :: 0 <= i < |fields| ==> r.fields[i] == CheckInput(fields[i]).field
    ensures r.ok <==> forall i :: 0 <= i < |fields| ==> !AllIn(fields[i].value, Whitespace)
  {
    if |fields| == 0 then CheckedAll(true, [])
    else
      var c := CheckInput(fields[0]);
      var rest := CheckAll(fields[1..]);
      assert forall i :: 0 < i < |fields| ==> fields[1..][i - 1] == fields[i];
      CheckedAll(c.ok && rest.ok, [c.field] + rest.fields)
  }

  /** `hideToggleHandle(submitButton, loader)`: the loader takes the
      button's place and nothing else on the page changes. */
  function ShowLoader(p: Page): (q: Page)
    ensures q.submitHidden && !q.loaderHidden
    ensures q.fields == p.fields && q.banner == p.banner
  {
    p.(submitHidden := true, loaderHidden := false)
  }

  /** `hideToggleHandle(loader, submitButton)`: the button takes the
      loader's place and nothing else on the page changes. */
  function ShowSubmit(p: Page): (q: Page)
    ensures !q.submitHidden && q.loaderHidden
    ensures q.fields == p.fields && q.banner == p.banner
  {
    p.(submitHidden := false, loaderHidden := true)
  }

  /** What pressing submit does: the page as it is left, and the object
      handed to the request when one is made. */
  datatype SubmitStep = Blocked(page: Page) | Sent(page: Page, payload: Payload)

  /** The submit handler. Every field gets the required check; if any is
      blank nothing is sent. Otherwise the trimmed values are written to
      `localStorage` and read back; `stored` says whether that write
      succeeded, since `setItem` throws when storage is full or blocked, and
      the handler then stops with the checked fields and nothing sent. When
      it succeeds, the values are sent under the fixed keys and the loader
      replaces the submit button. The pattern rules are not consulted here. */
  function Submit(p: Page, stored: bool): (s: SubmitStep)
    requires WellFormed(p)
    ensures WellFormed(s.page)
    ensures s.Sent? <==> stored && forall i :: 0 <= i < |p.fields| ==> !AllIn(p.fields[i].value, Whitespace)
    ensures forall i :: 0 <= i < |p.fields| ==> s.page.fields[i] == CheckInput(p.fields[i]).field
    ensures s.Sent? ==>
              && s.payload.nameInput == Trim(p.fields[0].value)
              && s.payload.emailAddress == Trim(p.fields[1].value)
              && s.payload.phoneNumber == Trim(p.fields[2].value)
              && s.payload.commentBox == Trim(p.fields[3].value)
    ensures s.Sent? ==> s.page.submitHidden && !s.page.loaderHidden
    ensures s.Blocked? ==> s.page.submitHidden == p.submitHidden && s.page.loaderHidden == p.loaderHidden
    ensures s.page.banner == p.banner
  {
    var checked := CheckAll(p.fields);
    var page := p.(fields := checked.fields);
    if !checked.ok || !stored then Blocked(page)
    else
      var f := p.fields;
      Sent(ShowLoader(page), Payload(Trim(f[0].value), Trim(f[1].value), Trim(f[2].value), Trim(f[3].value)))
  }

  /** The input handler for the field at `i`. `validationCheck` guards
      every use of the error element, so the page may lack one. */
  function OnInput(p: Page, i: nat): (q: Page)
    requires i < |p.fields|
    ensures |q.fields| == |p.fields|
    ensures forall j :: 0 <= j < |p.fields| ==>
              q.fields[j].id == p.fields[j].id && q.fields[j].span.Some? == p.fields[j].span.Some?
    ensures WellFormed(p) ==> WellFormed(q)
    ensures q.fields[i] == ValidationCheck(p.fields[i])
    ensures forall j :: 0 <= j < |p.fields| && j != i ==> q.fields[j] == p.fields[j]
    ensures q.submitHidden == p.submitHidden && q.loaderHidden == p.loaderHidden && q.banner == p.banner
  {
    p.(fields := p.fields[i := ValidationCheck(p.fields[i])])
  }

  /** `resetForm`: every field emptied and both markers removed; ids and
      error elements are left as they are. */
  function ResetForm(fields: seq<Field>): (r: seq<Field>)
    ensures |r| == |fields|
    ensures forall i :: 0 <= i < |fields| ==>
              && r[i].id == fields[i].id && r[i].span == fields[i].span
              && r[i].value == [] && r[i].marker == Unmarked
  {
    seq(|fields|, i requires 0 <= i < |fields| => fields[i].(value := [], marker := Unmarked))
  }

  /** The two kinds of message the page can show. */
  datatype BannerKind = SuccessBanner | ErrorBanner

  const SuccessText := "Details sent successfully! We\U{2019}ll be in touch shortly."
  const SuccessColor := "#499749"
  const ErrorText := "Please, try again in a while."
  const ErrorColor := "#d43333"

  /** One entry of `messageContent`. */
  datatype Content = Content(text: string, color: string)

  /** `messageContent`: the text and colour of each kind of message. */
  function MessageContent(kind: BannerKind): Content {
    match kind
    case SuccessBanner => Content(SuccessText, SuccessColor)
    case ErrorBanner => Content(ErrorText, ErrorColor)
  }

  /** The two kinds of message differ in both text and colour. */
  lemma MessageContentDistinct(a: BannerKind, b: BannerKind)
    ensures MessageContent(a).text == MessageContent(b).text <==> a == b
    ensures MessageContent(a).color == MessageContent(b).color <==> a == b
  {
  }

  /** `updatedMessage(kind)`: show the message element with that kind's text
      and colour, leaving the fields and the controls alone. */
  function UpdatedMessage(p: Page, kind: BannerKind): (q: Page)
    ensures !q.banner.hidden
    ensures Content(q.banner.text, q.banner.color) == MessageContent(kind)
    ensures q.fields == p.fields && q.submitHidden == p.submitHidden && q.loaderHidden == p.loaderHidden
  {
    var content := MessageContent(kind);
    p.(banner := Banner(false, content.text, content.color))
  }

  /** `hideMessage`'s timer callback, run 4000 ms after it is scheduled:
      hide the message element and nothing else. */
  function HideMessage(p: Page): (q: Page)
    ensures q.banner.hidden
    ensures q.banner.text == p.banner.text && q.banner.color == p.banner.color
    ensures q.fields == p.fields && q.submitHidden == p.submitHidden && q.loaderHidden == p.loaderHidden
  {
    p.(banner := p.banner.(hidden := true))
  }

  /** How the request ended, as the handler sees it: a response whose body
      has the given `status`, the abort raised by the 30-second timer, or any
      other failure (a network error, a body that is not JSON). */
  datatype Outcome = Response(status: string) | Aborted | OtherFailure

  const SuccessStatus := "SUCCESS"

  /** The page actions an outcome calls for. */
  datatype Actions = Actions(reset: bool, banner: Option<BannerKind>, restoreSubmit: bool, scheduleHide: bool)

  /** The branches of `updateSheet` after the request: a "SUCCESS" status
      shows the success message and an abort the error message; either one
      also clears the form, brings the submit button back and schedules the
      message's hiding. Anything else does none of these. */
  function Dispatch(o: Outcome): (a: Actions)
    ensures a.banner == Some(SuccessBanner) <==> o == Response(SuccessStatus)
    ensures a.banner == Some(ErrorBanner) <==> o == Aborted
    ensures a.reset <==> a.banner.Some?
    ensures a.restoreSubmit <==> a.banner.Some?
    ensures a.scheduleHide <==> a.banner.Some?
  {
    match o
    case Response(status) =>
      if status == SuccessStatus then Actions(true, Some(SuccessBanner), true, true)
      else Actions(false, None, false, false)
    case Aborted => Actions(true, Some(ErrorBanner), true, true)
    case OtherFailure => Actions(false, None, false, false)
  }

  /** Carry out the actions on the page. The scheduled hiding is the
      separate callback HideMessage. */
  function Apply(p: Page, a: Actions): Page {
    var p1 := if a.reset then p.(fields := ResetForm(p.fields)) else p;
    var p2 := if a.restoreSubmit then ShowSubmit(p1) else p1;
    if a.banner.Some? then UpdatedMessage(p2, a.banner.value) else p2
  }

  function OnOutcome(p: Page, o: Outcome): Page {
    Apply(p, Dispatch(o))
  }

  /** After a "SUCCESS" response: the fields are empty and unmarked, the
      success message shows, and the submit button is back in place of the
      loader. */
  lemma SuccessOutcome(p: Page)
    requires WellFormed(p)
    ensures var q := OnOutcome(p, Response(SuccessStatus));
      && WellFormed(q)
      && (forall i :: 0 <= i < |q.fields| ==>
            q.fields[i] == Field(FieldIds[i], "", Unmarked, p.fields[i].span))
      && q.banner == Banner(false, SuccessText, SuccessColor)
      && !q.submitHidden && q.loaderHidden
  {
  }

  /** After the 30-second abort: the same clearing and restoring, with the
      error message. */
  lemma AbortOutcome(p: Page)
    requires WellFormed(p)
    ensures var q := OnOutcome(p, Aborted);
      && WellFormed(q)
      && (forall i :: 0 <= i < |q.fields| ==>
            q.fields[i] == Field(FieldIds[i], "", Unmarked, p.fields[i].span))
      && q.banner == Banner(false, ErrorText, ErrorColor)
      && !q.submitHidden && q.loaderHidden
  {
  }

  /** Any other status, and any other failure, leaves the page exactly as it
      was: the fields keep their values, no message appears, and a loader
      that was showing stays showing. */
  lemma OtherOutcome(p: Page, o: Outcome)
    requires o != Response(SuccessStatus) && o != Aborted
    ensures OnOutcome(p, o) == p
  {
  }

  /** A submission that is answered with "SUCCESS" leaves every field empty,
      unmarked, and with its error element hidden and empty. */
  lemma SubmitThenSuccess(p: Page)
    requires WellFormed(p) && Submit(p, true).Sent?
    ensures var q := OnOutcome(Submit(p, true).page, Response(SuccessStatus));
      forall i :: 0 <= i < |q.fields| ==>
        q.fields[i] == Field(FieldIds[i], "", Unmarked, Some(ErrorSpan(true, "")))
  {
    var s := Submit(p, true);
    SuccessOutcome(s.page);
  }

  /** Once the form has been cleared, submitting again is blocked and every
      field says it is required. */
  lemma ClearedFormBlocks(p: Page, o: Outcome, stored: bool)
    requires WellFormed(p) && (o == Response(SuccessStatus) || o == Aborted)
    ensures var s := Submit(OnOutcome(p, o), stored);
      && s.Blocked?
      && forall i :: 0 <= i < |s.page.fields| ==>
           s.page.fields[i].span == Some(ErrorSpan(false, RequiredMessage))
  {
    var q := OnOutcome(p, o);
    assert AllIn(q.fields[0].value, Whitespace);
  }
}
