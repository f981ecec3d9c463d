/**
 * The JavaScript stack's add/edit form: the fields it opens with and its save
 * handler, a guard chain (title, then time) followed by the record it hands to
 * the provider. Whether the provider call throws is a parameter.
 */
module Modal {
  import opened Wrappers
  import opened Text
  import opened Reminders

  /** The form's editable fields. */
  datatype Form = Form(title: string, description: string, selectedDate: int)

  /** The alerts the save handler can raise. */
  datatype Alert = TitleRequired | FutureTimeRequired | SaveFailed

  /** What the save handler hands to the provider. */
  datatype SaveRequest =
    | AddRequest(title: string, description: string, dateTime: int)
    | UpdateRequest(reminder: Reminder)

  /** The effect of pressing save: the provider call made (if any), the alert shown (if any), and whether the form closed. */
  datatype SaveOutcome = SaveOutcome(request: Option<SaveRequest>, alert: Option<Alert>, closed: bool)

  /**
   * The fields the form opens with: the edited reminder's, or blank and the clock.
   * A new form opens with a blank title and a time not in the future, so saving
   * it as opened is refused; an edit form saved as opened asks for the edited
   * reminder itself with its text trimmed.
   */
  function InitialForm(editing: Option<Reminder>, now: int): (f: Form)
    ensures editing.None? ==> (IsBlank(f.title, IsJsWhitespace) && IsBlank(f.description, IsJsWhitespace)
      && f.selectedDate <= now)
    ensures editing.Some? ==> RequestFor(f, editing) == UpdateRequest(editing.value.(
      title := JsTrim(editing.value.title), description := JsTrim(editing.value.description)))
  {
    match editing
    case Some(r) => Form(r.title, r.description, r.dateTime)
    case None => Form("", "", now)
  }

  /** The record or the fields saved for `form`: trimmed text, the selected time, and the rest of an edited reminder. */
  function RequestFor(form: Form, editing: Option<Reminder>): SaveRequest {
    match editing
    case Some(r) => UpdateRequest(r.(title := JsTrim(form.title), description := JsTrim(form.description),
                                     dateTime := form.selectedDate))
    case None => AddRequest(JsTrim(form.title), JsTrim(form.description), form.selectedDate)
  }

  /** The title a request saves. */
  function SavedTitle(q: SaveRequest): string {
    match q
    case AddRequest(title, _, _) => title
    case UpdateRequest(r) => r.title
  }

  /**
   * `handleSave`: a blank title is refused first, then a time not after the
   * clock; otherwise the request is made, and the form closes unless it throws.
   */
  function HandleSave(form: Form, now: int, editing: Option<Reminder>, saveFails: bool): (o: SaveOutcome)
    ensures o.alert == Some(TitleRequired) <==> IsBlank(form.title, IsJsWhitespace)
    ensures o.alert == Some(FutureTimeRequired) <==> !IsBlank(form.title, IsJsWhitespace) && form.selectedDate <= now
    ensures o.request.Some? <==> !IsBlank(form.title, IsJsWhitespace) && form.selectedDate > now
    ensures o.request.Some? ==> o.request.value == RequestFor(form, editing)
    ensures o.closed <==> o.request.Some? && !saveFails
    ensures o.alert == Some(SaveFailed) <==> o.request.Some? && saveFails
  {
    TrimEmptyIffBlank(form.title, IsJsWhitespace);
    if JsTrim(form.title) == [] then
      SaveOutcome(None, Some(TitleRequired), false)
    else if form.selectedDate <= now then
      SaveOutcome(None, Some(FutureTimeRequired), false)
    else
      var request := RequestFor(form, editing);
      if saveFails then SaveOutcome(Some(request), Some(SaveFailed), false)
      else SaveOutcome(Some(request), None, true)
  }

  /**
   * The title any accepted save hands over is not blank and has no whitespace
   * left to trim at either end.
   */
  lemma SavedTitleIsClean(form: Form, editing: Option<Reminder>)
    requires !IsBlank(form.title, IsJsWhitespace)
    ensures !IsBlank(SavedTitle(RequestFor(form, editing)), IsJsWhitespace)
    ensures JsTrim(SavedTitle(RequestFor(form, editing))) == SavedTitle(RequestFor(form, editing))
  {
    assert SavedTitle(RequestFor(form, editing)) == JsTrim(form.title);
    TrimEmptyIffBlank(form.title, IsJsWhitespace);
    TrimIdempotent(form.title, IsJsWhitespace);
    TrimEmptyIffBlank(JsTrim(form.title), IsJsWhitespace);
  }

  /**
   * An edit keeps every field of the reminder but the title, the description
   * and the time, which become the trimmed text and the selected time.
   */
  lemma EditKeepsOtherFields(form: Form, r: Reminder)
    ensures RequestFor(form, Some(r)).UpdateRequest?
    ensures var u := RequestFor(form, Some(r)).reminder;
      && u.(title := r.title, description := r.description, dateTime := r.dateTime) == r
      && u.title == JsTrim(form.title) && u.description == JsTrim(form.description)
      && u.dateTime == form.selectedDate
  {
  }

  /**
   * Saving an edit form left as it opened gives back the reminder itself, when
   * its text is already trimmed, its title is not blank and it is due in the future.
   */
  lemma UnchangedEditRoundTrip(r: Reminder, now: int)
    requires JsTrim(r.title) == r.title && JsTrim(r.description) == r.description
    requires r.title != [] && r.dateTime > now
    ensures HandleSave(InitialForm(Some(r), now), now, Some(r), false) == SaveOutcome(Some(UpdateRequest(r)), None, true)
  {
    var f := InitialForm(Some(r), now);
    assert RequestFor(f, Some(r)) == UpdateRequest(r);
    TrimEmptyIffBlank(r.title, IsJsWhitespace);
    var o := HandleSave(f, now, Some(r), false);
    assert o.request == Some(UpdateRequest(r)) && o.closed;
  }

  /** A new form saved as it opened is refused for its blank title, and nothing is saved. */
  lemma BlankNewFormRefused(now: int, saveFails: bool)
    ensures HandleSave(InitialForm(None, now), now, None, saveFails) == SaveOutcome(None, Some(TitleRequired), false)
  {
  }
}
