/**
 * The Android stack's add/edit dialog: the fields it opens with and its
 * confirm action, which hands the trimmed text and the selected time to the
 * caller only when the title is not blank.
 */
module Dialog {
  import opened Wrappers
  import opened Text
  import opened Reminders

  /** The dialog's remembered fields. */
  datatype Fields = Fields(title: string, description: string, selectedDateTime: int)

  /**
   * The fields the dialog opens with: the reminder's, or blank and an hour after
   * the clock. A new dialog cannot be confirmed and proposes a future time; an
   * edit dialog confirmed as opened hands back the reminder's trimmed text and
   * its time, and can be confirmed exactly when the reminder's title is not blank.
   */
  function InitialFields(reminder: Option<Reminder>, now: int): (f: Fields)
    ensures reminder.None? ==> !ConfirmEnabled(f) && f.selectedDateTime > now
    ensures reminder.Some? ==> (ConfirmEnabled(f) <==> !KotlinIsBlank(reminder.value.title))
    ensures reminder.Some? && ConfirmEnabled(f) ==> OnConfirm(f) == Some(Fields(KotlinTrim(reminder.value.title),
      KotlinTrim(reminder.value.description), reminder.value.dateTime))
  {
    match reminder
    case Some(r) => Fields(r.title, r.description, r.dateTime)
    case None => Fields("", "", now + HOUR_MS)
  }

  /** The confirm button is enabled exactly when the title is not blank. */
  predicate ConfirmEnabled(f: Fields) {
    !KotlinIsBlank(f.title)
  }

  /**
   * The confirm action: `onSave` with the trimmed text and the selected time
   * when the title is not blank, nothing otherwise. The time is not checked.
   */
  function OnConfirm(f: Fields): (saved: Option<Fields>)
    ensures saved.Some? <==> ConfirmEnabled(f)
    ensures saved.Some? ==> (saved.value.selectedDateTime == f.selectedDateTime
      && saved.value.description == KotlinTrim(f.description)
      && saved.value.title == KotlinTrim(f.title)
      && saved.value.title != [] && KotlinTrim(saved.value.title) == saved.value.title)
  {
    if !KotlinIsBlank(f.title) then
      TrimEmptyIffBlank(f.title, IsKotlinWhitespace);
      TrimIdempotent(f.title, IsKotlinWhitespace);
      Some(Fields(KotlinTrim(f.title), KotlinTrim(f.description), f.selectedDateTime))
    else None
  }

  /** A new dialog cannot be confirmed until a title is typed. */
  lemma NewDialogDisabled(now: int)
    ensures !ConfirmEnabled(InitialFields(None, now)) && OnConfirm(InitialFields(None, now)) == None
  {
  }

  /**
   * Confirming an edit dialog left as it opened gives back the reminder's own
   * text and time, when its text is already trimmed and its title not blank,
   * whatever the time (a past time included).
   */
  lemma UnchangedEditRoundTrip(r: Reminder, now: int)
    requires KotlinTrim(r.title) == r.title && KotlinTrim(r.description) == r.description && r.title != []
    ensures OnConfirm(InitialFields(Some(r), now)) == Some(Fields(r.title, r.description, r.dateTime))
  {
    TrimEmptyIffBlank(r.title, IsKotlinWhitespace);
  }
}
