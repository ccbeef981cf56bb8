/**
 * The reminder panel: a list of reminders for ferias, a form to add one, and a
 * periodic check that fires the reminders due within the next minute. Time is
 * integer milliseconds; reading a date string is a parameter `parse` that gives
 * `None` for an invalid date (JavaScript's `NaN`, which fails every comparison).
 */
module ReminderSystem {
  import opened Wrappers
  import opened Lists
  import opened Types

  datatype Reminder = Reminder(
    id: string,
    feriaId: string,
    feriaNombre: string,
    dateTime: string,
    message: string,
    active: bool)

  /** The outcome of `addReminder`: one of its three early returns, or the reminder it added. */
  datatype AddOutcome = MissingFields | UnknownFeria | NotInFuture | Added(reminder: Reminder)

  /** The window of the periodic check, in milliseconds. */
  const CheckWindow: int := 60000

  /** The message of a new reminder: the custom text, or the default one for the feria. */
  function ReminderMessage(custom: string, nombre: string): (m: string)
    ensures custom != "" ==> m == custom
    ensures custom == "" ==> m == "Recordatorio: " + nombre + " estar\U{00E1} disponible pronto"
    ensures m != ""
  {
    if custom != "" then custom else "Recordatorio: " + nombre + " estar\U{00E1} disponible pronto"
  }

  /** The delay `scheduleNotification` computes: `None` when the date is invalid. */
  function NotificationDelay(parse: string -> Option<int>, dateTime: string, now: int): (d: Option<int>)
    ensures d.Some? <==> parse(dateTime).Some?
    ensures d.Some? ==> now + d.value == parse(dateTime).value
  {
    match parse(dateTime)
    case None => None
    case Some(t) => Some(t - now)
  }

  /** A notification timer is armed only for a strictly positive delay. */
  predicate Schedules(delay: Option<int>) {
    delay.Some? && delay.value > 0
  }

  /** `checkReminders` fires an active reminder due strictly after now and at most a minute later. */
  predicate Due(parse: string -> Option<int>, now: int, r: Reminder) {
    var t := parse(r.dateTime);
    r.active && t.Some? && 0 < t.value - now <= CheckWindow
  }

  /** The reminders one check fires, in list order. */
  function Fired(reminders: seq<Reminder>, parse: string -> Option<int>, now: int): (fired: seq<Reminder>)
    ensures forall r :: r in fired <==> r in reminders && Due(parse, now, r)
  {
    var active := Filter(reminders, (r: Reminder) => r.active);
    FiredMembership(reminders, parse, now);
    Filter(active, r => Due(parse, now, r))
  }

  lemma FiredMembership(reminders: seq<Reminder>, parse: string -> Option<int>, now: int)
    ensures forall r :: r in Filter(Filter(reminders, (r: Reminder) => r.active), r => Due(parse, now, r))
                    <==> r in reminders && Due(parse, now, r)
  {
    var active := Filter(reminders, (r: Reminder) => r.active);
    forall r ensures r in Filter(active, r => Due(parse, now, r)) <==> r in reminders && Due(parse, now, r) {
      FilterMembership(reminders, (r: Reminder) => r.active, r);
      FilterMembership(active, r => Due(parse, now, r), r);
    }
  }

  /** `reminders.map(r => r.id === id ? { ...r, active: false } : r)`. */
  function DeactivateId(reminders: seq<Reminder>, id: string): (r: seq<Reminder>)
    ensures |r| == |reminders|
    ensures forall i :: 0 <= i < |r| ==>
      && r[i].active == (reminders[i].active && reminders[i].id != id)
      && r[i].(active := reminders[i].active) == reminders[i]
  {
    Map(reminders, (r: Reminder) => if r.id == id then r.(active := false) else r)
  }

  /** Every reminder whose id is in `ids` set inactive, nothing else changed. */
  function DeactivateAll(reminders: seq<Reminder>, ids: seq<string>): (r: seq<Reminder>)
    ensures |r| == |reminders|
    ensures forall i :: 0 <= i < |r| ==>
      && r[i].active == (reminders[i].active && reminders[i].id !in ids)
      && r[i].(active := reminders[i].active) == reminders[i]
  {
    Map(reminders, (r: Reminder) => if r.id in ids then r.(active := false) else r)
  }

  /** The ids of a list of reminders. */
  function Ids(rs: seq<Reminder>): (ids: seq<string>)
    ensures |ids| == |rs| && forall i :: 0 <= i < |rs| ==> ids[i] == rs[i].id
  {
    Map(rs, (r: Reminder) => r.id)
  }

  /** Deactivating one more id on top of a set of ids. */
  lemma DeactivateOneMore(reminders: seq<Reminder>, ids: seq<string>, id: string)
    ensures DeactivateId(DeactivateAll(reminders, ids), id) == DeactivateAll(reminders, ids + [id])
  {
    var a := DeactivateId(DeactivateAll(reminders, ids), id);
    var b := DeactivateAll(reminders, ids + [id]);
    assert forall i :: 0 <= i < |a| ==> a[i] == b[i];
  }

  /**
   * The list `checkReminders` saves as written: every firing maps over the list
   * as it was when the check started, so the last save wins and only the last
   * fired reminder ends up inactive.
   */
  function SavedAfterCheckAsWritten(reminders: seq<Reminder>, parse: string -> Option<int>, now: int)
    : (saved: seq<Reminder>)
    ensures Fired(reminders, parse, now) == [] ==> saved == reminders
    ensures var fired := Fired(reminders, parse, now);
      fired != [] ==>
        && |saved| == |reminders|
        && (forall i :: 0 <= i < |saved| ==>
              saved[i].active == (reminders[i].active && reminders[i].id != fired[|fired| - 1].id))
        && (forall i :: 0 <= i < |saved| ==> saved[i].(active := reminders[i].active) == reminders[i])
  {
    var fired := Fired(reminders, parse, now);
    if fired == [] then reminders else DeactivateId(reminders, fired[|fired| - 1].id)
  }

  /** What the check evidently means to save: every fired reminder inactive. */
  function SavedAfterCheck(reminders: seq<Reminder>, parse: string -> Option<int>, now: int)
    : (saved: seq<Reminder>)
  {
    DeactivateAll(reminders, Ids(Fired(reminders, parse, now)))
  }

  /**
   * After the corrected check no reminder is due any more, and a reminder keeps
   * its activity exactly when it was not fired; nothing but `active` changes.
   */
  lemma SavedAfterCheckSpec(reminders: seq<Reminder>, parse: string -> Option<int>, now: int)
    requires forall i, j :: 0 <= i < j < |reminders| ==> reminders[i].id != reminders[j].id
    ensures var saved := SavedAfterCheck(reminders, parse, now);
      && |saved| == |reminders|
      && (forall i :: 0 <= i < |saved| ==> !Due(parse, now, saved[i]))
      && (forall i :: 0 <= i < |saved| ==> saved[i].(active := reminders[i].active) == reminders[i])
      && (forall i :: 0 <= i < |saved| ==> saved[i].active == (reminders[i].active && !Due(parse, now, reminders[i])))
  {
    var fired := Fired(reminders, parse, now);
    var ids := Ids(fired);
    forall i | 0 <= i < |reminders|
      ensures reminders[i].id in ids <==> Due(parse, now, reminders[i])
    {
      if Due(parse, now, reminders[i]) {
        assert reminders[i] in fired;
        var k :| 0 <= k < |fired| && fired[k] == reminders[i];
        assert ids[k] == reminders[i].id;
      }
      if reminders[i].id in ids {
        var k :| 0 <= k < |ids| && ids[k] == reminders[i].id;
        assert fired[k] in reminders;
        var j :| 0 <= j < |reminders| && reminders[j] == fired[k];
        assert i == j;
      }
    }
  }

  /** With at most one reminder due, the check as written saves what the corrected check saves. */
  lemma AsWrittenAgreesOnSingleFiring(reminders: seq<Reminder>, parse: string -> Option<int>, now: int)
    requires |Fired(reminders, parse, now)| <= 1
    ensures SavedAfterCheckAsWritten(reminders, parse, now) == SavedAfterCheck(reminders, parse, now)
  {
    var fired := Fired(reminders, parse, now);
    var a := SavedAfterCheckAsWritten(reminders, parse, now);
    var b := SavedAfterCheck(reminders, parse, now);
    if fired == [] {
      assert forall i :: 0 <= i < |b| ==> a[i] == b[i];
    } else {
      assert Ids(fired) == [fired[0].id];
      assert forall i :: 0 <= i < |b| ==> a[i] == b[i];
    }
  }

  /**
   * The discrepancy: with two active reminders due in the same minute, the
   * check as written leaves the first one active, the corrected check does not.
   */
  lemma CheckAsWrittenKeepsFirstActive(a: Reminder, b: Reminder, parse: string -> Option<int>, now: int)
    requires a.id != b.id && Due(parse, now, a) && Due(parse, now, b)
    ensures SavedAfterCheckAsWritten([a, b], parse, now)[0].active
    ensures !SavedAfterCheck([a, b], parse, now)[0].active
  {
    var rs := [a, b];
    assert Filter(rs, (r: Reminder) => r.active) == rs by {
      FilterKeepsAll(rs, (r: Reminder) => r.active);
    }
    assert Fired(rs, parse, now) == rs by {
      FilterKeepsAll(rs, r => Due(parse, now, r));
    }
  }

  /** One iteration of the check: the next active reminder fires or not, and the saved list follows. */
  lemma CheckStep(original: seq<Reminder>, active: seq<Reminder>, k: nat, fired: seq<Reminder>,
                  parse: string -> Option<int>, now: int)
    requires k < |active| && fired == Filter(active[..k], r => Due(parse, now, r))
    ensures Due(parse, now, active[k]) ==>
      && fired + [active[k]] == Filter(active[..k + 1], r => Due(parse, now, r))
      && DeactivateId(DeactivateAll(original, Ids(fired)), active[k].id) == DeactivateAll(original, Ids(fired + [active[k]]))
    ensures !Due(parse, now, active[k]) ==> fired == Filter(active[..k + 1], r => Due(parse, now, r))
  {
    assert active[..k + 1] == active[..k] + [active[k]];
    FilterConcat(active[..k], [active[k]], r => Due(parse, now, r));
    DeactivateOneMore(original, Ids(fired), active[k].id);
    assert Ids(fired + [active[k]]) == Ids(fired) + [active[k].id];
  }

  /** `reminders.filter(r => r.id !== id)`. */
  function RemoveById(reminders: seq<Reminder>, id: string): (r: seq<Reminder>)
    ensures forall x :: x in r <==> x in reminders && x.id != id
  {
    FilterMembershipAll(reminders, id);
    Filter(reminders, (x: Reminder) => x.id != id)
  }

  lemma FilterMembershipAll(reminders: seq<Reminder>, id: string)
    ensures forall x :: x in Filter(reminders, (x: Reminder) => x.id != id) <==> x in reminders && x.id != id
  {
    forall x ensures x in Filter(reminders, (x: Reminder) => x.id != id) <==> x in reminders && x.id != id {
      FilterMembership(reminders, (x: Reminder) => x.id != id, x);
    }
  }

  /** Deleting keeps the other reminders in their order. */
  lemma RemoveByIdKeepsOrder(reminders: seq<Reminder>, id: string)
    ensures IsSubsequence(RemoveById(reminders, id), reminders)
  {
    FilterIsSubsequence(reminders, (x: Reminder) => x.id != id);
  }

  /** The component's state; `scheduled` stands for the notification timers armed so far. */
  class ReminderPanel {
    var reminders: seq<Reminder>
    var showAddForm: bool
    var selectedFeria: string
    var reminderDate: string
    var reminderTime: string
    var customMessage: string
    var scheduled: seq<Reminder>

    /** The empty panel. */
    constructor ()
      ensures reminders == [] && !showAddForm && scheduled == []
      ensures selectedFeria == "" && reminderDate == "" && reminderTime == "" && customMessage == ""
    {
      reminders := [];
      showAddForm := false;
      selectedFeria, reminderDate, reminderTime, customMessage := "", "", "", "";
      scheduled := [];
    }

    /** `resetForm`: clear the four form fields and hide the form. */
    method ResetForm()
      modifies this`selectedFeria, this`reminderDate, this`reminderTime, this`customMessage, this`showAddForm
      ensures selectedFeria == "" && reminderDate == "" && reminderTime == "" && customMessage == ""
      ensures !showAddForm
    {
      selectedFeria := "";
      reminderDate := "";
      reminderTime := "";
      customMessage := "";
      showAddForm := false;
    }

    /** `scheduleNotification`: arm a timer when the reminder lies strictly in the future. */
    method ScheduleNotification(reminder: Reminder, parse: string -> Option<int>, now: int)
      returns (delay: Option<int>)
      modifies this`scheduled
      ensures delay == NotificationDelay(parse, reminder.dateTime, now)
      ensures scheduled == old(scheduled) + (if Schedules(delay) then [reminder] else [])
    {
      delay := NotificationDelay(parse, reminder.dateTime, now);
      if Schedules(delay) {
        scheduled := scheduled + [reminder];
      }
    }

    /**
     * `addReminder`: validate the form, then append an active reminder for the
     * selected feria, schedule its notification and reset the form. An invalid
     * date passes the future check (a comparison with `NaN` is false) and is
     * added without a timer.
     */
    method AddReminder(ferias: seq<Feria>, parse: string -> Option<int>, now: int, newId: string)
      returns (outcome: AddOutcome)
      modifies this
      ensures outcome.MissingFields? <==> old(selectedFeria) == "" || old(reminderDate) == "" || old(reminderTime) == ""
      ensures outcome.UnknownFeria? <==>
        !outcome.MissingFields? && FindFirst(ferias, (f: Feria) => f.id == old(selectedFeria)).None?
      ensures outcome.NotInFuture? <==>
        && !outcome.MissingFields? && !outcome.UnknownFeria?
        && var t := parse(old(reminderDate) + "T" + old(reminderTime)); t.Some? && t.value <= now
      ensures !outcome.Added? ==>
        && reminders == old(reminders) && scheduled == old(scheduled)
        && selectedFeria == old(selectedFeria) && reminderDate == old(reminderDate)
        && reminderTime == old(reminderTime) && customMessage == old(customMessage)
        && showAddForm == old(showAddForm)
      ensures outcome.Added? ==>
        var feria := FindFirst(ferias, (f: Feria) => f.id == old(selectedFeria));
        var dateTime := old(reminderDate) + "T" + old(reminderTime);
        && feria.Some?
        && outcome.reminder == Reminder(newId, old(selectedFeria), feria.value.nombre, dateTime,
                                        ReminderMessage(old(customMessage), feria.value.nombre), true)
        && reminders == old(reminders) + [outcome.reminder]
        && scheduled == old(scheduled) + (if Schedules(NotificationDelay(parse, dateTime, now)) then [outcome.reminder] else [])
        && selectedFeria == "" && reminderDate == "" && reminderTime == "" && customMessage == ""
        && !showAddForm
    {
      if selectedFeria == "" || reminderDate == "" || reminderTime == "" {
        return MissingFields;
      }
      var selected := selectedFeria;
      var found := FindFirst(ferias, (f: Feria) => f.id == selected);
      if found.None? {
        return UnknownFeria;
      }
      var feria := found.value;
      var dateTime := reminderDate + "T" + reminderTime;
      var reminderDateTime := parse(dateTime);
      if reminderDateTime.Some? && reminderDateTime.value <= now {
        return NotInFuture;
      }
      var newReminder := Reminder(newId, selectedFeria, feria.nombre, dateTime,
                                  ReminderMessage(customMessage, feria.nombre), true);
      reminders := reminders + [newReminder];
      var _ := ScheduleNotification(newReminder, parse, now);
      ResetForm();
      outcome := Added(newReminder);
    }

    /** `deleteReminder`: drop every reminder with that id. */
    method DeleteReminder(id: string)
      modifies this`reminders
      ensures reminders == RemoveById(old(reminders), id)
    {
      reminders := Filter(reminders, (x: Reminder) => x.id != id);
    }

    /**
     * `checkReminders`, corrected: walk the active reminders, fire each one that
     * is due, and mark it inactive in the current list, so that every fired
     * reminder ends up inactive. Returns the fired reminders.
     */
    method CheckReminders(parse: string -> Option<int>, now: int) returns (fired: seq<Reminder>)
      modifies this`reminders
      ensures fired == Fired(old(reminders), parse, now)
      ensures reminders == SavedAfterCheck(old(reminders), parse, now)
    {
      var original := reminders;
      var activeReminders := Filter(reminders, (r: Reminder) => r.active);
      fired := [];
      for k := 0 to |activeReminders|
        invariant fired == Filter(activeReminders[..k], r => Due(parse, now, r))
        invariant reminders == DeactivateAll(original, Ids(fired))
      {
        var reminder := activeReminders[k];
        CheckStep(original, activeReminders, k, fired, parse, now);
        if Due(parse, now, reminder) {
          fired := fired + [reminder];
          reminders := DeactivateId(reminders, reminder.id);
        }
      }
      assert activeReminders[..|activeReminders|] == activeReminders;
    }
  }
}
