/** Scheduled runs of a tool: the list kept by the schedule panel
    (src/components/schedule/schedule-interface.tsx) and the create/edit
    form (src/components/schedule/schedule-form.tsx). Server calls are
    inputs: a returned entry, or None for a rejected request. */
module Schedules {
  import opened Common
  import opened Json
  import Cron

  /** The fields of `ScheduleConfigEntry` the panel and the form use. */
  datatype Schedule = Schedule(
    id: string,
    toolId: string,
    name: string,
    description: Option<string>,
    cronExpression: string,
    timezone: string,
    isActive: bool)

  datatype Panel = Panel(
    schedules: seq<Schedule>,
    isLoading: bool,
    showForm: bool,
    editing: Option<Schedule>)

  const InitialPanel := Panel([], true, false, None)

  function IdIs(id: string): Schedule -> bool {
    (s: Schedule) => s.id == id
  }

  function IdIsNot(id: string): Schedule -> bool {
    (s: Schedule) => s.id != id
  }

  function Becomes(entry: Schedule): Schedule -> Schedule {
    (s: Schedule) => entry
  }

  /** `prev.map(s => s.id === id ? entry : s)` */
  function ReplaceById(list: seq<Schedule>, id: string, entry: Schedule): (r: seq<Schedule>)
    ensures |r| == |list|
    ensures forall i :: 0 <= i < |list| ==> r[i] == (if list[i].id == id then entry else list[i])
  {
    MapWhere(list, IdIs(id), Becomes(entry))
  }

  /** The request a toggle sends: the entry's id and the opposite of its
      current state. */
  datatype ToggleRequest = ToggleRequest(id: string, isActive: bool)

  /** `handleToggle`: on success the server's entry replaces every entry
      with that id; on failure the list stays. */
  function OnToggle(p: Panel, schedule: Schedule, answer: Option<Schedule>): (r: (Panel, ToggleRequest))
    ensures r.1 == ToggleRequest(schedule.id, !schedule.isActive)
    ensures answer.None? ==> r.0 == p
    ensures answer.Some? ==> r.0 == p.(schedules := ReplaceById(p.schedules, schedule.id, answer.value))
  {
    var request := ToggleRequest(schedule.id, !schedule.isActive);
    match answer
    case None => (p, request)
    case Some(updated) => (p.(schedules := ReplaceById(p.schedules, schedule.id, updated)), request)
  }

  /** `handleDelete`: nothing at all without confirmation; the delete
      request goes out after it, and only a successful one drops the
      entries with that id. */
  function OnDelete(p: Panel, schedule: Schedule, confirmed: bool, ok: bool): (r: (Panel, Option<string>))
    ensures !confirmed ==> r == (p, None)
    ensures confirmed ==> r.1 == Some(schedule.id)
    ensures !ok ==> r.0 == p
    ensures confirmed && ok ==> r.0 == p.(schedules := Filter(p.schedules, IdIsNot(schedule.id)))
  {
    if !confirmed then (p, None)
    else if ok then (p.(schedules := Filter(p.schedules, IdIsNot(schedule.id))), Some(schedule.id))
    else (p, Some(schedule.id))
  }

  /** `handleFormSubmit`: an edit replaces the entry with the submitted
      id, a new entry goes first; the form closes either way. */
  function OnFormSubmit(p: Panel, entry: Schedule): (r: Panel)
    ensures !r.showForm && r.editing.None? && r.isLoading == p.isLoading
    ensures p.editing.Some? ==> r.schedules == ReplaceById(p.schedules, entry.id, entry)
    ensures p.editing.None? ==> r.schedules == [entry] + p.schedules
  {
    var schedules := if p.editing.Some? then ReplaceById(p.schedules, entry.id, entry) else [entry] + p.schedules;
    p.(schedules := schedules, showForm := false, editing := None)
  }

  function OnEdit(p: Panel, schedule: Schedule): (r: Panel)
    ensures r.showForm && r.editing == Some(schedule) && r.schedules == p.schedules
  {
    p.(editing := Some(schedule), showForm := true)
  }

  /** The fetch: a result replaces the list, a failure keeps it, and
      loading ends in both cases. */
  function OnFetched(p: Panel, result: Option<seq<Schedule>>): (r: Panel)
    ensures !r.isLoading
    ensures result.Some? ==> r.schedules == result.value
    ensures result.None? ==> r.schedules == p.schedules
  {
    p.(schedules := result.GetOr(p.schedules), isLoading := false)
  }

  /** A toggle whose answer is the entry flipped, then a toggle of that
      answer whose answer is the original entry, restores the list. */
  lemma ToggleTwiceRestores(p: Panel, s: Schedule)
    requires forall i :: 0 <= i < |p.schedules| && p.schedules[i].id == s.id ==> p.schedules[i] == s
    ensures var flipped := s.(isActive := !s.isActive);
            var once := OnToggle(p, s, Some(flipped));
            var twice := OnToggle(once.0, flipped, Some(s));
            && once.1.isActive != s.isActive
            && twice.1.isActive == s.isActive
            && twice.0 == p
  {
    var flipped := s.(isActive := !s.isActive);
    var once := ReplaceById(p.schedules, s.id, flipped);
    var twice := ReplaceById(once, s.id, s);
    assert twice == p.schedules;
  }

  /** After a confirmed, successful delete no entry has that id and every
      other entry is still there, in order. */
  lemma DeleteRemovesOnlyThatId(p: Panel, s: Schedule)
    ensures var r := OnDelete(p, s, true, true).0;
            && (forall e :: e in r.schedules ==> e.id != s.id)
            && (forall e :: e in p.schedules && e.id != s.id ==> e in r.schedules)
            && KeptInOrder(r.schedules, p.schedules, IdIsNot(s.id))
  {
    FilterIsKept(p.schedules, IdIsNot(s.id));
  }

  /** Submitting an edit keeps the number of entries; submitting a new
      entry adds exactly one, in front. */
  lemma SubmitCounts(p: Panel, entry: Schedule)
    ensures p.editing.Some? ==> |OnFormSubmit(p, entry).schedules| == |p.schedules|
    ensures p.editing.None? ==>
              |OnFormSubmit(p, entry).schedules| == |p.schedules| + 1 && OnFormSubmit(p, entry).schedules[0] == entry
  {
  }

  // ----- the form -----------------------------------------------------------------

  datatype FormValues = FormValues(name: string, description: Option<string>, cronExpression: string, timezone: string)

  const MaxName := 100
  const MaxDescription := 500
  const DefaultCron := "0 9 * * MON-FRI"
  const FallbackZone := "UTC"

  /** The zod schema of the form. */
  predicate Valid(v: FormValues) {
    && 1 <= |v.name| <= MaxName
    && (v.description.None? || |v.description.value| <= MaxDescription)
    && |v.cronExpression| >= 1
    && |v.timezone| >= 1
  }

  /** `a || b` on strings. */
  function OrString(a: string, b: string): (r: string)
    ensures a != "" ==> r == a
    ensures a == "" ==> r == b
  {
    if a != "" then a else b
  }

  /** The default values: those of the schedule being edited, each
      falling back when empty; the browser's zone (a parameter here) or
      'UTC' for the timezone. */
  function Defaults(schedule: Option<Schedule>, browserZone: string): (r: FormValues)
    ensures schedule.None? ==> r == FormValues("", Some(""), DefaultCron, OrString(browserZone, FallbackZone))
    ensures r.cronExpression != "" && r.timezone != ""
    ensures r.description.Some?
  {
    match schedule
    case None => FormValues("", Some(""), DefaultCron, OrString(browserZone, FallbackZone))
    case Some(s) =>
      FormValues(s.name, Some(s.description.GetOr("")), OrString(s.cronExpression, DefaultCron),
                 OrString(s.timezone, OrString(browserZone, FallbackZone)))
  }

  /** A new form cannot be submitted as it opens: only the name is
      missing, and any name of 1 to 100 characters makes it valid. */
  lemma NewFormNeedsOnlyAName(browserZone: string, name: string)
    ensures !Valid(Defaults(None, browserZone))
    ensures 1 <= |name| <= MaxName ==> Valid(Defaults(None, browserZone).(name := name))
  {
  }

  /** The default expression is one of the builder's presets, so the
      builder opens in preset mode. */
  lemma DefaultCronIsPreset()
    ensures DefaultCron in Cron.Presets
    ensures Cron.OnValue(Cron.InitialBuilder(DefaultCron), DefaultCron).mode == Cron.PresetMode
  {
  }

  /** Editing a schedule that would pass the schema opens the form on
      exactly its values. */
  lemma EditDefaultsAreTheSchedule(s: Schedule, browserZone: string)
    requires Valid(FormValues(s.name, s.description, s.cronExpression, s.timezone))
    ensures Defaults(Some(s), browserZone)
            == FormValues(s.name, Some(s.description.GetOr("")), s.cronExpression, s.timezone)
  {
  }

  /** What `handleSubmit` sends: an update of name, description and
      expression for an edit, a creation with an empty `inputData` for a
      new schedule. The timezone is in neither. */
  datatype SaveRequest =
    | UpdateSchedule(id: string, name: string, description: Option<string>, cronExpression: string)
    | CreateSchedule(toolId: string, name: string, description: Option<string>, cronExpression: string, inputData: Json)

  datatype SubmitResult = SubmitResult(request: SaveRequest, submitted: Option<Schedule>, isSubmitting: bool)

  function HandleSubmit(schedule: Option<Schedule>, toolId: string, data: FormValues,
                        answer: Option<Schedule>): (r: SubmitResult)
    requires Valid(data)
    ensures schedule.Some? ==> r.request == UpdateSchedule(schedule.value.id, data.name, data.description, data.cronExpression)
    ensures schedule.None? ==> r.request == CreateSchedule(toolId, data.name, data.description, data.cronExpression, JObj(map[]))
    ensures r.submitted == answer
    ensures !r.isSubmitting
  {
    var request :=
      if schedule.Some? then UpdateSchedule(schedule.value.id, data.name, data.description, data.cronExpression)
      else CreateSchedule(toolId, data.name, data.description, data.cronExpression, JObj(map[]));
    SubmitResult(request, answer, false)
  }

  /** The chosen timezone never reaches the server: changing it changes
      nothing the submit does. */
  lemma TimezoneNotSent(schedule: Option<Schedule>, toolId: string, data: FormValues, zone: string,
                        answer: Option<Schedule>)
    requires Valid(data) && zone != ""
    ensures HandleSubmit(schedule, toolId, data.(timezone := zone), answer) == HandleSubmit(schedule, toolId, data, answer)
  {
  }

  /** The whole edit flow: the panel opens the form on an entry, the form
      sends an update for that entry's id, and the server's answer with
      that id replaces it in the panel, which closes the form. */
  lemma EditFlow(p: Panel, s: Schedule, data: FormValues, saved: Schedule, browserZone: string)
    requires Valid(data) && saved.id == s.id
    ensures var editing := OnEdit(p, s);
            var result := HandleSubmit(editing.editing, s.toolId, data, Some(saved));
            var closed := OnFormSubmit(editing, result.submitted.value);
            && result.request.UpdateSchedule? && result.request.id == s.id
            && !closed.showForm && closed.editing.None?
            && closed.schedules == ReplaceById(p.schedules, s.id, saved)
  {
  }
}
