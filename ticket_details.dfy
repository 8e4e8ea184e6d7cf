/**
 * The ticket detail screen of the administrator front end: how a ticket
 * loaded from the REST API is turned into the editable details, how the
 * details are turned back into the update payload, and the edit-mode state
 * machine behind the Edit/Save and Cancel buttons.
 */
module TicketDetails {
  import opened Wrappers
  import opened Json
  import opened JsString

  // ---------------------------------------------------------------------------
  // formatDate

  /** A date as the back end sends it: the array `[year, month, day]`. */
  datatype DateArray = DateArray(year: int, month: int, day: int)

  /** A number 0..99 as exactly two decimal digits. */
  function TwoDigits(n: int): (s: string)
    requires 0 <= n <= 99
    ensures |s| == 2 && AllDigits(s)
  {
    [Digit(n / 10), Digit(n % 10)]
  }

  /** `String(n).padStart(2, '0')` is the two-digit form of any `n` in 0..99. */
  lemma PadTwo(n: int)
    requires 0 <= n <= 99
    ensures PadStart(IntToString(n), 2, '0') == TwoDigits(n)
  {
    if n < 10 {
      assert n / 10 == 0 && n % 10 == n;
      assert IntToString(n) == [Digit(n)];
      assert PadStart(IntToString(n), 2, '0') == Repeat('0', 1) + [Digit(n)];
    } else {
      var hi, lo := n / 10, n % 10;
      assert 1 <= hi <= 9 && 0 <= lo <= 9 && n == 10 * hi + lo;
      assert NatToString(n) == NatToString(hi) + [Digit(lo)];
      assert NatToString(hi) == [Digit(hi)];
    }
  }

  /**
   * `formatDate([y, m, d])`: the year in decimal (not padded), a dash, the
   * month padded with '0' to at least two characters, a dash, the day padded
   * the same way. With month and day in 0..99 both fields are exactly two
   * digits, as in the extended calendar-date form of section 4.1.2.2 of
   * ISO 8601:2004, except that the year is not padded to four digits.
   */
  function FormatDate(d: DateArray): string
  {
    IntToString(d.year) + "-" + Padded(d.month) + "-" + Padded(d.day)
  }

  /** The formatted date starts with the year and a dash, and has at least two characters per other field. */
  lemma FormatDateShape(d: DateArray)
    ensures var s, year := FormatDate(d), IntToString(d.year);
      |s| >= |year| + 6 && s[..|year|] == year && s[|year|] == '-'
  {
    var year, month, day := IntToString(d.year), Padded(d.month), Padded(d.day);
    JoinFields(year, month, day);
  }

  lemma JoinFields(year: string, month: string, day: string)
    requires |month| >= 2 && |day| >= 2
    ensures var s := year + "-" + month + "-" + day;
      |s| >= |year| + 6 && s[..|year|] == year && s[|year|] == '-'
  {
    var s := year + "-" + month + "-" + day;
    assert s == year + ("-" + month + "-" + day);
  }

  /** With month and day in 0..99 both fields are exactly two digits. */
  lemma FormatDateTwoDigitFields(d: DateArray)
    requires 0 <= d.month <= 99 && 0 <= d.day <= 99
    ensures FormatDate(d) == IntToString(d.year) + "-" + TwoDigits(d.month) + "-" + TwoDigits(d.day)
  {
  }

  /** A month or day field: `String(n).padStart(2, '0')`, two digits for 0..99. */
  function Padded(n: int): (s: string)
    ensures |s| >= 2
    ensures 0 <= n <= 99 ==> s == TwoDigits(n)
  {
    if 0 <= n <= 99 then PadTwo(n); PadStart(IntToString(n), 2, '0') else PadStart(IntToString(n), 2, '0')
  }

  /**
   * Reading `y-MM-DD` back: the last six characters are a dash, the month, a
   * dash and the day; everything before them is the year.
   */
  function ParseDate(s: string): (r: Option<DateArray>)
  {
    if |s| < 7 then None
    else
      var year, tail := s[..|s| - 6], s[|s| - 6..];
      var month, day := tail[1..3], tail[4..];
      if tail[0] == '-' && tail[3] == '-' && IsIntLiteral(year) && AllDigits(month) && AllDigits(day)
      then Some(DateArray(ParseInt(year), ParseNat(month), ParseNat(day)))
      else None
  }

  lemma ParseTwoDigits(n: int)
    requires 0 <= n <= 99
    ensures ParseNat(TwoDigits(n)) == n
  {
    var s := TwoDigits(n);
    assert s[..1] == [s[0]] && s[..1][..0] == [];
    assert ParseNat(s[..1]) == DigitValue(s[0]) == n / 10;
    assert DigitValue(s[1]) == n % 10;
  }

  /** With month and day in 0..99 the formatted date reads back as the date it was made from. */
  lemma FormatDateRoundTrip(d: DateArray)
    requires 0 <= d.month <= 99 && 0 <= d.day <= 99
    ensures ParseDate(FormatDate(d)) == Some(d)
  {
    FormatDateTwoDigitFields(d);
    ParseIntString(d.year);
    ParseJoined(IntToString(d.year), TwoDigits(d.month), TwoDigits(d.day));
    ParseTwoDigits(d.month);
    ParseTwoDigits(d.day);
  }

  /** `ParseDate` splits `year-MM-DD` back into its three fields. */
  lemma ParseJoined(year: string, month: string, day: string)
    requires IsIntLiteral(year) && |month| == 2 && |day| == 2 && AllDigits(month) && AllDigits(day)
    ensures ParseDate(year + "-" + month + "-" + day) == Some(DateArray(ParseInt(year), ParseNat(month), ParseNat(day)))
  {
    var tail := "-" + month + "-" + day;
    var s := year + "-" + month + "-" + day;
    assert s == year + tail;
    assert s[..|s| - 6] == year && s[|s| - 6..] == tail;
    assert tail[1..3] == month && tail[4..] == day;
  }

  // ---------------------------------------------------------------------------
  // Loading and saving

  /** What the screen shows as the close date of a ticket that has none. */
  const NotClosedYet := "Not closed yet"

  /** No formatted date is the "not closed" text: every formatted date has a dash, the text none. */
  lemma NotClosedYetIsNoDate(d: DateArray)
    ensures FormatDate(d) != NotClosedYet
  {
    FormatDateShape(d);
    DashIsNoText(FormatDate(d), |IntToString(d.year)|);
  }

  /** A string with a dash anywhere is not the "not closed" text. */
  lemma DashIsNoText(s: string, n: nat)
    requires n < |s| && s[n] == '-'
    ensures s != NotClosedYet
  {
    assert forall i :: 0 <= i < |NotClosedYet| ==> NotClosedYet[i] != '-';
  }

  /**
   * The body of `GET /tickets/ticket/{id}` as far as the screen reads it:
   * dates arrive as `[year, month, day]` arrays and a ticket that is not
   * closed has a `null` close date.
   */
  datatype TicketResponse = TicketResponse(
    id: Value, openDate: DateArray, closeDate: Option<DateArray>, status: Value,
    comment: Value, task: Value, equipment: Value, technician: Value)

  /** The eight properties of the ticket details object. */
  const DetailKeys: set<string> := {"id", "openDate", "closeDate", "status", "comment", "task", "equipment", "technician"}

  /** The close date as shown: the formatted date, or the "not closed" text when there is none. */
  function CloseDateShown(closeDate: Option<DateArray>): (v: Value)
    ensures v == Str(NotClosedYet) <==> closeDate == None
    ensures closeDate.Some? ==> v == Str(FormatDate(closeDate.value))
  {
    match closeDate
    case None => Str(NotClosedYet)
    case Some(d) => NotClosedYetIsNoDate(d); Str(FormatDate(d))
  }

  /** What a successful load puts into the details: both dates formatted, a missing close date shown as text. */
  function LoadDetails(res: TicketResponse): (d: Record)
    ensures Get(d, "closeDate") == CloseDateShown(res.closeDate)
    ensures Get(d, "openDate") == Str(FormatDate(res.openDate))
    ensures Get(d, "id") == res.id && Get(d, "status") == res.status
    ensures Get(d, "comment") == res.comment && Get(d, "task") == res.task
    ensures Get(d, "technician") == res.technician && Get(d, "equipment") == res.equipment
    ensures d.Keys == DetailKeys
  {
    Details(res, Str(FormatDate(res.openDate)), CloseDateShown(res.closeDate))
  }

  /** The details object of a loaded ticket, with its two dates already in display form. */
  function Details(res: TicketResponse, openDate: Value, closeDate: Value): (d: Record)
    ensures Get(d, "closeDate") == closeDate && Get(d, "openDate") == openDate
    ensures Get(d, "id") == res.id && Get(d, "status") == res.status
    ensures Get(d, "comment") == res.comment && Get(d, "task") == res.task
    ensures Get(d, "technician") == res.technician && Get(d, "equipment") == res.equipment
    ensures d.Keys == DetailKeys
  {
    map[
      "id" := res.id,
      "openDate" := openDate,
      "closeDate" := closeDate,
      "status" := res.status,
      "comment" := res.comment,
      "task" := res.task,
      "equipment" := res.equipment,
      "technician" := res.technician]
  }

  /** The close date to send: the "not closed" text and `null` become `null`, anything else goes unchanged. */
  function CloseDateToSend(v: Value): (r: Value)
    ensures r == Null <==> v == Str(NotClosedYet) || v == Null
    ensures r != Null ==> r == v
  {
    if v == Str(NotClosedYet) || v == Null then Null else v
  }

  /** The technician to send, as `saveChanges` writes it: `{cin: technician}` when truthy, else `null`. */
  function TechnicianToSendAsWritten(v: Value): (r: Value)
    ensures Truthy(v) <==> r != Null
    ensures Truthy(v) ==> r == Obj(map["cin" := v])
  {
    if Truthy(v) then Obj(map["cin" := v]) else Null
  }

  /**
   * The technician to send, corrected: the details hold either the loaded
   * technician object or the `cin` picked in the select; either way what is
   * sent is `{cin: <that cin>}`, and `null` when there is no technician.
   */
  function TechnicianToSend(v: Value): (r: Value)
    ensures Truthy(v) <==> r != Null
    ensures v.Str? && v.s != "" ==> r == Obj(map["cin" := v])
    ensures v.Obj? ==> r == Obj(map["cin" := Get(v.fields, "cin")])
  {
    if !Truthy(v) then Null
    else if v.Obj? then Obj(map["cin" := Get(v.fields, "cin")])
    else Obj(map["cin" := v])
  }

  /** The update payload with the technician field left to `technician`. */
  function Payload(details: Record, technician: Value): (p: Record)
    ensures Get(p, "closeDate") == CloseDateToSend(Get(details, "closeDate"))
    ensures Get(p, "technician") == technician
    ensures Get(p, "id") == Get(details, "id") && Get(p, "openDate") == Get(details, "openDate")
    ensures Get(p, "status") == Get(details, "status") && Get(p, "comment") == Get(details, "comment")
    ensures Get(p, "task") == Get(details, "task") && Get(p, "equipment") == Get(details, "equipment")
    ensures p.Keys == DetailKeys
  {
    map[
      "id" := Get(details, "id"),
      "openDate" := Get(details, "openDate"),
      "closeDate" := CloseDateToSend(Get(details, "closeDate")),
      "status" := Get(details, "status"),
      "comment" := Get(details, "comment"),
      "task" := Get(details, "task"),
      "equipment" := Get(details, "equipment"),
      "technician" := technician]
  }

  /** Every property of the payload other than the close date and the technician is copied from the details. */
  lemma PayloadCopies(details: Record, technician: Value, k: string)
    requires k in DetailKeys && k != "closeDate" && k != "technician"
    ensures Get(Payload(details, technician), k) == Get(details, k)
  {
  }

  /** The payload `saveChanges` builds, as written. */
  function SavePayloadAsWritten(details: Record): (p: Record)
    ensures p.Keys == DetailKeys
    ensures p["technician"] == TechnicianToSendAsWritten(Get(details, "technician"))
  {
    Payload(details, TechnicianToSendAsWritten(Get(details, "technician")))
  }

  /** The payload `saveChanges` evidently means to build; the rest of this model uses it. */
  function SavePayload(details: Record): (p: Record)
    ensures p.Keys == DetailKeys
    ensures p["technician"] == TechnicianToSend(Get(details, "technician"))
  {
    Payload(details, TechnicianToSend(Get(details, "technician")))
  }

  /**
   * The corrected payload differs from the one written only in its
   * technician, and only when the details hold the loaded technician object:
   * once a `cin` has been picked in the select (or there is no technician)
   * the two payloads are the same.
   */
  lemma PayloadsDifferOnlyInTechnician(details: Record)
    ensures SavePayload(details) == SavePayloadAsWritten(details)["technician" := TechnicianToSend(Get(details, "technician"))]
    ensures !Get(details, "technician").Obj? ==> SavePayload(details) == SavePayloadAsWritten(details)
  {
    var tech := Get(details, "technician");
    OverwriteTechnician(details, TechnicianToSendAsWritten(tech), TechnicianToSend(tech));
    if !tech.Obj? {
      assert TechnicianToSend(tech) == TechnicianToSendAsWritten(tech);
    }
  }

  /** Overwriting the technician of a payload is the payload built with the new technician. */
  lemma OverwriteTechnician(details: Record, t: Value, u: Value)
    ensures Payload(details, t)["technician" := u] == Payload(details, u)
  {
  }

  /**
   * Saving what was loaded sends a `null` close date exactly when the ticket
   * had none, and otherwise the formatted date, which reads back as the
   * loaded date.
   */
  lemma LoadThenSaveCloseDate(res: TicketResponse)
    ensures var p := SavePayload(LoadDetails(res));
      && (p["closeDate"] == Null <==> res.closeDate == None)
      && (res.closeDate.Some? ==> p["closeDate"] == Str(FormatDate(res.closeDate.value)))
    ensures var p := SavePayload(LoadDetails(res));
      res.closeDate.Some? && 0 <= res.closeDate.value.month <= 99 && 0 <= res.closeDate.value.day <= 99 ==>
        ParseDate(p["closeDate"].s) == res.closeDate
  {
    if res.closeDate.Some? && 0 <= res.closeDate.value.month <= 99 && 0 <= res.closeDate.value.day <= 99 {
      FormatDateRoundTrip(res.closeDate.value);
    }
  }

  /**
   * As written, a ticket loaded with a technician and saved without
   * touching the technician select sends the whole technician object as the
   * `cin`: `{cin: {cin: "T1"}}` instead of `{cin: "T1"}`.
   */
  lemma AsWrittenNestsTechnician(res: TicketResponse)
    requires res.technician == Obj(map["cin" := Str("T1")])
    ensures SavePayloadAsWritten(LoadDetails(res))["technician"] == Obj(map["cin" := Obj(map["cin" := Str("T1")])])
    ensures !Get(SavePayloadAsWritten(LoadDetails(res))["technician"].fields, "cin").Str?
  {
  }

  /**
   * The corrected payload sends the technician's `cin` string whether the
   * details hold the loaded technician object or a `cin` picked in the select.
   */
  lemma SaveSendsTechnicianCin(details: Record, cin: string)
    requires cin != ""
    requires || Get(details, "technician") == Str(cin)
             || (Get(details, "technician").Obj? && Get(Get(details, "technician").fields, "cin") == Str(cin))
    ensures SavePayload(details)["technician"] == Obj(map["cin" := Str(cin)])
  {
  }

  // ---------------------------------------------------------------------------
  // The edit-mode state machine

  /** The screen's state: its four `useState` hooks that matter here, and the loaded details. */
  datatype ViewState = ViewState(editMode: bool, readOnly: bool, changesMade: bool, details: Record, original: Record)

  /** The inputs are read-only exactly when the screen is not in edit mode. */
  predicate Consistent(v: ViewState)
  {
    v.readOnly == !v.editMode
  }

  /** The details before anything is loaded: empty strings, no equipment, no technician. */
  const BlankDetails: Record := map[
    "id" := Str(""), "openDate" := Str(""), "closeDate" := Str(""), "status" := Str(""),
    "comment" := Str(""), "task" := Str(""), "equipment" := Null, "technician" := Null]

  /** The state when the screen mounts. */
  function Initial(): (v: ViewState)
    ensures Consistent(v) && !v.editMode && !v.changesMade
    ensures v.details.Keys == DetailKeys && v.original == map[]
    ensures Get(v.details, "id") == Str("") && Get(v.details, "openDate") == Str("")
    ensures Get(v.details, "closeDate") == Str("") && Get(v.details, "status") == Str("")
    ensures Get(v.details, "comment") == Str("") && Get(v.details, "task") == Str("")
    ensures Get(v.details, "equipment") == Null && Get(v.details, "technician") == Null
  {
    ViewState(false, true, false, BlankDetails, map[])
  }

  /** A successful `getTicketDetails`: details and original details both become the loaded ticket. */
  function Loaded(v: ViewState, res: TicketResponse): (w: ViewState)
    ensures w.details == w.original == LoadDetails(res)
    ensures w.editMode == v.editMode && w.readOnly == v.readOnly && w.changesMade == v.changesMade
  {
    v.(details := LoadDetails(res), original := LoadDetails(res))
  }

  /** The state after `handleEditToggle`, and the payload it sent, if any. */
  datatype Toggled = Toggled(after: ViewState, sent: Option<Record>)

  /**
   * `handleEditToggle`: outside edit mode it enters edit mode; in edit mode
   * with changes it saves, leaves edit mode and clears the changes flag; in
   * edit mode without changes (the button is disabled then) it does nothing.
   */
  function EditToggle(v: ViewState): Toggled
  {
    if v.editMode && v.changesMade then
      Toggled(v.(editMode := false, readOnly := true, changesMade := false), Some(SavePayload(v.details)))
    else if !v.editMode then
      Toggled(v.(editMode := true, readOnly := false), None)
    else
      Toggled(v, None)
  }

  /** The Edit/Save button is disabled in edit mode while nothing has changed. */
  predicate ToggleDisabled(v: ViewState)
  {
    v.editMode && !v.changesMade
  }

  /** `handleCancel`: back to the original details, out of edit mode, no changes. */
  function Cancel(v: ViewState): ViewState
  {
    v.(editMode := false, readOnly := true, details := v.original, changesMade := false)
  }

  /** `handleInputChange`: the input named `name` now holds `value`, and there are changes. */
  function InputChange(v: ViewState, name: string, value: Value): ViewState
  {
    v.(details := v.details[name := value], changesMade := true)
  }

  lemma EditToggleCases(v: ViewState)
    ensures !v.editMode ==>
      var t := EditToggle(v);
      t.sent == None && t.after.editMode && !t.after.readOnly
      && t.after.changesMade == v.changesMade && t.after.details == v.details && t.after.original == v.original
    ensures v.editMode && v.changesMade ==>
      var t := EditToggle(v);
      t.sent == Some(SavePayload(v.details)) && !t.after.editMode && t.after.readOnly && !t.after.changesMade
      && t.after.details == v.details && t.after.original == v.original
    ensures ToggleDisabled(v) ==> EditToggle(v) == Toggled(v, None)
    ensures EditToggle(v).sent.Some? <==> v.editMode && v.changesMade
    ensures Consistent(v) ==> Consistent(EditToggle(v).after)
  {
  }

  lemma CancelRestores(v: ViewState)
    ensures var w := Cancel(v);
      w.details == v.original && w.original == v.original && !w.editMode && w.readOnly && !w.changesMade
    ensures Consistent(Cancel(v))
  {
  }

  lemma InputChangeUpdatesOneField(v: ViewState, name: string, value: Value)
    ensures var w := InputChange(v, name, value);
      && Get(w.details, name) == value
      && w.details.Keys == v.details.Keys + {name}
      && (forall k :: k != name ==> Get(w.details, k) == Get(v.details, k))
      && w.changesMade && w.editMode == v.editMode && w.readOnly == v.readOnly && w.original == v.original
    ensures Consistent(v) ==> Consistent(InputChange(v, name, value))
  {
  }

  /** An edit followed by Save sends the edited value (for a field the payload carries as is). */
  lemma EditThenSaveSendsEdit(v: ViewState, name: string, value: Value)
    requires v.editMode
    requires name in DetailKeys && name != "closeDate" && name != "technician"
    ensures var t := EditToggle(InputChange(v, name, value));
      t.sent.Some? && t.sent.value[name] == value && !t.after.changesMade
  {
    var edited := InputChange(v, name, value);
    PayloadCopies(edited.details, TechnicianToSend(Get(edited.details, "technician")), name);
  }

  /** The user events the screen reacts to. */
  datatype Event = ToggleClick | CancelClick | Input(name: string, value: Value) | Load(res: TicketResponse)

  function Apply(v: ViewState, e: Event): ViewState
  {
    match e
    case ToggleClick => EditToggle(v).after
    case CancelClick => Cancel(v)
    case Input(name, value) => InputChange(v, name, value)
    case Load(res) => Loaded(v, res)
  }

  /** The state after a sequence of events, in order. */
  function Run(v: ViewState, es: seq<Event>): ViewState
    decreases |es|
  {
    if es == [] then v else Run(Apply(v, es[0]), es[1..])
  }

  /** Whatever the user does, the inputs stay read-only exactly outside edit mode. */
  lemma {:induction false} RunKeepsConsistent(v: ViewState, es: seq<Event>)
    requires Consistent(v)
    ensures Consistent(Run(v, es))
    decreases |es|
  {
    if es != [] {
      match es[0] {
        case ToggleClick => EditToggleCases(v);
        case CancelClick => CancelRestores(v);
        case Input(name, value) => InputChangeUpdatesOneField(v, name, value);
        case Load(res) =>
      }
      RunKeepsConsistent(Apply(v, es[0]), es[1..]);
    }
  }

  /**
   * Only a load changes the original details, so whatever was edited,
   * Cancel after any run of events without a load returns to what was loaded.
   */
  lemma {:induction false} CancelAfterEditsRestoresLoaded(v: ViewState, es: seq<Event>)
    requires forall i :: 0 <= i < |es| ==> !es[i].Load?
    ensures Run(v, es).original == v.original
    ensures Cancel(Run(v, es)).details == v.original
    decreases |es|
  {
    if es != [] {
      assert !es[0].Load?;
      CancelAfterEditsRestoresLoaded(Apply(v, es[0]), es[1..]);
    }
  }

  // ---------------------------------------------------------------------------
  // The screen

  class TicketDetailsView {
    var editMode: bool
    var readOnly: bool
    var changesMade: bool
    var ticketDetails: Record
    var originalDetails: Record

    function State(): ViewState
      reads this
    {
      ViewState(editMode, readOnly, changesMade, ticketDetails, originalDetails)
    }

    ghost predicate Valid()
      reads this
    {
      Consistent(State())
    }

    constructor ()
      ensures Valid() && State() == Initial()
    {
      editMode, readOnly, changesMade := false, true, false;
      ticketDetails, originalDetails := BlankDetails, map[];
    }

    /** The success branch of `getTicketDetails`. */
    method TicketLoaded(res: TicketResponse)
      requires Valid()
      modifies this
      ensures Valid() && State() == Loaded(old(State()), res)
    {
      ghost var v := State();
      var details := LoadDetails(res);
      ticketDetails := details;
      originalDetails := details;
      assert State() == v.(details := details, original := details);
    }

    /** `handleEditToggle`; `sent` is the payload handed to the update request, if one is sent. */
    method HandleEditToggle() returns (sent: Option<Record>)
      requires Valid()
      modifies this
      ensures Valid() && Toggled(State(), sent) == EditToggle(old(State()))
    {
      sent := None;
      if editMode && changesMade {
        sent := Some(SavePayload(ticketDetails));
        editMode := false;
        readOnly := true;
        changesMade := false;
      } else if !editMode {
        editMode := true;
        readOnly := false;
      }
    }

    method HandleCancel()
      requires Valid()
      modifies this
      ensures Valid() && State() == Cancel(old(State()))
    {
      editMode := false;
      readOnly := true;
      ticketDetails := originalDetails;
      changesMade := false;
    }

    method HandleInputChange(name: string, value: Value)
      requires Valid()
      modifies this
      ensures Valid() && State() == InputChange(old(State()), name, value)
    {
      ticketDetails := ticketDetails[name := value];
      changesMade := true;
    }

    /** Whether the Close button is rendered. */
    method CloseButtonShown() returns (shown: bool)
      ensures shown <==> Get(ticketDetails, "status") != Str("closed")
    {
      shown := Get(ticketDetails, "status") != Str("closed");
    }

    /** Whether the Edit/Save button is disabled. */
    method EditButtonDisabled() returns (disabled: bool)
      ensures disabled <==> editMode && !changesMade
    {
      disabled := editMode && !changesMade;
    }
  }
}
