/** bot/_time_picker.py: the stand-alone time picker, whose payloads carry only the
    minutes flag and the time, and the two `/test` commands that open it. */
module TimePicker {
  import opened Wrappers
  import opened Telegram
  import opened Tables
  import opened Utils
  import opened TempManager
  import opened Router
  import InputPicker

  /** The unit labels "год" (hours) and "хв" (minutes). */
  const HourUnit := "\U{0433}\U{043E}\U{0434}"
  const MinuteUnit := "\U{0445}\U{0432}"

  /** `json.dumps([PICK_TIME, include_minutes, time])`. */
  function TimePayload(includeMinutes: Item, time: string): Payload
  {
    [Act(PickTime), includeMinutes, Str(time)]
  }

  /** One adjustment button: "  -5 год  " and the like, an hour offset when `isHour`. */
  function TimeButton(time: string, adjustment: int, isHour: bool, includeMinutes: Item, shift: ShiftTime): Button
  {
    var adjusted := if isHour then shift(time, adjustment, 0) else shift(time, 0, adjustment);
    Button("  " + InputPicker.Signed(adjustment) + " " + (if isHour then HourUnit else MinuteUnit) + "  ",
           TimePayload(includeMinutes, adjusted))
  }

  function TimeRow(time: string, adjustments: seq<int>, isHour: bool, includeMinutes: Item, shift: ShiftTime)
    : (row: seq<Button>)
    ensures |row| == |adjustments|
    ensures forall k :: 0 <= k < |adjustments| ==>
              row[k] == TimeButton(time, adjustments[k], isHour, includeMinutes, shift)
  {
    seq(|adjustments|, k requires 0 <= k < |adjustments| =>
      TimeButton(time, adjustments[k], isHour, includeMinutes, shift))
  }

  /** `pick_time`'s input: `include_minutes` from payload[1], the time from payload[2], or
      the suggested time when there is no payload[2]. */
  function TimeArgs(data: Payload, suggested: string): (r: Result<(Item, Item)>)
    ensures r.Success? <==> |data| >= 2
    ensures |data| > 2 ==> r == Success((data[1], data[2]))
    ensures |data| == 2 ==> r == Success((data[1], Str(suggested)))
  {
    if |data| < 2 then Failure(IndexError)
    else Success((data[1], if |data| > 2 then data[2] else Str(suggested)))
  }

  /** The keyboard: the confirm row with the label shifted by the timezone, the hour row,
      and the two minute rows when `include_minutes` is truthy. */
  function TimeRows(time: string, includeMinutes: Item, timezone: int, shift: ShiftTime): seq<seq<Button>>
  {
    [[Button(shift(time, timezone, 0), [Act(TimeChosen), Str(time)])],
     TimeRow(time, InputPicker.HourSteps, true, includeMinutes, shift)]
    + if Truthy(includeMinutes) then
        [TimeRow(time, InputPicker.MinuteSteps, false, includeMinutes, shift),
         TimeRow(time, InputPicker.WideMinuteSteps, false, includeMinutes, shift)]
      else []
  }

  /** Two rows, or four with the minute rows; confirm is `[TIME_CHOSEN, time]` under the
      shifted label; the offsets are -5, -1, +1, +5 hours and -5, -1, +1, +5 and -15, -10,
      +10, +15 minutes. */
  lemma TimeRowsShape(time: string, includeMinutes: Item, timezone: int, shift: ShiftTime)
    ensures var rows := TimeRows(time, includeMinutes, timezone, shift);
            (|rows| == 4 <==> Truthy(includeMinutes)) && (|rows| == 2 <==> !Truthy(includeMinutes))
            && rows[0] == [Button(shift(time, timezone, 0), [Act(TimeChosen), Str(time)])]
            && (forall k :: 0 <= k < 4 ==> rows[1][k].data == TimePayload(includeMinutes, shift(time, InputPicker.HourSteps[k], 0)))
            && (Truthy(includeMinutes) ==>
                  (forall k :: 0 <= k < 4 ==> rows[2][k].data == TimePayload(includeMinutes, shift(time, 0, InputPicker.MinuteSteps[k])))
                  && (forall k :: 0 <= k < 4 ==> rows[3][k].data == TimePayload(includeMinutes, shift(time, 0, InputPicker.WideMinuteSteps[k]))))
  {
  }

  /** Pressing an adjustment button redraws the picker with the same flag and the shifted
      time. */
  lemma AdjustmentKeepsFlag(time: string, adjustment: int, isHour: bool, includeMinutes: Item, shift: ShiftTime,
                            suggested: string)
    ensures var b := TimeButton(time, adjustment, isHour, includeMinutes, shift);
            TimeArgs(b.data, suggested)
            == Success((includeMinutes, Str(if isHour then shift(time, adjustment, 0) else shift(time, 0, adjustment))))
  {
  }

  /** What `pick_time` answers for a payload, a timezone and a suggested time; a time that
      is not a string, or a NULL timezone, cannot be shifted. */
  function TimeOutcome(timezone: Option<int>, data: Payload, suggested: string, shift: ShiftTime): (r: Result<Markup>)
    ensures r.Success? <==> |data| >= 2 && timezone.Some? && TimeArgs(data, suggested).value.1.Str?
    ensures r.Success? ==>
              r.value == Inline(TimeRows(TimeArgs(data, suggested).value.1.s, data[1], timezone.value, shift))
  {
    var (includeMinutes, time) :- TimeArgs(data, suggested);
    if !time.Str? || timezone.None? then Failure(TypeError)
    else Success(Inline(TimeRows(time.s, includeMinutes, timezone.value, shift)))
  }

  /** `pick_time(update)` with `suggest_reminder_time()` read as `suggested`. */
  method PickTimeMarkup(store: TempStore, update: Update, suggested: string, shift: ShiftTime)
    returns (r: Result<Markup>)
    modifies store
    ensures GetUser(update).Failure? ==> store.userParameters == old(store.userParameters)
    ensures GetUser(update).Success? ==> store.userParameters == old(store.CacheAfterRead(GetUser(update).value))
    ensures GetUser(update).Failure? ==> r == Failure(GetUser(update).error)
    ensures GetUser(update).Success? && old(store.CachedParameters(GetUser(update).value)).None? ==>
              r == Failure(AttributeError)
    ensures (GetUser(update).Success? && old(store.CachedParameters(GetUser(update).value)).Some?
             && update.callbackQuery.None?) ==> r == Failure(KeyError("callback_query"))
    ensures (GetUser(update).Success? && old(store.CachedParameters(GetUser(update).value)).Some?
             && update.callbackQuery.Some?) ==>
              r == TimeOutcome(old(store.CachedParameters(GetUser(update).value)).value.timezone,
                               update.callbackQuery.value.data, suggested, shift)
  {
    var u := GetUser(update);
    if u.Failure? {
      return Failure(u.error);
    }
    var parameters := store.GetUserParameters(u.value);
    if parameters.None? {
      return Failure(AttributeError);
    }
    var timezone := parameters.value.timezone;
    if update.callbackQuery.None? {
      return Failure(KeyError("callback_query"));
    }
    var data := update.callbackQuery.value.data;
    if |data| < 2 {
      return Failure(IndexError);
    }
    var includeMinutes := data[1];
    var time := if |data| > 2 then data[2] else Str(suggested);
    assert TimeArgs(data, suggested) == Success((includeMinutes, time));
    if !time.Str? || timezone.None? {
      return Failure(TypeError);
    }
    var rows := [[Button(shift(time.s, timezone.value, 0), [Act(TimeChosen), Str(time.s)])],
                 TimeRow(time.s, InputPicker.HourSteps, true, includeMinutes, shift)];
    if Truthy(includeMinutes) {
      rows := rows + [TimeRow(time.s, InputPicker.MinuteSteps, false, includeMinutes, shift),
                      TimeRow(time.s, InputPicker.WideMinuteSteps, false, includeMinutes, shift)];
    }
    assert rows == TimeRows(time.s, includeMinutes, timezone.value, shift);
    r := Success(Inline(rows));
  }

  /** `test(update)` and `test2(update)`: one PICK TIME button, with minutes or without. */
  function TestPage(includeMinutes: bool): (page: (string, Markup))
    ensures page.0 == "Test" && page.1.Inline? && |page.1.rows| == 1 && |page.1.rows[0]| == 1
    ensures page.1.rows[0][0].text == "PICK TIME" && page.1.rows[0][0].data == [Act(PickTime), Flag(includeMinutes)]
  {
    ("Test", Inline([[Button("PICK TIME", [Act(PickTime), Flag(includeMinutes)])]]))
  }

  /** The `/test` button opens the picker with minutes at the suggested time, `/test2`'s
      without minutes: four rows and two. */
  lemma TestPagesOpenPicker(timezone: int, suggested: string, shift: ShiftTime)
    ensures var data := TestPage(true).1.rows[0][0].data;
            TimeArgs(data, suggested) == Success((Flag(true), Str(suggested)))
            && TimeOutcome(Some(timezone), data, suggested, shift).Success?
            && |TimeOutcome(Some(timezone), data, suggested, shift).value.rows| == 4
    ensures var data := TestPage(false).1.rows[0][0].data;
            TimeArgs(data, suggested) == Success((Flag(false), Str(suggested)))
            && TimeOutcome(Some(timezone), data, suggested, shift).Success?
            && |TimeOutcome(Some(timezone), data, suggested, shift).value.rows| == 2
  {
    TimeRowsShape(suggested, Flag(true), timezone, shift);
    TimeRowsShape(suggested, Flag(false), timezone, shift);
  }

  /** The three decorations of this file: `/test` and `/test2` as text commands answered
      by sending, and PICK_TIME as a callback answered by editing the markup. */
  method RegisterTimePicker(table: RouteTable) returns (r: Result<()>)
    modifies table
    ensures r.Success?
    ensures table.routes
            == Registered(Registered(Registered(old(table.routes),
                 RouteKey("text", None, None, Some("/test")), FuncInfo("test", Some("send"), false)),
                 RouteKey("text", None, None, Some("/test2")), FuncInfo("test2", Some("send"), false)),
                 RouteKey("callback_query", None, Some(PickTime), None), FuncInfo("pick_time", Some("edit_markup"), false))
    ensures table.GetRoute("callback_query", None, Some(PickTime), None)
            == Success(FuncInfo("pick_time", Some("edit_markup"), false))
  {
    var a := table.Route("text", Some("send"), None, None, Some("/test"), false, "test");
    var b := table.Route("text", Some("send"), None, None, Some("/test2"), false, "test2");
    var c := table.Route("callback_query", Some("edit_markup"), None, Some(PickTime), None, false, "pick_time");
    r := Success(());
  }
}
