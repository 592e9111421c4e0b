/** bot/_input_picker.py: the time picker with optional minute rows, whose adjustment
    buttons carry all of its parameters, and the number keyboard. `shift_time` and the
    clock read by `get_hh_mm` are not part of this model; they are passed in. */
module InputPicker {
  import opened Wrappers
  import opened Text
  import opened Telegram
  import opened Tables
  import opened Utils
  import opened Translations
  import opened TempManager

  /** `f"{n:+}"`: the sign is always written. */
  function Signed(n: int): (r: string)
    ensures n >= 0 ==> r == "+" + IntToString(n)
    ensures n < 0 ==> r == IntToString(n)
  {
    if n >= 0 then "+" + IntToString(n) else IntToString(n)
  }

  /** The hour row's offsets, and the two minute rows'. */
  const HourSteps: seq<int> := [-5, -1, 1, 5]
  const MinuteSteps: seq<int> := [-5, -1, 1, 5]
  const WideMinuteSteps: seq<int> := [-15, -10, 10, 15]

  /** The parameters other than the time, as they ride along in every adjustment payload
      (each a JSON value; Null for None). */
  datatype PickerArgs = PickerArgs(includeMinutes: Item, next: Item, back: Item, realTimeMins: Item,
                                   adjustToTimezone: Item)

  /** The payload of an adjustment button: PICK_TIME, the adjusted time, and the rest of
      the parameters unchanged. */
  function AdjustmentPayload(time: string, args: PickerArgs): Payload
  {
    [Act(PickTime), Str(time), args.includeMinutes, args.next, args.back, args.realTimeMins, args.adjustToTimezone]
  }

  /** One button of `build_adjustment_row`: an hour offset when `isHour`, else a minute offset. */
  function AdjustmentButton(time: string, unit: string, adjustment: int, isHour: bool, args: PickerArgs,
                            shift: ShiftTime): Button
  {
    var adjusted := if isHour then shift(time, adjustment, 0) else shift(time, 0, adjustment);
    Button("  " + Signed(adjustment) + " " + unit + "  ", AdjustmentPayload(adjusted, args))
  }

  function AdjustmentRow(time: string, unit: string, adjustments: seq<int>, isHour: bool, args: PickerArgs,
                         shift: ShiftTime): (row: seq<Button>)
    ensures |row| == |adjustments|
    ensures forall k :: 0 <= k < |adjustments| ==>
              row[k] == AdjustmentButton(time, unit, adjustments[k], isHour, args, shift)
  {
    seq(|adjustments|, k requires 0 <= k < |adjustments| =>
      AdjustmentButton(time, unit, adjustments[k], isHour, args, shift))
  }

  /** `build_adjustment_row(label, adjustments, is_hour)`: one button per offset, in order. */
  method BuildAdjustmentRow(time: string, unit: string, adjustments: seq<int>, isHour: bool, args: PickerArgs,
                            shift: ShiftTime) returns (buttons: seq<Button>)
    ensures buttons == AdjustmentRow(time, unit, adjustments, isHour, args, shift)
  {
    buttons := [];
    var i := 0;
    while i < |adjustments|
      invariant 0 <= i <= |adjustments|
      invariant buttons == AdjustmentRow(time, unit, adjustments[..i], isHour, args, shift)
    {
      var adjustedTime := if isHour then shift(time, adjustments[i], 0) else shift(time, 0, adjustments[i]);
      buttons := buttons + [Button("  " + Signed(adjustments[i]) + " " + unit + "  ",
                                   AdjustmentPayload(adjustedTime, args))];
      i := i + 1;
    }
    assert adjustments[..i] == adjustments;
  }

  /** The keyboard: the confirm row, the hour row, the two minute rows when minutes are
      included, and the back row. */
  function PickerRows(time: string, args: PickerArgs, timezone: int, hoursLabel: string, minutesLabel: string,
                      shift: ShiftTime): seq<seq<Button>>
  {
    [[Button(shift(time, timezone, 0), [args.next, Str(time)])],
     AdjustmentRow(time, hoursLabel, HourSteps, true, args, shift)]
    + (if Truthy(args.includeMinutes) then
         [AdjustmentRow(time, minutesLabel, MinuteSteps, false, args, shift),
          AdjustmentRow(time, minutesLabel, WideMinuteSteps, false, args, shift)]
       else [])
    + [[Button(BackLabel, [args.back])]]
  }

  /** The rows as `pick_time` builds them: a list literal, extended, then appended to. */
  method PickerKeyboard(time: string, args: PickerArgs, timezone: int, hoursLabel: string, minutesLabel: string,
                        shift: ShiftTime) returns (rows: seq<seq<Button>>)
    ensures rows == PickerRows(time, args, timezone, hoursLabel, minutesLabel, shift)
  {
    var hourRow := BuildAdjustmentRow(time, hoursLabel, HourSteps, true, args, shift);
    rows := [[Button(shift(time, timezone, 0), [args.next, Str(time)])], hourRow];
    if Truthy(args.includeMinutes) {
      var fine := BuildAdjustmentRow(time, minutesLabel, MinuteSteps, false, args, shift);
      var wide := BuildAdjustmentRow(time, minutesLabel, WideMinuteSteps, false, args, shift);
      rows := rows + [fine, wide];
    }
    rows := rows + [[Button(BackLabel, [args.back])]];
  }

  /** Three rows, or five with the minute rows; the confirm row chooses the time itself and
      only its label is shifted; the offsets are -5, -1, +1, +5 hours and -5, -1, +1, +5 and
      -15, -10, +10, +15 minutes; the back row carries the back action. */
  lemma PickerRowsShape(time: string, args: PickerArgs, timezone: int, hoursLabel: string, minutesLabel: string,
                        shift: ShiftTime)
    ensures var rows := PickerRows(time, args, timezone, hoursLabel, minutesLabel, shift);
            (|rows| == 5 <==> Truthy(args.includeMinutes)) && (|rows| == 3 <==> !Truthy(args.includeMinutes))
            && rows[0] == [Button(shift(time, timezone, 0), [args.next, Str(time)])]
            && |rows[1]| == 4
            && (forall k :: 0 <= k < 4 ==> rows[1][k].data[1] == Str(shift(time, HourSteps[k], 0)))
            && (Truthy(args.includeMinutes) ==>
                  |rows[2]| == 4 && |rows[3]| == 4
                  && (forall k :: 0 <= k < 4 ==> rows[2][k].data[1] == Str(shift(time, 0, MinuteSteps[k])))
                  && (forall k :: 0 <= k < 4 ==> rows[3][k].data[1] == Str(shift(time, 0, WideMinuteSteps[k]))))
            && rows[|rows| - 1] == [Button(BackLabel, [args.back])]
  {
  }

  /** `..., adjust_to_timezone = callback_data[1:]`: exactly six values after the action. */
  function UnpackPicker(data: Payload): (r: Result<(Item, PickerArgs)>)
    ensures r.Success? <==> |data| == 7
    ensures r.Failure? ==> r.error.ValueError?
  {
    if |data| != 7 then Failure(ValueError("wrong number of values to unpack"))
    else Success((data[1], PickerArgs(data[2], data[3], data[4], data[5], data[6])))
  }

  /** Every adjustment button, unpacked as a redraw unpacks it, gives back the adjusted time
      and every other parameter as it was. */
  lemma AdjustmentRoundTrip(time: string, unit: string, adjustment: int, isHour: bool, args: PickerArgs,
                            shift: ShiftTime)
    ensures var b := AdjustmentButton(time, unit, adjustment, isHour, args, shift);
            UnpackPicker(b.data) == Success((b.data[1], args))
            && b.data[1] == Str(if isHour then shift(time, adjustment, 0) else shift(time, 0, adjustment))
  {
  }

  /** The time and parameters `pick_time` works with: the call's own when any of them is
      truthy, otherwise those unpacked from the pressed button. */
  function PickerInput(update: Update, time: Item, args: PickerArgs): (r: Result<(Item, PickerArgs)>)
    ensures (Truthy(time) || Truthy(args.includeMinutes) || Truthy(args.next) || Truthy(args.back)
             || Truthy(args.realTimeMins) || Truthy(args.adjustToTimezone)) ==> r == Success((time, args))
  {
    if Truthy(time) || Truthy(args.includeMinutes) || Truthy(args.next) || Truthy(args.back)
       || Truthy(args.realTimeMins) || Truthy(args.adjustToTimezone) then Success((time, args))
    else if update.callbackQuery.None? then Failure(KeyError("callback_query"))
    else UnpackPicker(update.callbackQuery.value.data)
  }

  /** The time the keyboard is built around: with `real_time_mins`, the hour of `time` and
      the minute of the clock reading `now` (minutes may not be included then). A time that
      is not a string cannot be split or shifted. */
  function PickerTime(time: Item, args: PickerArgs, now: string): (r: Result<string>)
    ensures Truthy(args.realTimeMins) && Truthy(args.includeMinutes) ==>
              r == Failure(ValueError("Two conflicting parameters are enabled"))
    ensures !Truthy(args.realTimeMins) && time.Str? ==> r == Success(time.s)
  {
    if Truthy(args.realTimeMins) then
      if Truthy(args.includeMinutes) then Failure(ValueError("Two conflicting parameters are enabled"))
      else if !time.Str? then Failure(AttributeError)
      else
        var pieces := Split(time.s, ':');
        var clock := Split(now, ':');
        if |pieces| != 2 || |clock| != 2 then Failure(ValueError("wrong number of values to unpack"))
        else Success(pieces[0] + ":" + clock[1])
    else if time.Str? then Success(time.s)
    else Failure(TypeError)
  }

  /** The rest of `pick_time` once the input is known: the two unit labels, the time, and
      the keyboard; a NULL timezone cannot be shifted by. */
  function PickerOutcome(input: (Item, PickerArgs), lang: Option<string>, timezone: Option<int>, now: string,
                         shift: ShiftTime): (r: Result<Markup>)
    ensures r.Success? ==>
              Translate(lang, "short_hours", map[]).Success? && Translate(lang, "short_minutes", map[]).Success?
              && PickerTime(input.0, input.1, now).Success? && timezone.Some?
              && r.value == Inline(PickerRows(PickerTime(input.0, input.1, now).value, input.1, timezone.value,
                                              Translate(lang, "short_hours", map[]).value,
                                              Translate(lang, "short_minutes", map[]).value, shift))
  {
    var h :- Translate(lang, "short_hours", map[]);
    var mins :- Translate(lang, "short_minutes", map[]);
    var t :- PickerTime(input.0, input.1, now);
    if timezone.None? then Failure(TypeError)
    else Success(Inline(PickerRows(t, input.1, timezone.value, h, mins, shift)))
  }

  /** The string table has neither unit label, so the picker ends in a KeyError before any
      keyboard is built. */
  lemma PickerOutcomeFails(input: (Item, PickerArgs), lang: Option<string>, timezone: Option<int>, now: string,
                           shift: ShiftTime)
    ensures PickerOutcome(input, lang, timezone, now, shift)
            == Failure(KeyError(if NormalizeLang(lang) == "uk" then "uk" else "short_hours"))
  {
    MissingKeyFails(lang, "short_hours", map[]);
  }

  /** The timezone `pick_time` shows the confirm label in: the user's when the call's own
      `adjust_to_timezone` is truthy, else 0. It is read before the payload is unpacked. */
  function PickerTimezone(parameters: UserRow, adjustToTimezone: Item): Option<int>
  {
    if Truthy(adjustToTimezone) then parameters.timezone else Some(0)
  }

  /** A redraw from an adjustment button passes no arguments, so the confirm label falls
      back to timezone 0 although the payload carries `adjust_to_timezone`. */
  lemma RedrawIgnoresTimezone(update: Update, parameters: UserRow, args: PickerArgs)
    requires update.callbackQuery.Some? && |update.callbackQuery.value.data| == 7
    ensures var none := PickerArgs(Null, Null, Null, Null, Null);
            PickerInput(update, Null, none) == UnpackPicker(update.callbackQuery.value.data)
            && PickerTimezone(parameters, none.adjustToTimezone) == Some(0)
  {
  }

  /** `pick_time(update, time, include_minutes, next_query_action, back_button_action,
      real_time_mins, adjust_to_timezone)` with the clock reading `now`. */
  method PickTimeKeyboard(store: TempStore, update: Update, time: Item, args: PickerArgs, now: string,
                          shift: ShiftTime) returns (r: Result<Markup>)
    modifies store
    ensures GetUser(update).Failure? ==> store.userParameters == old(store.userParameters)
    ensures GetUser(update).Success? ==> store.userParameters == old(store.CacheAfterRead(GetUser(update).value))
    ensures GetUser(update).Failure? ==> r == Failure(GetUser(update).error)
    ensures GetUser(update).Success? && old(store.CachedParameters(GetUser(update).value)).None? ==>
              r == Failure(AttributeError)
    ensures GetUser(update).Success? && old(store.CachedParameters(GetUser(update).value)).Some? ==>
              var p := old(store.CachedParameters(GetUser(update).value)).value;
              var input := PickerInput(update, time, args);
              (input.Failure? ==> r == Failure(input.error))
              && (input.Success? ==>
                    r == PickerOutcome(input.value, p.language, PickerTimezone(p, args.adjustToTimezone), now, shift))
  {
    var u := GetUser(update);
    if u.Failure? {
      return Failure(u.error);
    }
    var parameters := store.GetUserParameters(u.value);
    if parameters.None? {
      return Failure(AttributeError);
    }
    var lang := parameters.value.language;
    var timezone := PickerTimezone(parameters.value, args.adjustToTimezone);
    var input := PickerInput(update, time, args);
    if input.Failure? {
      return Failure(input.error);
    }
    var h := Translate(lang, "short_hours", map[]);
    if h.Failure? {
      return Failure(h.error);
    }
    var mins := Translate(lang, "short_minutes", map[]);
    if mins.Failure? {
      return Failure(mins.error);
    }
    var t := PickerTime(input.value.0, input.value.1, now);
    if t.Failure? {
      return Failure(t.error);
    }
    if timezone.None? {
      return Failure(TypeError);
    }
    var rows := PickerKeyboard(t.value, input.value.1, timezone.value, h.value, mins.value, shift);
    r := Success(Inline(rows));
  }

  // ---------------------------------------------------------------------------------
  // The number keyboard

  function NumberButton(next: Item, n: int): Button
  {
    Button(IntToString(n), [next, Num(n)])
  }

  /** `min(start + 5, max_number + 1)`: where a row starting at `start` stops. */
  function RowEnd(start: int, maxNumber: int): int
  {
    if start + 5 <= maxNumber + 1 then start + 5 else maxNumber + 1
  }

  /** The comprehension of one row: the numbers from `start` up to the row's end. */
  function NumberRow(next: Item, start: int, maxNumber: int): (row: seq<Button>)
    requires start <= maxNumber
    ensures |row| == RowEnd(start, maxNumber) - start
    ensures forall k :: 0 <= k < |row| ==> row[k] == NumberButton(next, start + k)
  {
    seq(RowEnd(start, maxNumber) - start, k requires 0 <= k < RowEnd(start, maxNumber) - start =>
      NumberButton(next, start + k))
  }

  /** How many starts `range(1, max_number + 1, 5)` yields. */
  function NumberRowCount(maxNumber: int): nat
  {
    if maxNumber < 1 then 0 else (maxNumber + 4) / 5
  }

  /** The number rows as the loop builds them: row r starts at 5r + 1. */
  function NumberRows(next: Item, maxNumber: int): (rows: seq<seq<Button>>)
    ensures |rows| == NumberRowCount(maxNumber)
  {
    seq(NumberRowCount(maxNumber), r requires 0 <= r < NumberRowCount(maxNumber) =>
      assert 5 * r + 1 <= maxNumber;
      NumberRow(next, 5 * r + 1, maxNumber))
  }

  /** `generate_number_keyboard(next_query_action, back_button_action, max_number)`. */
  method GenerateNumberKeyboard(next: Item, back: Item, maxNumber: int) returns (markup: Markup)
    ensures markup == Inline(NumberRows(next, maxNumber) + [[Button(BackLabel, [back])]])
  {
    var buttons: seq<seq<Button>> := [];
    var i := 1;
    while i <= maxNumber
      invariant i >= 1 && (i - 1) % 5 == 0
      invariant maxNumber >= 1 ==> i <= maxNumber + 5
      invariant maxNumber < 1 ==> i == 1
      invariant |buttons| == (i - 1) / 5
      invariant forall r :: 0 <= r < |buttons| ==> 5 * r + 1 <= maxNumber && buttons[r] == NumberRow(next, 5 * r + 1, maxNumber)
    {
      var row := NumberRow(next, i, maxNumber);
      buttons := buttons + [row];
      i := i + 5;
    }
    assert |buttons| == NumberRowCount(maxNumber);
    assert buttons == NumberRows(next, maxNumber);
    markup := Inline(buttons + [[Button(BackLabel, [back])]]);
  }

  /** The number a button's `[next, number]` payload carries (0 for any other payload). */
  function ButtonNumber(b: Button): int
  {
    if |b.data| == 2 && b.data[1].Num? then b.data[1].n else 0
  }

  function RowNumbers(row: seq<Button>): (ns: seq<int>)
    ensures |ns| == |row| && forall k :: 0 <= k < |row| ==> ns[k] == ButtonNumber(row[k])
  {
    seq(|row|, k requires 0 <= k < |row| => ButtonNumber(row[k]))
  }

  /** The numbers the buttons of some rows carry, row by row. */
  function Numbers(rows: seq<seq<Button>>): seq<int>
  {
    if rows == [] then [] else Numbers(rows[..|rows| - 1]) + RowNumbers(rows[|rows| - 1])
  }

  /** The count of 1, 2, .. n as a sequence. */
  function Upto(n: nat): (r: seq<int>)
    ensures |r| == n && forall i :: 0 <= i < n ==> r[i] == i + 1
  {
    seq(n, i requires 0 <= i < n => i + 1)
  }

  /** A row starting at `start` carries start, start + 1, .. up to its end. */
  lemma NumberRowNumbers(next: Item, start: int, maxNumber: int)
    requires 1 <= start <= maxNumber
    ensures RowNumbers(NumberRow(next, start, maxNumber)) == Upto(RowEnd(start, maxNumber) - 1)[start - 1..]
  {
  }

  lemma UptoSplit(a: nat, n: nat)
    requires a <= n
    ensures Upto(n) == Upto(a) + Upto(n)[a..]
  {
  }

  /** How many numbers the first `r` rows of the keyboard carry. */
  function Covered(r: nat, maxNumber: int): nat
  {
    if 5 * r <= maxNumber then 5 * r else if maxNumber < 0 then 0 else maxNumber
  }

  /** Rows hold at most five buttons, all but the last exactly five; every button's payload
      is `[next_query_action, number]` with the number as its text. */
  lemma NumberRowsShape(next: Item, maxNumber: int)
    ensures var rows := NumberRows(next, maxNumber);
            (forall r :: 0 <= r < |rows| ==> 0 < |rows[r]| <= 5)
            && (forall r :: 0 <= r < |rows| - 1 ==> |rows[r]| == 5)
            && (forall r, k :: 0 <= r < |rows| && 0 <= k < |rows[r]| ==>
                  rows[r][k] == Button(IntToString(5 * r + 1 + k), [next, Num(5 * r + 1 + k)]))
  {
  }

  /** The first `r` rows carry 1 .. 5r (or 1 .. max_number, once the numbers run out), in order. */
  lemma {:induction false} NumbersPrefix(next: Item, maxNumber: int, r: nat)
    requires r <= NumberRowCount(maxNumber)
    ensures Numbers(NumberRows(next, maxNumber)[..r]) == Upto(Covered(r, maxNumber))
  {
    var rows := NumberRows(next, maxNumber);
    if r == 0 {
      assert rows[..0] == [];
    } else {
      var start := 5 * (r - 1) + 1;
      var n := Covered(r, maxNumber);
      NumbersPrefix(next, maxNumber, r - 1);
      assert Covered(r - 1, maxNumber) == start - 1;
      assert rows[..r][..r - 1] == rows[..r - 1];
      assert rows[..r][r - 1] == NumberRow(next, start, maxNumber);
      assert Numbers(rows[..r]) == Upto(start - 1) + RowNumbers(NumberRow(next, start, maxNumber));
      NumberRowNumbers(next, start, maxNumber);
      assert RowEnd(start, maxNumber) - 1 == n;
      UptoSplit(start - 1, n);
    }
  }

  /** The keyboard's numbers are 1 .. max_number, each once, in ascending order. */
  lemma NumbersInOrder(next: Item, maxNumber: int)
    ensures Numbers(NumberRows(next, maxNumber)) == Upto(if maxNumber < 0 then 0 else maxNumber)
  {
    var rows := NumberRows(next, maxNumber);
    NumbersPrefix(next, maxNumber, |rows|);
    assert rows[..|rows|] == rows;
  }
}
