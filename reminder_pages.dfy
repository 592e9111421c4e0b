/** bot/_reminders.py, the page half: the reminder list as text, a vocabulary's reminder
    section, the inline list of reminders, and the two handlers that finish adding and
    deleting a reminder. `conjugate_word` and `_get_vocabulary_name` are not part of this
    model; they are passed in as functions. */
module ReminderPages {
  import opened Wrappers
  import opened Text
  import opened Telegram
  import opened Database
  import opened Tables
  import opened Utils
  import opened Translations
  import opened TempManager
  import opened Reminders

  /** `conjugate_word(lang, n)`: the word for "words" that goes with the number n. */
  type Conjugate = (Option<string>, int) -> string

  /** `_get_vocabulary_name(vocabulary_id)`, given the id as the handler holds it. */
  type VocabularyName = SqlValue -> string

  /** The separator between a reminder's time and its number of words. */
  const Dash := "  \U{2014}  "

  // ---------------------------------------------------------------------------------
  // The reminder list as text

  /** The first loop of `_reminder_list_to_text`: each time shifted by the offset, its
      number of words kept. */
  function Shifted(entries: seq<(string, int)>, offset: int, shift: ShiftTime): (r: seq<(string, int)>)
    ensures |r| == |entries|
    ensures forall i :: 0 <= i < |entries| ==> r[i] == (shift(entries[i].0, offset, 0), entries[i].1)
  {
    seq(|entries|, i requires 0 <= i < |entries| => (shift(entries[i].0, offset, 0), entries[i].1))
  }

  /** Ordered by time text, as `list.sort(key=lambda x: x[0])` leaves it. */
  predicate SortedByTime(s: seq<(string, int)>)
  {
    forall i, j :: 0 <= i < j < |s| ==> LessEq(s[i].0, s[j].0)
  }

  /** `x` placed before the first entry whose time does not sort below it. */
  function Insert(x: (string, int), s: seq<(string, int)>): (r: seq<(string, int)>)
    ensures multiset(r) == multiset(s) + multiset{x}
    decreases |s|
  {
    if s == [] then [x]
    else if LessEq(x.0, s[0].0) then [x] + s
    else
      assert s == [s[0]] + s[1..];
      [s[0]] + Insert(x, s[1..])
  }

  /** The sort of `_reminder_list_to_text`: by time text, entries with equal times kept in
      list order. */
  function SortByTime(s: seq<(string, int)>): (r: seq<(string, int)>)
    ensures multiset(r) == multiset(s)
    decreases |s|
  {
    if s == [] then []
    else
      assert s == [s[0]] + s[1..];
      Insert(s[0], SortByTime(s[1..]))
  }

  lemma {:induction false} InsertSorted(x: (string, int), s: seq<(string, int)>)
    requires SortedByTime(s)
    ensures SortedByTime(Insert(x, s))
    decreases |s|
  {
    if s == [] {
    } else if LessEq(x.0, s[0].0) {
      var r := [x] + s;
      forall i, j | 0 <= i < j < |r|
        ensures LessEq(r[i].0, r[j].0)
      {
        if i == 0 && j > 1 {
          LessEqTransitive(x.0, s[0].0, s[j - 1].0);
        }
      }
    } else {
      InsertSorted(x, s[1..]);
      var tail := Insert(x, s[1..]);
      var r := [s[0]] + tail;
      LessEqTotal(x.0, s[0].0);
      forall j | 0 <= j < |tail|
        ensures LessEq(s[0].0, tail[j].0)
      {
        assert tail[j] in multiset(tail);
        assert tail[j] in multiset(s[1..]) + multiset{x};
        if tail[j] != x {
          assert tail[j] in s[1..];
          var k :| 0 <= k < |s[1..]| && s[1..][k] == tail[j];
          assert s[k + 1] == tail[j];
        }
      }
      forall i, j | 0 <= i < j < |r|
        ensures LessEq(r[i].0, r[j].0)
      {
        if i > 0 {
          assert r[i] == tail[i - 1] && r[j] == tail[j - 1];
        }
      }
    }
  }

  /** The sort yields an ordered list holding exactly the entries it was given. */
  lemma {:induction false} SortByTimeSorted(s: seq<(string, int)>)
    ensures SortedByTime(SortByTime(s))
    ensures multiset(SortByTime(s)) == multiset(s)
    decreases |s|
  {
    if s != [] {
      SortByTimeSorted(s[1..]);
      InsertSorted(s[0], SortByTime(s[1..]));
    }
  }

  /** One line of the text: `f"{time}  —  {n} {conjugate_word(lang, n)}\n"`. */
  function Line(e: (string, int), lang: Option<string>, conjugate: Conjugate): string
  {
    e.0 + Dash + IntToString(e.1) + " " + conjugate(lang, e.1) + "\n"
  }

  /** The second loop: the lines of the entries, in order. */
  function Lines(s: seq<(string, int)>, lang: Option<string>, conjugate: Conjugate): string
    decreases |s|
  {
    if s == [] then "" else Lines(s[..|s| - 1], lang, conjugate) + Line(s[|s| - 1], lang, conjugate)
  }

  /** What `_reminder_list_to_text(reminders, lang, hour_offset)` returns. */
  function ReminderText(reminders: seq<(string, int)>, lang: Option<string>, offset: int,
                        shift: ShiftTime, conjugate: Conjugate): string
  {
    Lines(SortByTime(Shifted(reminders, offset, shift)), lang, conjugate)
  }

  /** `_reminder_list_to_text(reminders, lang, hour_offset)`: shift every time, sort by the
      shifted time, and write one line per reminder. */
  method ReminderListToText(reminders: seq<(string, int)>, lang: Option<string>, hourOffset: int,
                            shift: ShiftTime, conjugate: Conjugate) returns (text: string)
    ensures text == ReminderText(reminders, lang, hourOffset, shift, conjugate)
  {
    var shifted: seq<(string, int)> := [];
    var i := 0;
    while i < |reminders|
      invariant 0 <= i <= |reminders|
      invariant shifted == Shifted(reminders[..i], hourOffset, shift)
    {
      shifted := shifted + [(shift(reminders[i].0, hourOffset, 0), reminders[i].1)];
      i := i + 1;
    }
    assert reminders[..i] == reminders;
    var sorted := SortByTime(shifted);
    text := "";
    var j := 0;
    while j < |sorted|
      invariant 0 <= j <= |sorted|
      invariant text == Lines(sorted[..j], lang, conjugate)
    {
      assert sorted[..j + 1][..j] == sorted[..j];
      text := text + Line(sorted[j], lang, conjugate);
      j := j + 1;
    }
    assert sorted[..j] == sorted;
  }

  /** A decimal numeral has no line break in it. */
  lemma IntToStringNoNewline(n: int)
    ensures '\n' !in IntToString(n)
  {
    var s := NatToString(if n < 0 then -n else n);
    assert forall i :: 0 <= i < |s| ==> IsDigit(s[i]);
    if n < 0 {
      assert IntToString(n) == "-" + s;
      assert forall i :: 0 <= i < |IntToString(n)| ==> IntToString(n)[i] != '\n' by {
        forall i | 0 <= i < |IntToString(n)|
          ensures IntToString(n)[i] != '\n'
        {
          if i > 0 { assert IntToString(n)[i] == s[i - 1]; }
        }
      }
    }
  }

  /** Every line ends in the one line break it holds, when neither the time nor the
      conjugated word holds one. */
  lemma LineBreaks(e: (string, int), lang: Option<string>, conjugate: Conjugate)
    requires '\n' !in e.0 && '\n' !in conjugate(lang, e.1)
    ensures Count(Line(e, lang, conjugate), '\n') == 1
  {
    IntToStringNoNewline(e.1);
    var a := e.0 + Dash + IntToString(e.1) + " " + conjugate(lang, e.1);
    CountAppend(e.0, Dash, '\n');
    CountAppend(e.0 + Dash, IntToString(e.1), '\n');
    CountAppend(e.0 + Dash + IntToString(e.1), " ", '\n');
    CountAppend(e.0 + Dash + IntToString(e.1) + " ", conjugate(lang, e.1), '\n');
    CountAppend(a, "\n", '\n');
  }

  lemma {:induction false} LinesBreaks(s: seq<(string, int)>, lang: Option<string>, conjugate: Conjugate)
    requires forall i :: 0 <= i < |s| ==> '\n' !in s[i].0
    requires forall n :: '\n' !in conjugate(lang, n)
    ensures Count(Lines(s, lang, conjugate), '\n') == |s|
    decreases |s|
  {
    if s != [] {
      LinesBreaks(s[..|s| - 1], lang, conjugate);
      LineBreaks(s[|s| - 1], lang, conjugate);
      CountAppend(Lines(s[..|s| - 1], lang, conjugate), Line(s[|s| - 1], lang, conjugate), '\n');
    }
  }

  /** The text holds exactly one line per reminder, when `shift_time` and `conjugate_word`
      write no line breaks of their own. */
  lemma ReminderTextOneLineEach(reminders: seq<(string, int)>, lang: Option<string>, offset: int,
                                shift: ShiftTime, conjugate: Conjugate)
    requires forall t, h, m :: '\n' !in shift(t, h, m)
    requires forall n :: '\n' !in conjugate(lang, n)
    ensures Count(ReminderText(reminders, lang, offset, shift, conjugate), '\n') == |reminders|
  {
    var shifted := Shifted(reminders, offset, shift);
    var sorted := SortByTime(shifted);
    SortByTimeSorted(shifted);
    forall i | 0 <= i < |sorted|
      ensures '\n' !in sorted[i].0
    {
      assert sorted[i] in multiset(shifted);
      var k :| 0 <= k < |shifted| && shifted[k] == sorted[i];
    }
    assert |sorted| == |shifted| by {
      assert |multiset(sorted)| == |sorted| && |multiset(shifted)| == |shifted|;
    }
    LinesBreaks(sorted, lang, conjugate);
  }

  /** The lines come in the order of the shifted times, and are the lines of exactly the
      shifted reminders. */
  lemma ReminderTextOrdered(reminders: seq<(string, int)>, lang: Option<string>, offset: int,
                            shift: ShiftTime, conjugate: Conjugate)
    ensures var sorted := SortByTime(Shifted(reminders, offset, shift));
            SortedByTime(sorted)
            && multiset(sorted) == multiset(Shifted(reminders, offset, shift))
            && ReminderText(reminders, lang, offset, shift, conjugate) == Lines(sorted, lang, conjugate)
  {
    SortByTimeSorted(Shifted(reminders, offset, shift));
  }

  // ---------------------------------------------------------------------------------
  // A vocabulary's reminder section

  /** The section heading: a rule, the escaped name in bold, and a dotted rule. */
  function Heading(vocabularyName: string): string
  {
    "\n================\n" + HtmlWrapper(EscapeHtml(vocabularyName), Some("b")) + "\n-.-.-.-.-.-.-.-.-.-.-.-.-.-.-.-\n"
  }

  /** `_generate_vocabulary_reminders_text(...)`: the heading and the list when the
      vocabulary has reminders; otherwise the heading and the translated "no reminders"
      line if asked for, and "" if not. */
  method GenerateVocabularyRemindersText(db: Db, user: int, vocabularyId: int, vocabularyName: string,
                                         timezone: int, lang: Option<string>, includeNoRemindersText: bool,
                                         shift: ShiftTime, conjugate: Conjugate) returns (r: Result<string>)
    ensures var list := ReminderList(db.reminders, user, vocabularyId);
            |list| > 0 ==> r == Success(Heading(vocabularyName) + ReminderText(list, lang, timezone, shift, conjugate))
    ensures var list := ReminderList(db.reminders, user, vocabularyId);
            |list| == 0 && !includeNoRemindersText ==> r == Success("")
    ensures var list := ReminderList(db.reminders, user, vocabularyId);
            |list| == 0 && includeNoRemindersText ==>
              (r.Success? <==> Translate(lang, "no_reminders", map[]).Success?)
              && (r.Success? ==> r == Success(Heading(vocabularyName) + Translate(lang, "no_reminders", map[]).value + "\n"))
  {
    var reminders := ReminderList(db.reminders, user, vocabularyId);
    var heading := Heading(vocabularyName);
    if |reminders| > 0 {
      var text := ReminderListToText(reminders, lang, timezone, shift, conjugate);
      return Success(heading + text);
    } else if includeNoRemindersText {
      var line := Translate(lang, "no_reminders", map[]);
      if line.Failure? {
        return Failure(line.error);
      }
      return Success(heading + line.value + "\n");
    } else {
      return Success("");
    }
  }

  /** The string table has no "no_reminders" for any language, so asking for the line
      always ends in a KeyError. */
  lemma NoRemindersLineMissing(lang: Option<string>)
    ensures Translate(lang, "no_reminders", map[]).Failure?
    ensures Translate(lang, "no_reminders", map[]).error.KeyError?
  {
    MissingKeyFails(lang, "no_reminders", map[]);
  }

  // ---------------------------------------------------------------------------------
  // The inline list of reminders

  /** A reminder button's label: the shifted time, the number of words, the conjugated word. */
  function ReminderLabel(e: (string, int), timezone: int, lang: Option<string>, shift: ShiftTime,
                         conjugate: Conjugate): string
  {
    shift(e.0, timezone, 0) + Dash + IntToString(e.1) + " " + conjugate(lang, e.1)
  }

  /** A reminder button: its payload names the action, the vocabulary and the stored time. */
  function ReminderButton(e: (string, int), vocabularyId: int, timezone: int, lang: Option<string>,
                          next: QueryAction, shift: ShiftTime, conjugate: Conjugate): Button
  {
    Button(ReminderLabel(e, timezone, lang, shift, conjugate), [Act(next), Num(vocabularyId), Str(e.0)])
  }

  /** `_get_inline_reminder_list(...)`: one row per reminder of the vocabulary, in list order,
      then the back row. */
  method InlineReminderList(db: Db, user: int, vocabularyId: int, timezone: int, lang: Option<string>,
                            next: QueryAction, back: QueryAction, shift: ShiftTime, conjugate: Conjugate)
    returns (markup: Markup)
    ensures var list := ReminderList(db.reminders, user, vocabularyId);
            markup.Inline? && |markup.rows| == |list| + 1
            && (forall i :: 0 <= i < |list| ==>
                  markup.rows[i] == [ReminderButton(list[i], vocabularyId, timezone, lang, next, shift, conjugate)])
            && markup.rows[|list|] == BackRow(back)
  {
    var reminders := ReminderList(db.reminders, user, vocabularyId);
    var buttons: seq<seq<Button>> := [];
    var i := 0;
    while i < |reminders|
      invariant 0 <= i <= |reminders|
      invariant |buttons| == i
      invariant forall k :: 0 <= k < i ==>
                  buttons[k] == [ReminderButton(reminders[k], vocabularyId, timezone, lang, next, shift, conjugate)]
    {
      var caption := shift(reminders[i].0, timezone, 0) + Dash + IntToString(reminders[i].1) + " "
                   + conjugate(lang, reminders[i].1);
      buttons := buttons + [[Button(caption, [Act(next), Num(vocabularyId), Str(reminders[i].0)])]];
      i := i + 1;
    }
    buttons := buttons + [BackRow(back)];
    markup := Inline(buttons);
  }

  /** `vocabulary_id, time = callback_data[1:]`: exactly two values after the action, else
      a ValueError; the id is a number or null and the time a string or null. */
  function DeletePayload(data: Payload): (r: Result<(Option<int>, Option<string>)>)
    ensures r.Success? ==> |data| == 3
    ensures |data| != 3 ==> r.Failure? && r.error.ValueError?
  {
    if |data| != 3 then Failure(ValueError("wrong number of values to unpack"))
    else
      var id :- match data[1]
                case Num(n) => Success(Some(n))
                case Null => Success(None)
                case _ => Failure(TypeError);
      var time :- match data[2]
                  case Str(t) => Success(Some(t))
                  case Null => Success(None)
                  case _ => Failure(TypeError);
      Success((id, time))
  }

  /** Each reminder button's payload unpacks, as `delete_reminder_finalize` unpacks it, to the
      vocabulary and the stored time it was built from. */
  lemma ReminderButtonDecodes(e: (string, int), vocabularyId: int, timezone: int, lang: Option<string>,
                              next: QueryAction, shift: ShiftTime, conjugate: Conjugate)
    ensures DeletePayload(ReminderButton(e, vocabularyId, timezone, lang, next, shift, conjugate).data)
            == Success((Some(vocabularyId), Some(e.0)))
  {
  }

  /** Pressing a listed reminder selects a stored row: the `(user, vocabulary, time)`
      condition the handler passes on holds for a row of the table, so the delete succeeds. */
  lemma ListedReminderSelectable(rs: seq<ReminderRow>, user: int, vocabularyId: int, k: int)
    requires 0 <= k < |ReminderList(rs, user, vocabularyId)|
    requires user != 0 && vocabularyId != 0 && ReminderList(rs, user, vocabularyId)[k].0 != ""
    ensures var time := ReminderList(rs, user, vocabularyId)[k].0;
            ReminderSelectorFor(user, None, Some(vocabularyId), Some(time))
              == Success(ReminderByKey(user, vocabularyId, time))
            && exists i :: 0 <= i < |rs| && SelectsReminder(ReminderByKey(user, vocabularyId, time), rs[i])
  {
    var list := ReminderList(rs, user, vocabularyId);
    ReminderListExact(rs, user, vocabularyId);
    assert list[k] in list;
    var x :| x in rs && x.userId == user && x.vocabularyId == vocabularyId && Entry(x) == list[k];
    var i :| 0 <= i < |rs| && rs[i] == x;
    assert SelectsReminder(ReminderByKey(user, vocabularyId, list[k].0), rs[i]);
  }

  // ---------------------------------------------------------------------------------
  // Finishing an added reminder

  /** The number the user picked: `callback_data[1]` of the update's callback query. */
  function PickedNumber(update: Update): (r: Result<int>)
    ensures update.callbackQuery.None? ==> r == Failure(KeyError("callback_query"))
    ensures update.callbackQuery.Some? && |update.callbackQuery.value.data| < 2 ==> r == Failure(IndexError)
    ensures r.Success? ==> update.callbackQuery.Some? && |update.callbackQuery.value.data| >= 2
                           && update.callbackQuery.value.data[1] == Num(r.value)
  {
    if update.callbackQuery.None? then Failure(KeyError("callback_query"))
    else
      var data := update.callbackQuery.value.data;
      if |data| < 2 then Failure(IndexError)
      else if data[1].Num? then Success(data[1].n)
      else Failure(TypeError)
  }

  /** A Temp value as the handler passes it on: text, or NULL. */
  function SlotValue(v: Option<string>): SqlValue
  {
    if v.Some? then SqlText(v.value) else SqlNull
  }

  /** The message `add_reminder_finalize` answers with: the duplicate notice when the insert
      was refused, the confirmation otherwise; a missing time or timezone cannot be shifted. */
  function AddedText(lang: Option<string>, timezone: Option<int>, refused: bool, time: Option<string>,
                     numberOfWords: int, vocabularyName: string, shift: ShiftTime, conjugate: Conjugate)
    : (r: Result<(string, Markup)>)
    ensures time.None? || timezone.None? ==> r == Failure(TypeError)
    ensures r.Success? ==> r.value.1 == Inline([BackRow(MenuReminders)])
  {
    if time.None? || timezone.None? then Failure(TypeError)
    else
      var shown := shift(time.value, timezone.value, 0);
      var text :- if refused then
                    Translate(lang, "reminder_duplicate",
                              map["vocabulary_name" := EscapeHtml(vocabularyName), "time" := shown])
                  else
                    Translate(lang, "reminder_set",
                              map["time" := shown, "number_of_words" := IntToString(numberOfWords),
                                  "conjugated_word" := conjugate(lang, numberOfWords),
                                  "vocabulary_name" := EscapeHtml(vocabularyName)]);
      Success((text, Inline([BackRow(MenuReminders)])))
  }

  /** Neither message is in the string table, so once the time can be shown the handler
      ends in a KeyError, and the key it names tells a refused insert from a stored one. */
  lemma AddedTextFails(lang: Option<string>, timezone: Option<int>, refused: bool, time: Option<string>,
                       numberOfWords: int, vocabularyName: string, shift: ShiftTime, conjugate: Conjugate)
    requires time.Some? && timezone.Some?
    ensures AddedText(lang, timezone, refused, time, numberOfWords, vocabularyName, shift, conjugate)
            == Failure(KeyError(if NormalizeLang(lang) == "uk" then "uk"
                                else if refused then "reminder_duplicate" else "reminder_set"))
  {
    var shown := shift(time.value, timezone.value, 0);
    MissingKeyFails(lang, "reminder_duplicate", map["vocabulary_name" := EscapeHtml(vocabularyName), "time" := shown]);
    MissingKeyFails(lang, "reminder_set",
                    map["time" := shown, "number_of_words" := IntToString(numberOfWords),
                        "conjugated_word" := conjugate(lang, numberOfWords),
                        "vocabulary_name" := EscapeHtml(vocabularyName)]);
  }

  /** `add_reminder_finalize(update)`: resolve the user and their parameters, pop the TIME
      and VOCABULARY slots, read the picked number, insert the reminder, and answer with
      the duplicate notice or the confirmation and a back button to the reminders menu. */
  method AddReminderFinalize(store: TempStore, update: Update, shift: ShiftTime, conjugate: Conjugate,
                             vocabularyName: VocabularyName) returns (r: Result<(string, Markup)>)
    requires store.db.Valid()
    modifies store, store.db
    ensures store.db.Valid()
    ensures GetUser(update).Failure? ==> store.userParameters == old(store.userParameters)
    ensures GetUser(update).Success? ==> store.userParameters == old(store.CacheAfterRead(GetUser(update).value))
    ensures store.db.users == old(store.db.users) && store.db.vocabularies == old(store.db.vocabularies)
            && store.db.words == old(store.db.words)
    ensures GetUser(update).Failure? ==>
              r == Failure(GetUser(update).error)
              && store.db.temp == old(store.db.temp) && store.db.reminders == old(store.db.reminders)
    ensures GetUser(update).Success? && old(store.CachedParameters(GetUser(update).value)).None? ==>
              r == Failure(AttributeError)
              && store.db.temp == old(store.db.temp) && store.db.reminders == old(store.db.reminders)
    ensures GetUser(update).Success? && old(store.CachedParameters(GetUser(update).value)).Some? ==>
              var user := GetUser(update).value;
              store.db.temp == old(store.db.temp) - {(user, Time)} - {(user, Vocabulary)}
    ensures GetUser(update).Success? && old(store.CachedParameters(GetUser(update).value)).Some?
            && PickedNumber(update).Failure? ==>
              r == Failure(PickedNumber(update).error) && store.db.reminders == old(store.db.reminders)
    ensures GetUser(update).Success? && old(store.CachedParameters(GetUser(update).value)).Some?
            && PickedNumber(update).Success? ==>
              var user := GetUser(update).value;
              var p := old(store.CachedParameters(user)).value;
              var time := old(store.GetTemp(user, Time));
              var vocabularyId := SlotValue(old(store.GetTemp(user, Vocabulary)));
              var n := PickedNumber(update).value;
              var refused := old(store.db.ReminderRefused(user, vocabularyId, time));
              (refused ==> store.db.reminders == old(store.db.reminders))
              && (!refused ==>
                    store.db.reminders == old(store.db.reminders)
                      + [ReminderRow(NextId(old(store.db.reminders), ReminderIdOf), user,
                                     IntegerAffinity(vocabularyId).i, time.value, n)])
              && r == AddedText(p.language, p.timezone, refused, time, n, vocabularyName(vocabularyId), shift, conjugate)
  {
    var u := GetUser(update);
    if u.Failure? {
      return Failure(u.error);
    }
    var user := u.value;
    var parameters := store.GetUserParameters(user);
    if parameters.None? {
      return Failure(AttributeError);
    }
    var lang := parameters.value.language;
    var timezone := parameters.value.timezone;
    var time := store.PopTemp(user, Time);
    var slot := store.PopTemp(user, Vocabulary);
    assert time == old(store.GetTemp(user, Time)) && slot == old(store.GetTemp(user, Vocabulary));
    var vocabularyId := SlotValue(slot);
    var name := vocabularyName(vocabularyId);
    var picked := PickedNumber(update);
    if picked.Failure? {
      return Failure(picked.error);
    }
    assert store.db.ReminderRefused(user, vocabularyId, time) == old(store.db.ReminderRefused(user, vocabularyId, time));
    var reminderId := Reminders.AddReminder(store.db, user, vocabularyId, time, picked.value);
    r := AddedText(lang, timezone, reminderId == 0, time, picked.value, name, shift, conjugate);
  }

  // ---------------------------------------------------------------------------------
  // Finishing a deleted reminder

  /** The vocabulary and time the pressed button names: the update's callback query and
      `callback_data[1:]`. */
  function DeleteRequest(update: Update): (r: Result<(Option<int>, Option<string>)>)
    ensures update.callbackQuery.None? ==> r == Failure(KeyError("callback_query"))
    ensures update.callbackQuery.Some? ==> r == DeletePayload(update.callbackQuery.value.data)
  {
    if update.callbackQuery.None? then Failure(KeyError("callback_query"))
    else DeletePayload(update.callbackQuery.value.data)
  }

  /** The message `delete_reminder_finalize` answers with after a delete that removed a row. */
  function DeletedText(lang: Option<string>, timezone: Option<int>, time: Option<string>,
                       vocabularyName: string, shift: ShiftTime): (r: Result<(string, Markup)>)
    ensures time.None? || timezone.None? ==> r == Failure(TypeError)
    ensures r.Success? ==> r.value.1 == Inline([BackRow(MenuReminders)])
  {
    if time.None? || timezone.None? then Failure(TypeError)
    else
      var text :- Translate(lang, "reminder_deleted",
                            map["time" := shift(time.value, timezone.value, 0),
                                "vocabulary_name" := EscapeHtml(vocabularyName)]);
      Success((text, Inline([BackRow(MenuReminders)])))
  }

  /** The confirmation is not in the string table either: a successful delete ends in a
      KeyError once the time can be shown. */
  lemma DeletedTextFails(lang: Option<string>, timezone: Option<int>, time: Option<string>,
                         vocabularyName: string, shift: ShiftTime)
    requires time.Some? && timezone.Some?
    ensures DeletedText(lang, timezone, time, vocabularyName, shift)
            == Failure(KeyError(if NormalizeLang(lang) == "uk" then "uk" else "reminder_deleted"))
  {
    MissingKeyFails(lang, "reminder_deleted",
                    map["time" := shift(time.value, timezone.value, 0),
                        "vocabulary_name" := EscapeHtml(vocabularyName)]);
  }

  /** `delete_reminder_finalize(update)`: resolve the user and their parameters, unpack the
      vocabulary and time from the payload, delete by `(user, vocabulary, time)`, and answer
      with the confirmation; a delete that removed nothing is a FileNotFoundError. */
  method DeleteReminderFinalize(store: TempStore, update: Update, shift: ShiftTime,
                                vocabularyName: VocabularyName) returns (r: Result<(string, Markup)>)
    requires store.db.Valid()
    modifies store, store.db
    ensures store.db.Valid()
    ensures GetUser(update).Failure? ==> store.userParameters == old(store.userParameters)
    ensures GetUser(update).Success? ==> store.userParameters == old(store.CacheAfterRead(GetUser(update).value))
    ensures store.db.users == old(store.db.users) && store.db.vocabularies == old(store.db.vocabularies)
            && store.db.words == old(store.db.words) && store.db.temp == old(store.db.temp)
    ensures GetUser(update).Failure? ==>
              r == Failure(GetUser(update).error) && store.db.reminders == old(store.db.reminders)
    ensures GetUser(update).Success? && old(store.CachedParameters(GetUser(update).value)).None? ==>
              r == Failure(AttributeError) && store.db.reminders == old(store.db.reminders)
    ensures GetUser(update).Success? && old(store.CachedParameters(GetUser(update).value)).Some?
            && DeleteRequest(update).Failure? ==>
              r == Failure(DeleteRequest(update).error) && store.db.reminders == old(store.db.reminders)
    ensures GetUser(update).Success? && old(store.CachedParameters(GetUser(update).value)).Some?
            && DeleteRequest(update).Success? ==>
              var user := GetUser(update).value;
              var p := old(store.CachedParameters(user)).value;
              var (vocabularyId, time) := DeleteRequest(update).value;
              var sel := ReminderSelectorFor(user, None, vocabularyId, time);
              (sel.Failure? ==> r == Failure(SelectionError) && store.db.reminders == old(store.db.reminders))
              && (sel.Success? ==>
                    store.db.reminders == Filter(old(store.db.reminders), KeepReminder(sel.value))
                    && var removed := exists i :: 0 <= i < |old(store.db.reminders)|
                                                  && SelectsReminder(sel.value, old(store.db.reminders)[i]);
                       (!removed ==> r == Failure(FileNotFoundError))
                       && (removed ==>
                             var name := vocabularyName(if vocabularyId.Some? then SqlInt(vocabularyId.value) else SqlNull);
                             r == DeletedText(p.language, p.timezone, time, name, shift)))
  {
    var u := GetUser(update);
    if u.Failure? {
      return Failure(u.error);
    }
    var user := u.value;
    var parameters := store.GetUserParameters(user);
    if parameters.None? {
      return Failure(AttributeError);
    }
    var lang := parameters.value.language;
    var timezone := parameters.value.timezone;
    var request := DeleteRequest(update);
    if request.Failure? {
      return Failure(request.error);
    }
    var (vocabularyId, time) := request.value;
    var name := vocabularyName(if vocabularyId.Some? then SqlInt(vocabularyId.value) else SqlNull);
    var status := Reminders.DeleteReminder(store.db, user, None, vocabularyId, time);
    if status.Failure? {
      return Failure(status.error);
    }
    match status.value
    case TaskSuccess =>
      r := DeletedText(lang, timezone, time, name, shift);
    case TaskFailure =>
      r := Failure(FileNotFoundError);
    case _ =>
      r := Failure(ValueError("Unsupported status"));
  }
}
