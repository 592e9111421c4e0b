/** bot/_reminders.py, the database half: adding and deleting reminders, the per-vocabulary
    reminder list, and re-basing the stored UTC times when the user's timezone changes.
    `shift_time` is not part of this model; it is passed in as a function. */
module Reminders {
  import opened Wrappers
  import opened Telegram
  import opened Database
  import opened Tables
  import opened Utils


  /** `_add_reminder(...)`: the new reminder's id, or 0 when the insert is refused (an
      id or time that is NULL, an unknown user or vocabulary, or a time the user already
      has: UNIQUE(user_id, time)). */
  method AddReminder(db: Db, user: int, vocabularyId: SqlValue, time: Option<string>, numberOfWords: int)
    returns (id: int)
    requires db.Valid()
    modifies db
    ensures db.Valid()
    ensures id == 0 <==> old(db.ReminderRefused(user, vocabularyId, time))
    ensures id == 0 ==> db.reminders == old(db.reminders)
    ensures id != 0 ==>
              id > 0 && id == NextId(old(db.reminders), ReminderIdOf)
              && db.reminders == old(db.reminders)
                                 + [ReminderRow(id, user, IntegerAffinity(vocabularyId).i, time.value, numberOfWords)]
              && forall i :: 0 <= i < |old(db.reminders)| ==> old(db.reminders)[i].id < id
    ensures db.users == old(db.users) && db.vocabularies == old(db.vocabularies)
            && db.words == old(db.words) && db.temp == old(db.temp)
  {
    var res := db.RemindersAdd(user, vocabularyId, time, numberOfWords);
    id := res.1;
  }

  const SelectionError := ValueError("You must provide either reminder_id, or user_id, vocabulary_id, and time.")

  /** The condition `_delete_reminder` builds: a truthy id wins; otherwise user, vocabulary
      and time must all be truthy; otherwise a ValueError. */
  function ReminderSelectorFor(user: int, reminderId: Option<int>, vocabularyId: Option<int>, time: Option<string>)
    : (r: Result<ReminderSelector>)
    ensures TruthyInt(reminderId) ==> r == Success(ReminderById(reminderId.value))
    ensures !TruthyInt(reminderId) && user != 0 && TruthyInt(vocabularyId) && TruthyText(time) ==>
              r == Success(ReminderByKey(user, vocabularyId.value, time.value))
    ensures r.Failure? <==>
              !TruthyInt(reminderId) && !(user != 0 && TruthyInt(vocabularyId) && TruthyText(time))
    ensures r.Failure? ==> r.error == SelectionError
  {
    if TruthyInt(reminderId) then Success(ReminderById(reminderId.value))
    else if user != 0 && TruthyInt(vocabularyId) && TruthyText(time) then
      Success(ReminderByKey(user, vocabularyId.value, time.value))
    else Failure(SelectionError)
  }

  /** A DELETE by a reminder selector removes exactly the selected rows. */
  lemma ReminderDeleteExact(rs: seq<ReminderRow>, sel: ReminderSelector)
    ensures forall r :: r in Filter(rs, KeepReminder(sel)) <==> r in rs && !SelectsReminder(sel, r)
  {
    FilterMembers(rs, KeepReminder(sel));
  }

  /** `_delete_reminder(user, reminder_id, vocabulary_id, time)`: the selection error, or
      SUCCESS iff some row was deleted, else FAILURE. */
  method DeleteReminder(db: Db, user: int, reminderId: Option<int>, vocabularyId: Option<int>, time: Option<string>)
    returns (r: Result<TaskStatus>)
    requires db.Valid()
    modifies db
    ensures db.Valid()
    ensures ReminderSelectorFor(user, reminderId, vocabularyId, time).Failure? ==>
              r == Failure(SelectionError) && db.reminders == old(db.reminders)
    ensures ReminderSelectorFor(user, reminderId, vocabularyId, time).Success? ==>
              var sel := ReminderSelectorFor(user, reminderId, vocabularyId, time).value;
              (r == Success(TaskSuccess) || r == Success(TaskFailure))
              && (r == Success(TaskSuccess) <==>
                    exists i :: 0 <= i < |old(db.reminders)| && SelectsReminder(sel, old(db.reminders)[i]))
              && db.reminders == Filter(old(db.reminders), KeepReminder(sel))
              && (forall x :: x in db.reminders <==> x in old(db.reminders) && !SelectsReminder(sel, x))
    ensures db.users == old(db.users) && db.vocabularies == old(db.vocabularies)
            && db.words == old(db.words) && db.temp == old(db.temp)
  {
    var s := ReminderSelectorFor(user, reminderId, vocabularyId, time);
    if s.Failure? {
      return Failure(s.error);
    }
    ReminderDeleteExact(db.reminders, s.value);
    var removed := db.RemindersDelete(s.value);
    r := if removed then Success(TaskSuccess) else Success(TaskFailure);
  }

  /** A reminder as `_get_reminder_list` reports it: its time and its number of words. */
  function Entry(r: ReminderRow): (string, int)
  {
    (r.time, r.numberOfWords)
  }

  function Entries(rows: seq<ReminderRow>): (r: seq<(string, int)>)
    ensures |r| == |rows| && forall i :: 0 <= i < |rows| ==> r[i] == Entry(rows[i])
  {
    seq(|rows|, i requires 0 <= i < |rows| => Entry(rows[i]))
  }

  /** `_get_reminder_list(user, vocabulary_id)`: the `{time: number_of_words}` dict, as its
      items in insertion order, here the table's rowid order. */
  function ReminderList(rs: seq<ReminderRow>, user: int, vocabularyId: int): (r: seq<(string, int)>)
    ensures |r| <= |rs|
  {
    Entries(Filter(rs, ReminderIn(user, vocabularyId)))
  }

  /** The list holds an entry exactly for each reminder of that user and vocabulary, and
      is empty exactly when there is none. */
  lemma ReminderListExact(rs: seq<ReminderRow>, user: int, vocabularyId: int)
    ensures forall e :: e in ReminderList(rs, user, vocabularyId) <==>
              exists x :: x in rs && x.userId == user && x.vocabularyId == vocabularyId && Entry(x) == e
    ensures ReminderList(rs, user, vocabularyId) == [] <==>
              forall i :: 0 <= i < |rs| ==> !(rs[i].userId == user && rs[i].vocabularyId == vocabularyId)
  {
    var f := Filter(rs, ReminderIn(user, vocabularyId));
    var r := ReminderList(rs, user, vocabularyId);
    FilterMembers(rs, ReminderIn(user, vocabularyId));
    forall e | e in r
      ensures exists x :: x in rs && x.userId == user && x.vocabularyId == vocabularyId && Entry(x) == e
    {
      var i :| 0 <= i < |r| && r[i] == e;
      assert f[i] in f;
    }
    forall e | exists x :: x in rs && x.userId == user && x.vocabularyId == vocabularyId && Entry(x) == e
      ensures e in r
    {
      var x :| x in rs && x.userId == user && x.vocabularyId == vocabularyId && Entry(x) == e;
      assert x in f;
      var i :| 0 <= i < |f| && f[i] == x;
      assert r[i] == e;
    }
    if r != [] {
      assert f[0] in f;
    }
    forall i | 0 <= i < |rs| && rs[i].userId == user && rs[i].vocabularyId == vocabularyId
      ensures r != []
    {
      assert rs[i] in f;
    }
  }

  /** On a valid table the list's times are pairwise distinct, so the dict loses no reminder. */
  lemma ReminderListTimesDistinct(rs: seq<ReminderRow>, user: int, vocabularyId: int)
    requires Pairwise(rs, RemindersDistinct)
    ensures var r := ReminderList(rs, user, vocabularyId);
            forall i, j :: 0 <= i < j < |r| ==> r[i].0 != r[j].0
  {
    var f := Filter(rs, ReminderIn(user, vocabularyId));
    FilterPairwise(rs, ReminderIn(user, vocabularyId), RemindersDistinct);
    FilterMembers(rs, ReminderIn(user, vocabularyId));
    var r := ReminderList(rs, user, vocabularyId);
    forall i, j | 0 <= i < j < |r|
      ensures r[i].0 != r[j].0
    {
      assert RemindersDistinct(f[i], f[j]);
      assert f[i] in f && f[j] in f;
    }
  }

  // ---------------------------------------------------------------------------------
  // Re-basing onto a new timezone

  /** The inner loop of `_adjust_reminders_to_new_timezone`: one `Reminders.set` per listed
      time, in list order, each on the table the previous one left. */
  function RebaseVocabulary(rs: seq<ReminderRow>, user: int, vocabularyId: int, entries: seq<(string, int)>,
                            offset: int, shift: ShiftTime): (r: seq<ReminderRow>)
    ensures |r| == |rs|
    decreases |entries|
  {
    if entries == [] then rs
    else
      var time := entries[0].0;
      RebaseVocabulary(MovedReminders(rs, user, vocabularyId, time, shift(time, offset, 0)),
                       user, vocabularyId, entries[1..], offset, shift)
  }

  /** The outer loop: each vocabulary in turn, with its list read from the table as the
      earlier vocabularies left it. */
  function RebaseOneByOne(rs: seq<ReminderRow>, user: int, vocabularyIds: seq<int>, offset: int, shift: ShiftTime)
    : (r: seq<ReminderRow>)
    ensures |r| == |rs|
    decreases |vocabularyIds|
  {
    if vocabularyIds == [] then rs
    else
      var vid := vocabularyIds[0];
      RebaseOneByOne(RebaseVocabulary(rs, user, vid, ReminderList(rs, user, vid), offset, shift),
                     user, vocabularyIds[1..], offset, shift)
  }

  /** One pass of the outer loop: the vocabulary's list is read, and each listed time
      is moved in turn. */
  method AdjustVocabulary(db: Db, user: int, vocabularyId: int, offset: int, shift: ShiftTime)
    requires db.Valid()
    modifies db
    ensures db.Valid()
    ensures db.reminders == RebaseVocabulary(old(db.reminders), user, vocabularyId,
                                             ReminderList(old(db.reminders), user, vocabularyId), offset, shift)
    ensures db.users == old(db.users) && db.vocabularies == old(db.vocabularies)
            && db.words == old(db.words) && db.temp == old(db.temp)
  {
    var entries := ReminderList(db.reminders, user, vocabularyId);
    var j := 0;
    while j < |entries|
      invariant 0 <= j <= |entries|
      invariant db.Valid()
      invariant RebaseVocabulary(db.reminders, user, vocabularyId, entries[j..], offset, shift)
                == RebaseVocabulary(old(db.reminders), user, vocabularyId, entries, offset, shift)
      invariant db.users == old(db.users) && db.vocabularies == old(db.vocabularies)
                && db.words == old(db.words) && db.temp == old(db.temp)
    {
      var time := entries[j].0;
      var _ := db.RemindersSetTime(user, vocabularyId, time, shift(time, offset, 0));
      assert entries[j..][1..] == entries[j + 1..];
      j := j + 1;
    }
  }

  /** `_adjust_reminders_to_new_timezone(user, old_timezone, new_timezone)`, with the
      vocabulary ids `_get_vocabulary_list(user)` yields: every listed time is moved by
      `old_timezone - new_timezone` hours, one update at a time. */
  method AdjustRemindersToNewTimezone(db: Db, user: int, oldTimezone: int, newTimezone: int,
                                      vocabularyIds: seq<int>, shift: ShiftTime)
    requires db.Valid()
    modifies db
    ensures db.Valid()
    ensures db.reminders == RebaseOneByOne(old(db.reminders), user, vocabularyIds, oldTimezone - newTimezone, shift)
    ensures db.users == old(db.users) && db.vocabularies == old(db.vocabularies)
            && db.words == old(db.words) && db.temp == old(db.temp)
  {
    var offset := oldTimezone - newTimezone;
    var i := 0;
    while i < |vocabularyIds|
      invariant 0 <= i <= |vocabularyIds|
      invariant db.Valid()
      invariant RebaseOneByOne(db.reminders, user, vocabularyIds[i..], offset, shift)
                == RebaseOneByOne(old(db.reminders), user, vocabularyIds, offset, shift)
      invariant db.users == old(db.users) && db.vocabularies == old(db.vocabularies)
                && db.words == old(db.words) && db.temp == old(db.temp)
    {
      AdjustVocabulary(db, user, vocabularyIds[i], offset, shift);
      assert vocabularyIds[i..][1..] == vocabularyIds[i + 1..];
      i := i + 1;
    }
  }

  /** Every reminder of the user moved at once, each by the offset from its own stored time. */
  function RebaseAll(rs: seq<ReminderRow>, user: int, offset: int, shift: ShiftTime): (r: seq<ReminderRow>)
    ensures |r| == |rs|
    ensures forall i :: 0 <= i < |rs| ==> r[i].id == rs[i].id && r[i].userId == rs[i].userId
                                          && r[i].vocabularyId == rs[i].vocabularyId
                                          && r[i].numberOfWords == rs[i].numberOfWords
  {
    seq(|rs|, i requires 0 <= i < |rs| =>
      if rs[i].userId == user then rs[i].(time := shift(rs[i].time, offset, 0)) else rs[i])
  }

  /** A clock reading of `shift_time`: the offsets are added on a 24-hour dial and the
      result written as HH:MM; text that is not a time stays as it is. */
  function ShiftClock(t: string, hours: int, minutes: int): string
  {
    match ParseTime(t)
    case None => t
    case Some((h, m)) =>
      var total := (h * 60 + m + hours * 60 + minutes) % 1440;
      FormatTime(total / 60, total % 60)
  }

  /** A whole-hour shift on the dial agrees with `display_time`. */
  lemma ShiftClockHours(t: string, hours: int)
    requires ParseTime(t).Some?
    ensures DisplayTime(t, hours).Success? && ShiftClock(t, hours, 0) == DisplayTime(t, hours).value
  {
    var (h, m) := ParseTime(t).value;
    var q := h + hours;
    var b := q % 24;
    assert q == 24 * (q / 24) + b;
    assert h * 60 + m + hours * 60 + 0 == 1440 * (q / 24) + (60 * b + m);
    assert 0 <= 60 * b + m < 1440;
    DialStep(q / 24, 60 * b + m);
    assert (60 * b + m) / 60 == b && (60 * b + m) % 60 == m;
  }

  /** Whole days drop out of a reading modulo 1440. */
  lemma DialStep(days: int, r: int)
    requires 0 <= r < 1440
    ensures (1440 * days + r) % 1440 == r
  {
  }

  /** Re-based at once, each reminder keeps the local time the user sees: shown in the new
      timezone it reads as it read in the old one. */
  lemma RebaseAllKeepsLocalTime(rs: seq<ReminderRow>, user: int, oldTimezone: int, newTimezone: int, k: int)
    requires 0 <= k < |rs| && rs[k].userId == user && ParseTime(rs[k].time).Some?
    ensures DisplayTime(RebaseAll(rs, user, oldTimezone - newTimezone, ShiftClock)[k].time, newTimezone)
            == DisplayTime(rs[k].time, oldTimezone)
  {
    var t := rs[k].time;
    DisplayTimeShape(t, oldTimezone - newTimezone);
    ShiftClockHours(t, oldTimezone - newTimezone);
    assert RebaseAll(rs, user, oldTimezone - newTimezone, ShiftClock)[k].time
           == DisplayTime(t, oldTimezone - newTimezone).value;
    DisplayTimeCompose(t, oldTimezone - newTimezone, newTimezone);
    assert oldTimezone - newTimezone + newTimezone == oldTimezone;
  }

  /** Shifting is one-to-one on canonical times, so distinct times stay distinct. */
  lemma ShiftClockInjective(a: string, b: string, hours: int)
    requires Canonical(a) && Canonical(b) && a != b
    ensures ShiftClock(a, hours, 0) != ShiftClock(b, hours, 0)
  {
    CanonicalParses(a);
    CanonicalParses(b);
    ShiftClockHours(a, hours);
    ShiftClockHours(b, hours);
    DisplayTimeShape(a, hours);
    DisplayTimeShape(b, hours);
    DisplayTimeCompose(a, hours, -hours);
    DisplayTimeCompose(b, hours, -hours);
    DisplayTimeZero(a);
    DisplayTimeZero(b);
  }

  /** When every stored time of the user is canonical, re-basing them all at once keeps
      UNIQUE(user_id, time). */
  lemma RebaseAllKeepsKeys(rs: seq<ReminderRow>, user: int, offset: int)
    requires Pairwise(rs, RemindersDistinct)
    requires forall i :: 0 <= i < |rs| && rs[i].userId == user ==> Canonical(rs[i].time)
    ensures Pairwise(RebaseAll(rs, user, offset, ShiftClock), RemindersDistinct)
  {
    var r := RebaseAll(rs, user, offset, ShiftClock);
    forall i, j | 0 <= i < j < |r|
      ensures RemindersDistinct(r[i], r[j])
    {
      assert RemindersDistinct(rs[i], rs[j]);
      if rs[i].userId == user && rs[j].userId == user {
        ShiftClockInjective(rs[i].time, rs[j].time, offset);
      }
    }
  }

  /** `_adjust_reminders_to_new_timezone` as its documentation means it: all of the user's
      reminders move together; if that would put two of them on one time, nothing moves.
      With `shift_time` a clock (`ShiftClock`) and canonical times, `RebaseAllKeepsKeys`
      shows the update always happens. */
  method AdjustRemindersAtOnce(db: Db, user: int, oldTimezone: int, newTimezone: int, shift: ShiftTime)
    returns (updated: bool)
    requires db.Valid()
    modifies db
    ensures db.Valid()
    ensures var moved := RebaseAll(old(db.reminders), user, oldTimezone - newTimezone, shift);
            (updated <==> Pairwise(moved, RemindersDistinct))
            && (updated ==> db.reminders == moved)
            && (!updated ==> db.reminders == old(db.reminders))
    ensures db.users == old(db.users) && db.vocabularies == old(db.vocabularies)
            && db.words == old(db.words) && db.temp == old(db.temp)
  {
    var moved := RebaseAll(db.reminders, user, oldTimezone - newTimezone, shift);
    updated := Pairwise(moved, RemindersDistinct);
    if updated {
      RebaseAllKeepsIds(db.vocabularies, db.words, db.reminders, user, oldTimezone - newTimezone, shift);
      db.reminders := moved;
    }
  }

  /** Rebasing keeps every id in place, so the tables stay valid whenever the moved times
      stay distinct. */
  lemma RebaseAllKeepsIds(vs: seq<VocabularyRow>, ws: seq<WordRow>, rs: seq<ReminderRow>, user: int, offset: int,
                          shift: ShiftTime)
    requires TablesValid(vs, ws, rs)
    requires Pairwise(RebaseAll(rs, user, offset, shift), RemindersDistinct)
    ensures TablesValid(vs, ws, RebaseAll(rs, user, offset, shift))
  {
    var moved := RebaseAll(rs, user, offset, shift);
    forall i, j | 0 <= i < j < |moved|
      ensures ReminderIdOf(moved[i]) < ReminderIdOf(moved[j])
    {
      assert ReminderIdOf(rs[i]) < ReminderIdOf(rs[j]);
    }
    if |rs| > 0 {
      assert ReminderIdOf(moved[0]) == ReminderIdOf(rs[0]);
    }
  }

  /** The two reminders of the example below: 10:00 and 11:00 UTC, one vocabulary. */
  function CollisionExample(): seq<ReminderRow>
  {
    [ReminderRow(1, 7, 1, "10:00", 3), ReminderRow(2, 7, 1, "11:00", 3)]
  }

  /** 10:00 moved an hour later lands on 11:00, which the other reminder holds: refused. */
  lemma CollisionFirstUpdate()
    ensures MovedReminders(CollisionExample(), 7, 1, "10:00", "11:00") == CollisionExample()
  {
    var rs := CollisionExample();
    assert FindReminder(rs, 7, 1, "10:00") == Some(0);
    assert TimeTakenByOther(rs, 0, 7, "11:00") by {
      assert rs[1].userId == 7 && rs[1].time == "11:00";
    }
  }

  /** The later reminder of the example is the one at 11:00. */
  lemma CollisionFindSecond()
    ensures FindReminder(CollisionExample(), 7, 1, "11:00") == Some(1)
  {
    var rs := CollisionExample();
    assert rs[1..] == [ReminderRow(2, 7, 1, "11:00", 3)];
  }

  /** No other reminder of the user is at 12:00. */
  lemma CollisionSecondFree()
    ensures !TimeTakenByOther(CollisionExample(), 1, 7, "12:00")
  {
    var rs := CollisionExample();
    assert rs[0].time == "10:00";
  }

  /** 11:00 moved an hour later lands on the free 12:00. */
  lemma CollisionSecondUpdate()
    ensures MovedReminders(CollisionExample(), 7, 1, "11:00", "12:00")
            == [ReminderRow(1, 7, 1, "10:00", 3), ReminderRow(2, 7, 1, "12:00", 3)]
  {
    var rs := CollisionExample();
    assert MovedReminders(rs, 7, 1, "11:00", "12:00") == rs[1 := rs[1].(time := "12:00")] by {
      CollisionFindSecond();
      CollisionSecondFree();
    }
    SecondRowUpdate(rs[0], rs[1], rs[1].(time := "12:00"));
  }

  lemma SecondRowUpdate(a: ReminderRow, b: ReminderRow, c: ReminderRow)
    ensures [a, b][1 := c] == [a, c]
  {
  }


  /** The example's list for vocabulary 1: both reminders, in rowid order. */
  lemma CollisionList()
    ensures ReminderList(CollisionExample(), 7, 1) == [("10:00", 3), ("11:00", 3)]
  {
    var rs := CollisionExample();
    assert Filter(rs, ReminderIn(7, 1)) == rs by {
      assert Filter(rs[1..], ReminderIn(7, 1)) == rs[1..];
    }
  }

  /** An hour later, 10:00 reads 11:00 and 11:00 reads 12:00. */
  lemma CollisionShifts()
    ensures ShiftClock("10:00", 1, 0) == "11:00" && ShiftClock("11:00", 1, 0) == "12:00"
  {
    ClockStep("10:00", 10, "11:00");
    ClockStep("11:00", 11, "12:00");
  }

  /** On the hour, an hour later is the next hour on the hour. */
  lemma ClockStep(t: string, h: int, u: string)
    requires 0 <= h < 23 && Canonical(t) && Canonical(u)
    requires Hour(t) == h && Minute(t) == 0 && Hour(u) == h + 1 && Minute(u) == 0
    ensures ShiftClock(t, 1, 0) == u
  {
    CanonicalParses(t);
    CanonicalParses(u);
    assert (h * 60 + 0 + 1 * 60 + 0) % 1440 == (h + 1) * 60;
  }

  /** The inner loop over the example list: the first update is refused, the second goes. */
  lemma CollisionVocabulary()
    ensures RebaseVocabulary(CollisionExample(), 7, 1, [("10:00", 3), ("11:00", 3)], 1, ShiftClock)
            == [ReminderRow(1, 7, 1, "10:00", 3), ReminderRow(2, 7, 1, "12:00", 3)]
  {
    var rs := CollisionExample();
    var entries: seq<(string, int)> := [("10:00", 3), ("11:00", 3)];
    CollisionShifts();
    CollisionFirstUpdate();
    CollisionSecondUpdate();
    assert entries[1..] == [("11:00", 3)] && |entries[1..][1..]| == 0;
    assert RebaseVocabulary(rs, 7, 1, entries, 1, ShiftClock) == RebaseVocabulary(rs, 7, 1, entries[1..], 1, ShiftClock);
  }

  /** The one-by-one rebase of the example: the earlier reminder is left where it was. */
  lemma CollisionOneByOne()
    ensures RebaseOneByOne(CollisionExample(), 7, [1], 1, ShiftClock)
            == [ReminderRow(1, 7, 1, "10:00", 3), ReminderRow(2, 7, 1, "12:00", 3)]
  {
    var rs := CollisionExample();
    CollisionList();
    CollisionVocabulary();
    var once: seq<int> := [1][1..];
    assert once == [];
    assert RebaseOneByOne(rs, 7, [1], 1, ShiftClock)
           == RebaseVocabulary(rs, 7, 1, ReminderList(rs, 7, 1), 1, ShiftClock);
  }

  /** The at-once rebase of the example: both reminders move an hour. */
  lemma CollisionAtOnce()
    ensures RebaseAll(CollisionExample(), 7, 1, ShiftClock)
            == [ReminderRow(1, 7, 1, "11:00", 3), ReminderRow(2, 7, 1, "12:00", 3)]
  {
    var rs := CollisionExample();
    CollisionShifts();
    var all := RebaseAll(rs, 7, 1, ShiftClock);
    assert all[0] == rs[0].(time := ShiftClock("10:00", 1, 0));
    assert all[1] == rs[1].(time := ShiftClock("11:00", 1, 0));
  }

  /** Two reminders an hour apart in one vocabulary, for a user going from timezone 0 to
      timezone -1, so every time should move an hour later: the earlier one's update hits
      the later one's time and is refused, so it keeps its old UTC time and the user now
      sees it an hour early, while moving them at once gives the intended times. */
  lemma RebaseOneByOneCollides()
    ensures var after := RebaseOneByOne(CollisionExample(), 7, [1], 1, ShiftClock);
            after != RebaseAll(CollisionExample(), 7, 1, ShiftClock)
            && after[0] == CollisionExample()[0]
            && DisplayTime(after[0].time, -1) != DisplayTime(CollisionExample()[0].time, 0)
  {
    var after := RebaseOneByOne(CollisionExample(), 7, [1], 1, ShiftClock);
    assert after[0] == CollisionExample()[0] by { CollisionOneByOne(); }
    assert after != RebaseAll(CollisionExample(), 7, 1, ShiftClock) by {
      CollisionOneByOne();
      CollisionAtOnce();
      assert after[0].time != RebaseAll(CollisionExample(), 7, 1, ShiftClock)[0].time;
    }
    EarlierByAnHour();
  }

  /** 10:00 UTC reads 10:00 in timezone 0 and something else in timezone -1. */
  lemma EarlierByAnHour()
    ensures DisplayTime("10:00", -1) != DisplayTime("10:00", 0)
  {
    DisplayTimeZero("10:00");
    CanonicalParses("10:00");
    DisplayTimeShape("10:00", -1);
  }
}
