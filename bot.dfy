/** bot/__init__.py: the Bot object's own logic. Outbound calls to the chat platform are
    appended to an effect log; the platform assigns consecutive message ids. */
module Bot {
  import opened Wrappers
  import opened Text
  import opened Telegram
  import opened Database
  import opened Tables
  import opened Translations
  import TempManager
  import Settings

  /** `get_cancel_button(lang)`: one row holding one button, labelled with a cross and the
      translated "cancel", whose payload is `[CANCEL]`. The translation may fail. */
  function GetCancelButton(lang: Option<string>): (r: Result<Markup>)
    ensures r.Success? <==> Translate(lang, "cancel", map[]).Success?
    ensures r.Failure? ==> r.error == Translate(lang, "cancel", map[]).error
    ensures r.Success? ==>
              r.value == Inline([[Button("\U{274C} " + Translate(lang, "cancel", map[]).value, [Act(Cancel)])]])
  {
    var caption :- Translate(lang, "cancel", map[]);
    Success(Inline([[Button("\U{274C} " + caption, [Act(Cancel)])]]))
  }

  /** In English the button reads "❌ Cancel"; for a Polish user its translation is missing. */
  lemma CancelButtonLabels()
    ensures GetCancelButton(Some("en")) == Success(Inline([[Button("\U{274C} Cancel", [Act(Cancel)])]]))
    ensures GetCancelButton(Some("pl")) == Failure(KeyError("cancel"))
  {
    PolishKeys("cancel", map[]);
    TranslateNoValues(Some("en"), "cancel");
    assert "\U{274C} " + "Cancel" == "\U{274C} Cancel";
  }

  /** The markup `deliver_message` sends: an explicit one, else the cancel keyboard when
      asked for, else the keyboard-removal request. */
  function FinalMarkup(replyMarkup: Option<Markup>, addCancelButton: bool, lang: Option<string>): (r: Result<Markup>)
    ensures replyMarkup.Some? ==> r == Success(replyMarkup.value)
    ensures replyMarkup.None? && addCancelButton ==> r == GetCancelButton(lang)
    ensures replyMarkup.None? && !addCancelButton ==> r == Success(RemoveKeyboard)
  {
    if replyMarkup.Some? then Success(replyMarkup.value)
    else if addCancelButton then GetCancelButton(lang)
    else Success(RemoveKeyboard)
  }

  /** What clearing a user's cancel slot sends: the recorded message loses its keyboard. */
  function CleanupEffects(temp: map<(int, TempKey), Option<string>>, user: int): (e: seq<Effect>)
    ensures (user, CancelButtonId) in temp ==> e == [EditMarkup(user, temp[(user, CancelButtonId)], None)]
    ensures (user, CancelButtonId) !in temp ==> e == []
  {
    if (user, CancelButtonId) in temp then [EditMarkup(user, temp[(user, CancelButtonId)], None)] else []
  }

  predicate NotExcluded(exceptions: seq<int>, user: int) { user !in exceptions }

  function Keeper(exceptions: seq<int>): int -> bool { (u: int) => NotExcluded(exceptions, u) }

  /** The users `broadcast` writes to: the query's rows without the exceptions, in order. */
  function Recipients(rows: seq<int>, exceptions: seq<int>): seq<int>
  {
    Filter(rows, Keeper(exceptions))
  }

  /** Exactly the listed users outside `exceptions` receive the broadcast. */
  lemma RecipientsExact(rows: seq<int>, exceptions: seq<int>)
    ensures forall u :: u in Recipients(rows, exceptions) <==> u in rows && u !in exceptions
  {
    FilterMembers(rows, Keeper(exceptions));
  }

  /** The sends to `recipients`, in order: the i-th gets the i-th new message id. */
  function BroadcastLog(recipients: seq<int>, text: string, markup: Markup, firstId: int): (log: seq<Effect>)
    ensures |log| == |recipients|
    ensures forall i :: 0 <= i < |log| ==> log[i] == Send(recipients[i], text, markup, None, firstId + i)
  {
    seq(|recipients|, i requires 0 <= i < |recipients| => Send(recipients[i], text, markup, None, firstId + i))
  }

  /** One more row adds one recipient, and one send numbered after the others, exactly
      when that user is not excluded. */
  lemma BroadcastLogStep(rows: seq<int>, exceptions: seq<int>, text: string, markup: Markup, firstId: int, x: int)
    ensures Recipients(rows + [x], exceptions)
            == Recipients(rows, exceptions) + (if x !in exceptions then [x] else [])
    ensures BroadcastLog(Recipients(rows + [x], exceptions), text, markup, firstId)
            == BroadcastLog(Recipients(rows, exceptions), text, markup, firstId)
               + (if x !in exceptions then [Send(x, text, markup, None, firstId + |Recipients(rows, exceptions)|)] else [])
  {
    FilterAppend(rows, [x], Keeper(exceptions));
    assert [x][1..] == [];
    assert Filter([x], Keeper(exceptions)) == if x !in exceptions then [x] else [];
  }

  /** The recipients a broadcast reaches: those before the first one whose send raises,
      which ends the loop. */
  function Reached(recipients: seq<int>, fails: set<int>): (r: seq<int>)
    ensures |r| <= |recipients| && r == recipients[..|r|]
    ensures forall u :: u in r ==> u !in fails
    ensures |r| < |recipients| ==> recipients[|r|] in fails
    ensures (forall i :: 0 <= i < |recipients| ==> recipients[i] !in fails) ==> r == recipients
  {
    if recipients == [] then []
    else if recipients[0] in fails then
      []
    else [recipients[0]] + Reached(recipients[1..], fails)
  }

  /** While no send failed, the recipients handled so far are all reached. */
  lemma {:induction false} ReachedAppend(a: seq<int>, b: seq<int>, fails: set<int>)
    requires forall u :: u in a ==> u !in fails
    ensures Reached(a + b, fails) == a + Reached(b, fails)
  {
    if a == [] {
      assert a + b == b;
    } else {
      assert a[0] in a;
      assert a == [a[0]] + a[1..];
      assert (a + b)[0] == a[0];
      assert (a + b)[1..] == a[1..] + b;
      ReachedAppend(a[1..], b, fails);
    }
  }

  /** A broadcast over the users table with no failing send writes to every stored user
      outside `exceptions` exactly once, and to nobody else. */
  lemma BroadcastReachesEveryUser(users: map<int, UserRow>, rows: seq<int>, exceptions: seq<int>, fails: set<int>,
                                  text: string, markup: Markup, firstId: int)
    requires forall u :: u in rows <==> u in users
    requires forall i, j :: 0 <= i < j < |rows| ==> rows[i] != rows[j]
    requires forall u :: u in Recipients(rows, exceptions) ==> u !in fails
    ensures var log := BroadcastLog(Reached(Recipients(rows, exceptions), fails), text, markup, firstId);
            (forall k :: 0 <= k < |log| ==> log[k].chat in users && log[k].chat !in exceptions)
            && (forall u :: u in users && u !in exceptions ==>
                  exists k :: 0 <= k < |log| && log[k].chat == u
                              && forall k' :: 0 <= k' < |log| && log[k'].chat == u ==> k' == k)
  {
    var rs := Recipients(rows, exceptions);
    forall i | 0 <= i < |rs| ensures rs[i] !in fails {
      var x := rs[i];
      assert x in Recipients(rows, exceptions);
      assert x !in fails;
    }
    assert Reached(rs, fails) == rs;
    RecipientsExact(rows, exceptions);
    assert Pairwise(rows, (a: int, b: int) => a != b);
    FilterPairwise(rows, Keeper(exceptions), (a: int, b: int) => a != b);
    assert forall i, j :: 0 <= i < j < |rs| ==> rs[i] != rs[j];
    var log := BroadcastLog(rs, text, markup, firstId);
    forall u | u in users && u !in exceptions
      ensures exists k :: 0 <= k < |log| && log[k].chat == u
                          && forall k' :: 0 <= k' < |log| && log[k'].chat == u ==> k' == k
    {
      var k :| 0 <= k < |rs| && rs[k] == u;
      assert log[k].chat == u;
      forall k' | 0 <= k' < |log| && log[k'].chat == u ensures k' == k {
        assert rs[k'] == u;
      }
    }
    forall k | 0 <= k < |log| ensures log[k].chat in users && log[k].chat !in exceptions {
      assert log[k].chat == rs[k];
    }
  }

  /** bot/_settings.py's `get_user_parameters(user).language`, then "error": the `del`
      inside it raises, for every user, so no notice is ever built. */
  function ErrorNoticeAsWritten(users: map<int, UserRow>, user: int): (r: Result<string>)
    ensures r == Failure(TypeError)
  {
    match Settings.GetUserParameters(users, user)
    case Failure(e) => Failure(e)
    case Success(EmptyList) => Failure(AttributeError)
    case Success(RowTuple(row)) => Translate(row.language, "error", map[])
  }

  /** The handler `handle_update` passes the update to. */
  datatype HandlerKind = MessageHandler | CallbackQueryHandler | ChatMemberHandler

  /** The first of message, callback_query and my_chat_member present in the update. */
  function HandlerFor(update: Update): (h: Option<HandlerKind>)
    ensures h.None? <==> TempManager.GetUser(update).Failure?
    ensures update.message.Some? ==> h == Some(MessageHandler)
    ensures update.message.None? && update.callbackQuery.Some? ==> h == Some(CallbackQueryHandler)
    ensures update.message.None? && update.callbackQuery.None? && update.myChatMember.Some? ==> h == Some(ChatMemberHandler)
  {
    if update.message.Some? then Some(MessageHandler)
    else if update.callbackQuery.Some? then Some(CallbackQueryHandler)
    else if update.myChatMember.Some? then Some(ChatMemberHandler)
    else None
  }

  /** The error notice as intended: the user's language from the users row (reading
      `.language` of the empty result is an AttributeError), then the "error" string. */
  function ErrorNotice(users: map<int, UserRow>, user: int): (r: Result<string>)
    ensures user !in users ==> r == Failure(AttributeError)
    ensures user in users ==> r == Translate(users[user].language, "error", map[])
  {
    if user !in users then Failure(AttributeError) else Translate(users[user].language, "error", map[])
  }

  /** What `handle_update` did: which handler it called, and whether it sent an error notice. */
  datatype Outcome = Outcome(handler: Option<HandlerKind>, notified: bool)

  class Bot {
    const db: Db
    /** The chats whose `sendMessage` raises (a user who blocked the bot, say). */
    const sendFails: set<int>
    /** The chats whose `editMessageReplyMarkup` raises (the recorded message was deleted,
        say). */
    const editFails: set<int>
    /** Every platform call that went through, oldest first. */
    var log: seq<Effect>
    /** The id the platform gives the next message sent. */
    var nextMessageId: int

    ghost predicate Valid()
      reads this, db
    {
      db.Valid() && nextMessageId > 0
    }

    constructor (db: Db, sendFails: set<int>, editFails: set<int>)
      requires db.Valid()
      ensures Valid()
      ensures this.db == db && this.sendFails == sendFails && this.editFails == editFails
      ensures log == [] && nextMessageId == 1
    {
      this.db := db;
      this.sendFails := sendFails;
      this.editFails := editFails;
      log := [];
      nextMessageId := 1;
    }

    /** Clearing `user`'s cancel slot raises: a message is recorded and editing it fails. */
    predicate CleanupRaises(temp: map<(int, TempKey), Option<string>>, user: int)
      reads this
    {
      (user, CancelButtonId) in temp && user in editFails
    }

    /** `manage_cancel_buttons(user, new_cancel_button_id, delete_old)`: with `delete_old`
        a recorded cancel message has its keyboard removed; a truthy new id is then recorded
        (replacing any earlier one, for a user with a users row), and otherwise a slot that
        was found is deleted. When the edit raises, nothing after it happens. */
    method ManageCancelButtons(user: int, newId: Option<int>, deleteOld: bool) returns (r: Result<()>)
      requires Valid()
      modifies this, db
      ensures Valid()
      ensures r.Failure? <==> deleteOld && CleanupRaises(old(db.temp), user)
      ensures r.Failure? ==> r.error == TelegramError && log == old(log) && db.temp == old(db.temp)
      ensures r.Success? ==> log == old(log) + (if deleteOld then CleanupEffects(old(db.temp), user) else [])
      ensures r.Success? && TruthyInt(newId) && user in old(db.users) ==>
                db.temp == old(db.temp)[(user, CancelButtonId) := Some(IntToString(newId.value))]
      ensures r.Success? && TruthyInt(newId) && user !in old(db.users) ==> db.temp == old(db.temp)
      ensures r.Success? && !TruthyInt(newId) && deleteOld ==> db.temp == old(db.temp) - {(user, CancelButtonId)}
      ensures r.Success? && !TruthyInt(newId) && !deleteOld ==> db.temp == old(db.temp)
      ensures nextMessageId == old(nextMessageId)
      ensures db.users == old(db.users) && db.vocabularies == old(db.vocabularies)
              && db.words == old(db.words) && db.reminders == old(db.reminders)
    {
      var found := false;
      if deleteOld && (user, CancelButtonId) in db.temp {
        found := true;
        if user in editFails {
          return Failure(TelegramError);
        }
        log := log + [EditMarkup(user, db.temp[(user, CancelButtonId)], None)];
      }
      if TruthyInt(newId) {
        var _ := db.TempAdd(user, CancelButtonId, Some(IntToString(newId.value)), true);
      } else if found {
        var _ := db.TempDelete(user, CancelButtonId);
      }
      r := Success(());
    }

    /** `deliver_message(...)`: sends with the markup `FinalMarkup` picks; when asked for a
        cancel button it records the new message's id without touching the old record
        (that is left to `get_user`). A cancel label that cannot be translated, or a send
        that raises, fails with nothing sent and nothing recorded. */
    method DeliverMessage(user: int, text: string, addCancelButton: bool, lang: Option<string>,
                          replyTo: Option<int>, replyMarkup: Option<Markup>) returns (r: Result<()>)
      requires Valid()
      modifies this, db
      ensures Valid()
      ensures r.Failure? <==> FinalMarkup(replyMarkup, addCancelButton, lang).Failure? || user in sendFails
      ensures r.Failure? && FinalMarkup(replyMarkup, addCancelButton, lang).Failure? ==>
                r.error == FinalMarkup(replyMarkup, addCancelButton, lang).error
      ensures r.Failure? && FinalMarkup(replyMarkup, addCancelButton, lang).Success? ==> r.error == TelegramError
      ensures r.Failure? ==> log == old(log) && nextMessageId == old(nextMessageId) && db.temp == old(db.temp)
      ensures r.Success? ==>
                log == old(log) + [Send(user, text, FinalMarkup(replyMarkup, addCancelButton, lang).value, replyTo, old(nextMessageId))]
                && nextMessageId == old(nextMessageId) + 1
      ensures r.Success? && addCancelButton && user in old(db.users) ==>
                db.temp == old(db.temp)[(user, CancelButtonId) := Some(IntToString(old(nextMessageId)))]
      ensures !(r.Success? && addCancelButton && user in old(db.users)) ==> db.temp == old(db.temp)
      ensures db.users == old(db.users) && db.vocabularies == old(db.vocabularies)
              && db.words == old(db.words) && db.reminders == old(db.reminders)
    {
      var markup := FinalMarkup(replyMarkup, addCancelButton, lang);
      if markup.Failure? {
        return Failure(markup.error);
      }
      if user in sendFails {
        return Failure(TelegramError);
      }
      var id := nextMessageId;
      log := log + [Send(user, text, markup.value, replyTo, id)];
      nextMessageId := nextMessageId + 1;
      if addCancelButton {
        var _ := ManageCancelButtons(user, Some(id), false);
      }
      r := Success(());
    }

    /** `broadcast(text, reply_markup, exceptions)` over `rows`, the user ids
        `SELECT user_id FROM users` returned, in that order: one send to each id not in
        `exceptions`, until a send raises; that exception ends the loop and escapes. */
    method Broadcast(text: string, replyMarkup: Option<Markup>, exceptions: seq<int>, rows: seq<int>)
      returns (r: Result<()>)
      requires Valid()
      requires forall u :: u in rows <==> u in db.users
      requires forall i, j :: 0 <= i < j < |rows| ==> rows[i] != rows[j]
      modifies this, db
      ensures Valid()
      ensures var reached := Reached(Recipients(rows, exceptions), sendFails);
              log == old(log) + BroadcastLog(reached, text, FinalMarkup(replyMarkup, false, None).value, old(nextMessageId))
              && nextMessageId == old(nextMessageId) + |reached|
              && (r.Success? <==> reached == Recipients(rows, exceptions))
      ensures r.Failure? ==> r.error == TelegramError
      ensures (forall u :: u in db.users && u !in exceptions ==> u !in sendFails) ==> r.Success?
      ensures db.temp == old(db.temp) && db.users == old(db.users) && db.vocabularies == old(db.vocabularies)
              && db.words == old(db.words) && db.reminders == old(db.reminders)
    {
      var markup := FinalMarkup(replyMarkup, false, None).value;
      var i := 0;
      while i < |rows|
        invariant 0 <= i <= |rows|
        invariant Valid()
        invariant forall u :: u in Recipients(rows[..i], exceptions) ==> u !in sendFails
        invariant log == old(log) + BroadcastLog(Recipients(rows[..i], exceptions), text, markup, old(nextMessageId))
        invariant nextMessageId == old(nextMessageId) + |Recipients(rows[..i], exceptions)|
        invariant db.temp == old(db.temp) && db.users == old(db.users) && db.vocabularies == old(db.vocabularies)
                  && db.words == old(db.words) && db.reminders == old(db.reminders)
      {
        BroadcastLogStep(rows[..i], exceptions, text, markup, old(nextMessageId), rows[i]);
        assert rows[..i + 1] == rows[..i] + [rows[i]];
        if rows[i] !in exceptions {
          var sent := DeliverMessage(rows[i], text, false, Some(""), None, replyMarkup);
          if sent.Failure? {
            BroadcastStopsAt(rows, exceptions, i);
            assert rows[i] in rows;
            return Failure(TelegramError);
          }
        }
        i := i + 1;
      }
      assert rows[..i] == rows;
      assert Reached(Recipients(rows, exceptions), sendFails) == Recipients(rows, exceptions);
      r := Success(());
    }

    /** Where a failing send at row `i` leaves the broadcast: exactly the recipients
        before it were reached. */
    lemma BroadcastStopsAt(rows: seq<int>, exceptions: seq<int>, i: int)
      requires 0 <= i < |rows| && rows[i] !in exceptions && rows[i] in sendFails
      requires forall u :: u in Recipients(rows[..i], exceptions) ==> u !in sendFails
      ensures Reached(Recipients(rows, exceptions), sendFails) == Recipients(rows[..i], exceptions)
      ensures Reached(Recipients(rows, exceptions), sendFails) != Recipients(rows, exceptions)
    {
      assert rows == rows[..i] + rows[i..];
      FilterAppend(rows[..i], rows[i..], Keeper(exceptions));
      assert rows[i..][0] == rows[i];
      var tail := Recipients(rows[i..], exceptions);
      assert tail[0] == rows[i];
      ReachedAppend(Recipients(rows[..i], exceptions), tail, sendFails);
      assert Reached(tail, sendFails) == [];
    }

    /** `Bot.get_user(update)`: resolves the user as `get_user` does, then clears that
        user's cancel slot. An update without a user changes nothing; an edit that raises
        escapes and leaves the slot as it was. */
    method GetUser(update: Update) returns (r: Result<int>)
      requires Valid()
      modifies this, db
      ensures Valid()
      ensures var u := TempManager.GetUser(update);
              u.Failure? ==> r == u && log == old(log) && db.temp == old(db.temp)
      ensures var u := TempManager.GetUser(update);
              u.Success? && CleanupRaises(old(db.temp), u.value) ==>
                r == Failure(TelegramError) && log == old(log) && db.temp == old(db.temp)
      ensures var u := TempManager.GetUser(update);
              u.Success? && !CleanupRaises(old(db.temp), u.value) ==>
                r == u && log == old(log) + CleanupEffects(old(db.temp), u.value)
                && db.temp == old(db.temp) - {(u.value, CancelButtonId)}
      ensures nextMessageId == old(nextMessageId)
      ensures db.users == old(db.users) && db.vocabularies == old(db.vocabularies)
              && db.words == old(db.words) && db.reminders == old(db.reminders)
    {
      r := TempManager.GetUser(update);
      if r.Success? {
        var cleared := ManageCancelButtons(r.value, None, true);
        if cleared.Failure? {
          r := Failure(cleared.error);
        }
      }
    }

    /** `handle_update(update)`, with the routed handler's outcome given as
        `handlerRaises`. The user is resolved first; when that raises, `user` is still
        None, so no handler runs and no notice is attempted. Otherwise the handler is
        picked by the first present key, and on an exception an error notice is attempted
        for a truthy user id; a failure of that attempt is swallowed. */
    method HandleUpdate(update: Update, handlerRaises: bool) returns (outcome: Outcome)
      requires Valid()
      modifies this, db
      ensures Valid()
      ensures var u := TempManager.GetUser(update);
              var resolved := u.Success? && !CleanupRaises(old(db.temp), u.value);
              outcome.handler == (if resolved then HandlerFor(update) else None)
              && (outcome.notified <==>
                    resolved && handlerRaises && u.value != 0 && ErrorNotice(old(db.users), u.value).Success?
                    && u.value !in sendFails)
      ensures var u := TempManager.GetUser(update);
              (u.Failure? || CleanupRaises(old(db.temp), u.value)) ==> log == old(log) && db.temp == old(db.temp)
      ensures var u := TempManager.GetUser(update);
              u.Success? && !CleanupRaises(old(db.temp), u.value) ==>
                db.temp == old(db.temp) - {(u.value, CancelButtonId)}
                && log == old(log) + CleanupEffects(old(db.temp), u.value)
                          + (if outcome.notified
                             then [Send(u.value, ErrorNotice(old(db.users), u.value).value, RemoveKeyboard, None, old(nextMessageId))]
                             else [])
      ensures db.users == old(db.users) && db.vocabularies == old(db.vocabularies)
              && db.words == old(db.words) && db.reminders == old(db.reminders)
    {
      var r := GetUser(update);
      if r.Failure? {
        outcome := Outcome(None, false);
      } else {
        var user := r.value;
        var notified := false;
        if handlerRaises && user != 0 {
          var notice := ErrorNotice(db.users, user);
          if notice.Success? {
            var sent := DeliverMessage(user, notice.value, false, Some(""), None, None);
            notified := sent.Success?;
          }
        }
        outcome := Outcome(HandlerFor(update), notified);
      }
    }
  }
}
