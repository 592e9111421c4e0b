# words-reminder, modelled in Dafny

words-reminder is a Telegram bot that keeps a user's vocabularies and words and sends
reminders at chosen times of day. This project models the logic of its core in Dafny and
proves properties of that model. The chat platform, SQLite and the clock are abstracted:
the platform becomes an effect log, the five tables become in-memory state with their
constraints checked explicitly, and the clock is a value passed in.

One module per source file:

- `Router` (router.py): the route table as a class holding a `map`, the `route`
  decorator's validation and insertion, and `get_route`'s exact lookup.
- `TempManager` (bot/temp_manager.py): the per-user Temp slots, the STATE slot, the
  process-wide `user_parameters` cache, `check_missing_setup` and `get_user`.
- `Bot` (bot/__init__.py): the Bot class, with the platform calls appended to an effect log
  and message ids handed out in order. A send or an edit can raise, for the chats the
  platform is given as failing. It covers the cancel-button bookkeeping,
  `deliver_message`, `broadcast`, `get_user` and `handle_update`.
- `Settings` (bot/_settings.py): the uncached `get_user_parameters`, which three other
  files import.
- `Database` (database.py, query building): column validation and the SQL text and
  parameters that `add`, `add_bulk`, `get`, `count_where`, `set` and `delete` build. It
  also covers the `CursorError` sentinel and how `get` shapes its result.
- `Tables` (database.py, constraints): the users, vocabularies, words, reminders and temp
  tables as the fields of a class `Db`.
  - Each table call is a method. PRIMARY KEY, UNIQUE, NOT NULL and FOREIGN KEY clashes
    come back as failures instead of exceptions.
  - The two vocabulary triggers keep `current_vocabulary_id` up to date.
  - Rowids ascend, as SQLite assigns them.
- `Vocabularies`, `Words`, `Reminders` (bot/_vocabularies.py, bot/_words.py, the database
  half of bot/_reminders.py): building the delete conditions, mapping outcomes to status
  codes, handling duplicates, and moving reminders onto a new timezone.
- `ReminderPages` (the page half of bot/_reminders.py): the reminder list as sorted text,
  a vocabulary's reminder section, the inline reminder list, and the add and delete
  finalizers.
- `InputPicker` (bot/_input_picker.py): the time picker with its adjustment rows, and the
  number keyboard.
- `TimePicker` (bot/_time_picker.py): the stand-alone time picker and the `/test` and
  `/test2` commands.
- `Utils` (bot/utils.py and bot/_utils.py): `html_wrapper`, `escape_html`, `display_time`
  and `pad`. The `html_wrapper` and `escape_html` of bot/_utils.py are the same text as
  those of bot/utils.py, so one definition models both.
- `Translations` (translations.py): the string table, language normalisation and
  `translate`.
- `Commands` (bot/_commands.py): `/start` with its username derivation, and the menu.
- Shared modules:
  - `Wrappers`: Option, Result and the Python exceptions raised.
  - `Text`: string helpers standing for `str` methods.
  - `Telegram`: updates, payload items, buttons, markups, effects and the enums of
    bot/_enums.py. These enums also carry the members that the handlers use but that
    bot/_enums.py does not declare (see "## Left out").

`shift_time`, `conjugate_word` and `_get_vocabulary_name` are not part of the source that
was modelled. Their callers take them as function parameters with no properties assumed.
`suggest_reminder_time()` and the current time are value parameters. A JSON payload is a
sequence of `Item`s, not text.

## Model

| member | source | states |
|---|---|---|
| Router.Lookup | router.py:36-37 | `routes[key]` finds an entry exactly when the key is stored, returns that entry, and otherwise raises KeyError |
| Router.Registered | router.py:17-18 | a registration binds its key to the new entry, adds no other key and leaves every other entry as it was |
| Router.RegisterThenLookup | router.py:17-37 | looking up a key right after registering it returns the registered function, action and cancel flag |
| Router.LastRegistrationWins | router.py:18 | registering twice under one key leaves the second entry |
| Router.RegistrationIsLocal | router.py:17-18 | a registration does not change the lookup of any other key, found or missing |
| Router.MultiActionRejected | router.py:9 | "multi_action" is not an accepted action for any trigger |
| Router.RouteTable.constructor | router.py:10 | the route table starts empty |
| Router.RouteTable.Route | router.py:13-23 | valid trigger and action: the entry is stored and the function itself is returned, so it can be decorated again; otherwise ValueError("Invalid arguments") and the table is unchanged |
| Router.RouteTable.GetRoute | router.py:26-37 | the lookup of (trigger, state, query_action, command) succeeds exactly when that key is registered, and a miss is a KeyError |
| TempManager.GetUser | bot/temp_manager.py:40-50 | the id comes from the message chat, else the callback sender, else the membership-change sender; with none of them it is KeyError("Couldn't find user") |
| TempManager.GetUserPriority | bot/temp_manager.py:40-48 | once a higher-priority field is present, the lower ones never change the answer |
| TempManager.MissingSetup | bot/temp_manager.py:53-70 | as intended: each stage is reported exactly when every earlier condition holds and its own fails, in the order user row, language, current vocabulary, TIMEZONE_NOT_SET |
| TempManager.MissingSetupAsWritten | bot/temp_manager.py:53-67 | as written: the first three checks answer as MissingSetup does; once they pass, the undeclared `TEMP_KEYS.TIMEZONE_NOT_SET` raises AttributeError, so "timezone" is never reported |
| TempManager.SetupNeverCompleteAsWritten | bot/temp_manager.py:53-70 | as written, setup is never reported complete: where the intended check finds nothing missing or only the timezone, the source raises |
| TempManager.MissingSetupAsWrittenRaises | bot/temp_manager.py:66 | user 5 with language "en" and current vocabulary 1: nothing is missing by the intended check, and the source raises AttributeError |
| TempManager.SetupComplete | bot/temp_manager.py:53-70 | as intended: no stage is reported exactly when the row exists, language and current vocabulary are truthy, and TIMEZONE_NOT_SET is not |
| TempManager.TempStore.constructor | bot/temp_manager.py:10 | the `user_parameters` cache starts empty |
| TempManager.TempStore.GetTemp | bot/temp_manager.py:20-24 | the stored value of the (user, key) slot, or None when no slot exists |
| TempManager.TempStore.SetTemp | bot/temp_manager.py:13-17 | the slot takes the value and overwrites the earlier one; every other slot is unchanged; a user with no users row adds nothing; the status is SUCCESS either way because `add`'s pair is truthy |
| TempManager.TempStore.RemoveTemp | bot/temp_manager.py:27-31 | SUCCESS exactly when the slot existed; afterwards it reads None and the other slots are unchanged |
| TempManager.TempStore.PopTemp | bot/temp_manager.py:34-37 | returns the value held before (None if absent) and leaves the slot absent |
| TempManager.TempStore.CachedParameters | bot/temp_manager.py:73-80 | what `get_user_parameters` yields: the cached row, else the users row; nothing exactly when neither exists |
| TempManager.TempStore.CacheAfterRead | bot/temp_manager.py:77-79 | after a read, the cache holds its old entries unchanged, plus the table row of an uncached user who has one, and nothing else; the read user is cached exactly when the read found a row |
| TempManager.TempStore.GetUserParameters | bot/temp_manager.py:73-80 | a cached row is served even after the table changes; otherwise the table is read and only a found row is cached; the new cache is `CacheAfterRead` |
| TempManager.TempStore.InvalidateCachedParameters | bot/temp_manager.py:83-85 | removes that user's cache entry and keeps every other entry |
| TempManager.TempStore.CheckMissingSetupAsWritten | bot/temp_manager.py:53-67 | as written: `MissingSetupAsWritten` of the parameters as the cache yields them, and the cache as `CacheAfterRead` leaves it |
| TempManager.TempStore.CheckMissingSetup | bot/temp_manager.py:53-80 | as intended: the stage of `MissingSetup` for the parameters as the cache yields them and the TIMEZONE_NOT_SET slot; the cache keeps what it held and, for an uncached user with a row, gains that row |
| TempManager.TempStore.GetUserState | bot/temp_manager.py:88-91 | None without a STATE value, otherwise `int` of the stored text, which fails exactly when the text is not an integer |
| TempManager.TempStore.SetUserState | bot/temp_manager.py:94-98 | the state is stored as decimal text and then reads back as the same integer |
| TempManager.TempStore.ResetUserState | bot/temp_manager.py:101-105 | SUCCESS exactly when a state was stored; afterwards the state reads None |
| Settings.FetchUser | database.py:267-284 | `Users.get(..., include_column_names=True)` gives the lone row as a namedtuple exactly when the user has one, and `[]` otherwise |
| Settings.GetUserParameters | bot/_settings.py:4-7 | the `del parameters["user_id"]` raises TypeError for a user with a row and for one without, so the function never returns |
| Text.Lower | bot/_commands.py:20 | `str.lower()` keeps the length and lowers each character |
| Text.ParseInt | bot/temp_manager.py:91 | `int(s)` succeeds exactly on an optionally signed run of ASCII decimal digits with no surrounding whitespace and no underscores |
| Text.IntToStringRoundTrip | bot/temp_manager.py:91 | `int(str(n)) == n` for every integer |
| Text.Split | bot/_input_picker.py:42-43 | `s.split(c)` gives one more piece than there are `c`s, and no piece holds `c` |
| Text.SplitAround | bot/_input_picker.py:42-43 | text with exactly one `c` splits into the part before it and the part after it |
| Text.SplitNone | bot/_input_picker.py:42-43 | text with no `c` splits into itself alone |
| Text.LessIrreflexive | bot/_reminders.py:132 | no string sorts before itself |
| Text.LessTotal | bot/_reminders.py:132 | of two different strings, one sorts before the other, as the sort key needs |
| Text.LessTransitive | bot/_reminders.py:132 | the string order the sort compares with is transitive |
| Bot.GetCancelButton | bot/__init__.py:30-36 | one row with one button, labelled with a cross and the translated "cancel", with payload `[CANCEL]`; fails exactly when the translation fails |
| Bot.CancelButtonLabels | bot/__init__.py:34-35 | it reads "❌ Cancel" in English; for Polish the string is missing, a KeyError |
| Bot.FinalMarkup | bot/__init__.py:54-59 | an explicit markup, else the cancel keyboard when asked for, else `{'remove_keyboard': True}` |
| Bot.CleanupEffects | bot/__init__.py:41-45 | a recorded cancel message has its keyboard removed; with no record nothing is sent |
| Bot.RecipientsExact | bot/__init__.py:73-76 | a user receives a broadcast exactly when they are listed and not excluded |
| Bot.BroadcastLog | bot/__init__.py:72-76 | one send per recipient, in recipient order, with consecutive message ids |
| Bot.BroadcastLogStep | bot/__init__.py:73-76 | one more row adds one recipient and one send, numbered after the others, exactly when that id is not excluded |
| Bot.Reached | bot/__init__.py:73-76 | the recipients before the first whose send raises: a prefix of the recipients with no failing chat, followed by a failing one unless it is all of them; all of them exactly when no chat fails |
| Bot.ReachedAppend | bot/__init__.py:73-76 | recipients handled without a failure are all reached, whatever follows them |
| Bot.BroadcastReachesEveryUser | bot/__init__.py:72-76 | over `SELECT user_id FROM users` (each stored user once) with no failing send, every stored user outside `exceptions` gets exactly one message and nobody else gets one |
| Bot.HandlerFor | bot/__init__.py:111-118 | the first present key among message, callback_query and my_chat_member picks the handler; no key is present exactly when `get_user` fails |
| Bot.ErrorNotice | bot/__init__.py:126-127 | as intended: the translated "error" string in the language of the user's row; a missing users row is an AttributeError |
| Bot.ErrorNoticeAsWritten | bot/__init__.py:126 | through bot/_settings.py's `get_user_parameters` the notice fails with TypeError for every user, row or not |
| Bot.Bot.constructor | bot/__init__.py:19-22 | an empty effect log and message ids from 1, for a platform whose sends raise for the chats `sendFails` and whose edits raise for `editFails` |
| Bot.Bot.ManageCancelButtons | bot/__init__.py:38-50 | with `delete_old`, the old keyboard is removed; a truthy new id replaces the record; otherwise a record that was found is deleted; an edit that raises escapes with the log and the slot as they were; other tables unchanged |
| Bot.Bot.DeliverMessage | bot/__init__.py:52-66 | sends with the chosen markup and the next message id; with `add_cancel_button` it records that id and does not edit the old record; a failing cancel label or a send that raises sends and records nothing |
| Bot.Bot.Broadcast | bot/__init__.py:68-77 | over the users query's ids, the log grows by exactly the sends to the reached recipients, in order; the first send that raises ends the loop and escapes; success exactly when every recipient was reached, which holds whenever no stored user outside `exceptions` fails; the tables are unchanged |
| Bot.Bot.GetUser | bot/__init__.py:90-101 | resolves the user as `get_user` does, then clears the cancel slot and removes its keyboard; without a user nothing changes; when that edit raises, the exception escapes and the slot stays |
| Bot.Bot.HandleUpdate | bot/__init__.py:103-131 | when `get_user` raises (no user, or a failing edit of the recorded cancel message), `user` is still None: no handler runs, no notice is sent and the slot stays, so the next update from that user fails the same way; otherwise dispatch by the first present key, and when the handler raises one notice goes to a non-zero user whose notice can be built and sent; a failed notice is swallowed; the notice is the corrected `ErrorNotice`, since as written it always fails (`ErrorNoticeAsWritten`) and `notified` is false |
| Database.UsersWellFormed | database.py:328-330 | no `?` appears in the users table's name or columns, so every `?` in its statements is a placeholder |
| Database.InvalidColumns | database.py:147 | the listed columns are exactly the keys the table does not declare |
| Database.ValidateColumns | database.py:146-150 | ValueError exactly when some key is not a declared column, naming the unknown ones |
| Database.InsertQuery | database.py:168-180 | empty data fails with ValueError; an unknown column fails; otherwise the keys are listed in order and the values are the parameters in the same order |
| Database.InsertReplaceOnlyWhenAsked | database.py:175-178 | `INSERT OR REPLACE` is used exactly when `replace` is set |
| Database.PlaceholdersCount | database.py:173 | `', '.join('?' * n)` holds exactly n placeholders |
| Database.InsertPlaceholdersMatch | database.py:172-180 | the INSERT has one `?` per parameter |
| Database.SelectQuery | database.py:237-263 | WHERE is `k = ?` joined by AND in condition order, with the parameters in the same order, then LIMIT and then OFFSET, each only when truthy; an unknown column, order column or direction is a ValueError |
| Database.SelectEndsWithLimits | database.py:256-263 | LIMIT comes before OFFSET, and both end the statement |
| Database.SelectPlaceholdersMatch | database.py:241-265 | the SELECT has one `?` per parameter |
| Database.LimitCount | database.py:257-263 | the LIMIT and OFFSET text has one `?` per parameter it adds |
| Database.ShapeRows | database.py:267-284 | a lone row comes back unwrapped exactly when `force_2d` is off |
| Database.ShapeRowsLossless | database.py:267-284 | either shape gives back the fetched rows, and no rows is `[]` |
| Database.CountQuery | database.py:289-295 | empty conditions fail with ValueError; otherwise `SELECT COUNT(*) ... WHERE` with the condition values as parameters |
| Database.CountFromRows | database.py:296 | `result[0][0]`, or 0 when nothing was fetched |
| Database.UpdateQuery | database.py:301-312 | empty conditions fail first, then empty new values; the SET parameters come before the WHERE ones |
| Database.UpdatePlaceholdersMatch | database.py:309-312 | the UPDATE has one `?` per parameter |
| Database.DeleteQuery | database.py:318-324 | empty conditions fail with ValueError; otherwise `DELETE ... WHERE` with the condition values as parameters |
| Database.ConditionPlaceholdersMatch | database.py:287-324 | the `count_where` and `delete` statements have one `?` per condition |
| Database.BuildBulkInsert | database.py:195-214 | empty data fails; the rows are validated in order and the first bad one raises; otherwise one parameter tuple per row, under the first row's columns |
| Database.AddOutcome | database.py:180-182 | an integrity failure (the CursorError sentinel) makes `add` report (False, 0) instead of raising; a written row gives (True, its rowid) |
| Tables.NewUser | database.py:331-340 | a new user has timezone 0 and hide_meaning 1 by default, and no language or current vocabulary |
| Tables.TextAffinity | database.py:434 | a TEXT column keeps text, stores an integer as its decimal text, and keeps NULL |
| Tables.IntegerAffinity | database.py:417 | an INTEGER column turns text spelling an integer into that integer and keeps everything else |
| Tables.AffinityRoundTrip | database.py:430-438 | an integer stored in a TEXT column and bound into an INTEGER column comes back as itself |
| Tables.NextId | database.py:352 | the next rowid is above every existing one, and positive |
| Tables.VocabularySelectorUnique | database.py:355 | on a table that keeps its keys, no two vocabularies answer the same condition |
| Tables.VocabularyDeleteExact | database.py:316-325 | a delete by condition removes exactly the selected vocabulary |
| Tables.FirstVocabularyOf | database.py:368-373 | the trigger's `SELECT ... LIMIT 1` gives one of the user's vocabularies, or NULL exactly when the user has none |
| Tables.AfterVocabularyDelete | database.py:361-376 | every user whose current vocabulary was deleted gets the replacement, and nobody else changes |
| Tables.MoveReminderKeepsKeys | database.py:420 | moving one reminder to a time no other reminder of the user holds keeps the table's keys |
| Tables.MovedReminders | database.py:299-313 | an UPDATE of a reminder's time moves the first matching row unless another row of that user has the new time, in which case nothing changes |
| Tables.MovedRemindersValid | database.py:420 | moving a reminder keeps the rowid order and UNIQUE(user_id, time) |
| Tables.FilterKeepsValid | database.py:316-325 | any DELETE, cascades included, keeps the tables valid |
| Tables.Db.constructor | database.py:328-438 | all five tables start empty |
| Tables.Db.UsersAdd | database.py:331-340 | a new id is inserted as `NewUser` and its lastrowid is its id; a second insert for the same id is (False, 0) and changes nothing |
| Tables.Db.UsersSetCurrentVocabulary | database.py:299-313 | True exactly when the users row exists and the id names a vocabulary or is NULL; only that field changes |
| Tables.Db.VocabulariesAdd | database.py:350-389 | an unknown user or a taken name is (False, 0); otherwise the row gets the next rowid and the insert trigger makes it the owner's current vocabulary |
| Tables.Db.VocabulariesDelete | database.py:361-376 | removes the selected vocabulary, cascades to its words and reminders, and the delete trigger moves current vocabularies to the owner's first remaining one or to NULL |
| Tables.Db.WordsAdd | database.py:395-407 | a missing timestamp, an unknown user or vocabulary, or a duplicate word is (False, 0); otherwise the word is stored with the next rowid |
| Tables.Db.WordsDelete | database.py:316-325 | True exactly when some word was selected; those words go and nothing else does |
| Tables.Db.RemindersAdd | database.py:413-424 | a refused insert (NULL or unknown vocabulary, unknown user, NULL time, or a time the user already has) is (False, 0); otherwise it is stored with the next rowid |
| Tables.Db.RemindersDelete | database.py:316-325 | True exactly when some reminder was selected; those go and nothing else does |
| Tables.Db.RemindersSetTime | database.py:299-313 | the reminders become `MovedReminders`; True exactly when a row matched and the new time was free |
| Tables.Db.TempAdd | database.py:427-442 | succeeds exactly when the user exists and either `replace` is set or the slot is new; the slot then holds the value |
| Tables.Db.TempDelete | database.py:316-325 | True exactly when the slot existed; it is gone afterwards |
| Vocabularies.DeleteSelector | bot/_vocabularies.py:27-32 | a truthy id wins, else a truthy user together with a truthy name, else ValueError |
| Vocabularies.DeleteSelectorAgrees | bot/_vocabularies.py:27-30 | the condition picks exactly the rows that agree with the given id, or with the given user and name |
| Vocabularies.DeleteStatus | bot/_vocabularies.py:36-41 | as intended: NO_VOCABULARY whenever the current vocabulary is NULL after the delete, ahead of SUCCESS; otherwise SUCCESS exactly when a row went; subscripting `[]` for a user with no row is a TypeError |
| Vocabularies.CreateVocabulary | bot/_vocabularies.py:6-9 | SUCCESS exactly when the user exists and has no vocabulary of that name; the new one is then current |
| Vocabularies.CreateVocabularyTwice | bot/_vocabularies.py:6-9 | a second creation of the same name for the same user is always FAILURE |
| Vocabularies.SetCurrentVocabulary | bot/_vocabularies.py:12-15 | SUCCESS exactly when the users row was updated, and it then holds the id |
| Vocabularies.DeleteVocabulary | bot/_vocabularies.py:18-41 | as intended: the selection error, or the delete followed by the status for the user's row as it is after the delete; an unmatched condition leaves every table as it was; a matched one removes that vocabulary, cascades its words and reminders away, and the trigger points every user whose current vocabulary it was at the owner's oldest remaining vocabulary, or NULL; nothing else changes |
| Vocabularies.DeleteVocabularyAsWritten | bot/_vocabularies.py:18-41 | as written: the selection error, or the same delete with the same new users, words and reminders tables (cascades and trigger included), followed by a TypeError from bot/_settings.py's `get_user_parameters`, for every user |
| Vocabularies.DeleteTriggerOutcome | database.py:361-376 | deleting the current vocabulary leaves the owner with the first remaining one, or with none when none remains |
| Vocabularies.DeleteOtherKeepsCurrent | bot/_vocabularies.py:36-41 | deleting another vocabulary keeps the current one, so the status depends only on whether a row went |
| Words.WordSelectorFor | bot/_words.py:18-23 | a truthy id wins, else user, vocabulary and word must all be truthy, else ValueError |
| Words.WordSelectorUnique | database.py:403 | on a table that keeps its keys, no two words answer the same condition |
| Words.WordDeleteExact | bot/_words.py:25 | the delete removes exactly the selected words |
| Words.DeleteWord | bot/_words.py:8-25 | the selection error, or True exactly when some word was deleted; an absent word is False, not an error |
| Words.GetWordMeaningAsWritten | bot/_words.py:39-50 | the same selection error; a found word is a TypeError (a namedtuple subscripted by a string); no match is None |
| Words.GetWordMeaningAsWrittenRaises | bot/_words.py:46-49 | a stored word with a meaning makes the lookup fail |
| Words.GetWordMeaning | bot/_words.py:28-50 | the meaning of the selected word, or None when nothing matches |
| Words.GetWordMeaningFinds | bot/_words.py:46-50 | on a valid table, the meaning read back is that of the one selected word, and nothing selected gives None |
| Words.GetUserWords | bot/_words.py:53-54 | the words of that user and vocabulary, in table order, a lone row unwrapped |
| Words.UserWordsExact | bot/_words.py:53-54 | the listed words are exactly the stored words of that user and vocabulary |
| Words.AddWordAsWritten | bot/_words.py:4-5 | with no timestamp, every call is (False, 0) and adds nothing |
| Words.AddWord | bot/_words.py:4-5 | with a timestamp, the word is stored unless a key or reference stops the insert |
| Reminders.AddReminder | bot/_reminders.py:20-25 | the new reminder's id, or 0 exactly when the insert is refused, and then nothing is added |
| Reminders.ReminderSelectorFor | bot/_reminders.py:38-43 | a truthy id wins, else user, vocabulary and time must all be truthy, else ValueError |
| Reminders.ReminderDeleteExact | bot/_reminders.py:45 | the delete removes exactly the selected reminders |
| Reminders.DeleteReminder | bot/_reminders.py:28-49 | the selection error, or SUCCESS exactly when some row was deleted, else FAILURE |
| Reminders.ReminderList | bot/_reminders.py:52-66 | the `{time: number_of_words}` items of that user and vocabulary |
| Reminders.ReminderListExact | bot/_reminders.py:60-66 | one entry for each reminder of that user and vocabulary; empty exactly when there is none |
| Reminders.ReminderListTimesDistinct | bot/_reminders.py:64 | on a valid table the times are distinct, so the dict loses no reminder |
| Reminders.RebaseVocabulary | bot/_reminders.py:83-95 | the inner loop: one `Reminders.set` per listed time, in order, each on the table the previous one left |
| Reminders.RebaseOneByOne | bot/_reminders.py:77-95 | the outer loop over the vocabularies, each list read from the table as the earlier ones left it |
| Reminders.AdjustVocabulary | bot/_reminders.py:81-95 | one outer pass leaves exactly the table `RebaseVocabulary` gives |
| Reminders.AdjustRemindersToNewTimezone | bot/_reminders.py:69-95 | the reminders become `RebaseOneByOne` with offset `old_timezone - new_timezone`; the other tables are unchanged |
| Reminders.RebaseAll | bot/_reminders.py:71 | every reminder of the user moved at once by the offset; ids and owners unchanged |
| Reminders.ShiftClockHours | bot/utils.py:31-40 | a whole-hour `shift_time` reading agrees with `display_time` |
| Reminders.RebaseAllKeepsLocalTime | bot/_reminders.py:71 | a moved reminder, shown in the new timezone, reads as it read in the old one |
| Reminders.ShiftClockInjective | bot/_reminders.py:84 | shifting keeps distinct canonical times distinct |
| Reminders.RebaseAllKeepsKeys | database.py:420 | moving all of a user's canonical times at once keeps UNIQUE(user_id, time) |
| Reminders.AdjustRemindersAtOnce | bot/_reminders.py:69-95 | the update happens exactly when the moved times stay distinct, and then the reminders are `RebaseAll`; otherwise nothing changes |
| Reminders.RebaseAllKeepsIds | bot/_reminders.py:86-95 | moving keeps every rowid in place, so the tables stay valid when the times stay distinct |
| Reminders.RebaseOneByOneCollides | bot/_reminders.py:80-95 | reminders at 10:00 and 11:00 moved an hour later one by one: the first update is refused, and 10:00 stays put |
| ReminderPages.Shifted | bot/_reminders.py:127-129 | each time shifted by the offset, with its number of words kept |
| ReminderPages.SortByTime | bot/_reminders.py:132 | the sorted list is a permutation of its input |
| ReminderPages.SortByTimeSorted | bot/_reminders.py:132 | the sort gives a list ordered by time text that holds exactly the entries it was given |
| ReminderPages.ReminderListToText | bot/_reminders.py:114-138 | the loops give the lines of the shifted reminders, sorted by shifted time |
| ReminderPages.ReminderTextOneLineEach | bot/_reminders.py:134-138 | exactly one line per reminder, when `shift_time` and `conjugate_word` write no line break |
| ReminderPages.ReminderTextOrdered | bot/_reminders.py:127-138 | the lines come in shifted-time order and are the lines of exactly the shifted reminders |
| ReminderPages.GenerateVocabularyRemindersText | bot/_reminders.py:141-165 | heading plus list when reminders exist; the "no reminders" line if asked for; "" otherwise |
| ReminderPages.NoRemindersLineMissing | bot/_reminders.py:163 | "no_reminders" is in no language's table, so asking for that line is a KeyError |
| ReminderPages.InlineReminderList | bot/_reminders.py:168-200 | one row per reminder, in list order, with payload `[next_action, vocabulary_id, time]`, then the back row `[back_action]` |
| ReminderPages.DeletePayload | bot/_reminders.py:361 | `callback_data[1:]` unpacks only when exactly two values follow the action; otherwise ValueError |
| ReminderPages.ReminderButtonDecodes | bot/_reminders.py:184-191 | each reminder button's payload unpacks to the vocabulary and the stored time it was built from |
| ReminderPages.ListedReminderSelectable | bot/_reminders.py:360-363 | a listed reminder's (user, vocabulary, time) selects a stored row, so deleting it succeeds |
| ReminderPages.PickedNumber | bot/_reminders.py:284-285 | `callback_data[1]`; no callback query is a KeyError and a short payload an IndexError |
| ReminderPages.AddedText | bot/_reminders.py:288-304 | the duplicate notice when refused, else the confirmation; a missing time or timezone is a TypeError; the markup is the back row |
| ReminderPages.AddedTextFails | bot/_reminders.py:289-295 | neither message is in the table, and the KeyError's key tells a refused insert from a stored one |
| ReminderPages.AddReminderFinalize | bot/_reminders.py:273-306 | pops TIME and VOCABULARY (both absent afterwards), tries the insert, and answers as `AddedText` with "refused" exactly when the UNIQUE(user_id, time) or reference checks stopped it; the parameter read leaves the cache as `CacheAfterRead` for the resolved user, and untouched when `get_user` fails |
| ReminderPages.DeleteRequest | bot/_reminders.py:360-361 | the unpacked payload of the update's callback query |
| ReminderPages.DeletedText | bot/_reminders.py:365-374 | the confirmation with the back row; a missing time or timezone is a TypeError |
| ReminderPages.DeletedTextFails | bot/_reminders.py:365-366 | the confirmation is not in the table, so a successful delete ends in a KeyError |
| ReminderPages.DeleteReminderFinalize | bot/_reminders.py:354-381 | unpacks the payload, deletes by (user, vocabulary, time); SUCCESS gives `DeletedText` and FAILURE is a FileNotFoundError; the parameter read leaves the cache as `CacheAfterRead` for the resolved user, and untouched when `get_user` fails |
| InputPicker.Signed | bot/_input_picker.py:60 | `f"{n:+}"` always writes the sign |
| InputPicker.AdjustmentRow | bot/_input_picker.py:54-72 | one button per offset, in order |
| InputPicker.BuildAdjustmentRow | bot/_input_picker.py:46-72 | the loop builds exactly `AdjustmentRow` |
| InputPicker.PickerKeyboard | bot/_input_picker.py:74-98 | the list literal, the optional extension and the append build exactly `PickerRows` |
| InputPicker.PickerRowsShape | bot/_input_picker.py:74-98 | 3 rows, or 5 exactly when minutes are included; the confirm payload is `[next, time]` and only its label is shifted; offsets -5,-1,+1,+5 h and -5,-1,+1,+5 and -15,-10,+10,+15 min; the back row is `[back]` |
| InputPicker.UnpackPicker | bot/_input_picker.py:32-33 | the payload unpacks only when exactly six values follow the action; otherwise ValueError |
| InputPicker.AdjustmentRoundTrip | bot/_input_picker.py:30-33 | unpacking any adjustment button gives back the adjusted time and the five other parameters unchanged |
| InputPicker.PickerInput | bot/_input_picker.py:30-33 | the call's own arguments when any is truthy, otherwise those unpacked from the pressed button |
| InputPicker.PickerTime | bot/_input_picker.py:38-44 | `real_time_mins` with `include_minutes` is ValueError("Two conflicting parameters are enabled"); with `real_time_mins` alone the hour is kept and the current minutes are taken; otherwise the time as given |
| InputPicker.PickerOutcome | bot/_input_picker.py:35-101 | what follows the input: the two unit labels, then the time, then the keyboard `PickerRows` |
| InputPicker.PickerOutcomeFails | bot/_input_picker.py:35 | "short_hours" is in no table, so every picker ends in a KeyError |
| InputPicker.RedrawIgnoresTimezone | bot/_input_picker.py:28-33 | a redraw from a button uses timezone 0 for the confirm label, even when the payload carries `adjust_to_timezone` |
| InputPicker.PickTimeKeyboard | bot/_input_picker.py:10-101 | the `get_user` error, the AttributeError for a user with no row, the input's error, or else `PickerOutcome` for the user's language and timezone; the parameter read leaves the cache as `CacheAfterRead` for the resolved user, and untouched when `get_user` fails |
| InputPicker.NumberRow | bot/_input_picker.py:116-122 | one row holds the numbers from its start up to `min(start + 5, max_number + 1)` |
| InputPicker.NumberRows | bot/_input_picker.py:115-123 | one row per start of `range(1, max_number + 1, 5)` |
| InputPicker.GenerateNumberKeyboard | bot/_input_picker.py:104-132 | the loop builds the number rows and then the back row `[back]` |
| InputPicker.NumberRowsShape | bot/_input_picker.py:115-123 | rows hold at most 5 buttons and all but the last exactly 5; each payload is `[next, number]` with the number as its text |
| InputPicker.NumbersPrefix | bot/_input_picker.py:115-123 | the first r rows carry 1 .. 5r (or up to max_number), in order |
| InputPicker.NumbersInOrder | bot/_input_picker.py:115-123 | the keyboard carries 1 .. max_number, each once, in ascending order |
| TimePicker.TimeRow | bot/_time_picker.py:53-70 | one adjustment button per offset, in order |
| TimePicker.TimeArgs | bot/_time_picker.py:46-47 | `include_minutes` from payload[1], and the time from payload[2], or the suggested time when the payload has two elements; shorter is an IndexError |
| TimePicker.TimeRowsShape | bot/_time_picker.py:48-113 | 2 rows, or 4 exactly when `include_minutes`; the confirm payload is `[TIME_CHOSEN, time]` with the label shifted by the timezone; hour offsets -5,-1,+1,+5 and minute offsets -5,-1,+1,+5 and -15,-10,+10,+15 |
| TimePicker.AdjustmentKeepsFlag | bot/_time_picker.py:55-57 | an adjustment payload decodes to the same flag and the shifted time |
| TimePicker.TimeOutcome | bot/_time_picker.py:44-116 | succeeds exactly when the payload has two elements or more, the time is a string and the timezone is set, and then gives the keyboard `TimeRows` |
| TimePicker.PickTimeMarkup | bot/_time_picker.py:41-116 | the `get_user` error, the AttributeError, KeyError("callback_query"), or else `TimeOutcome` for the user's timezone; the parameter read leaves the cache as `CacheAfterRead` for the resolved user, and untouched when `get_user` fails |
| TimePicker.TestPage | bot/_time_picker.py:12-37 | "Test" and one PICK TIME button whose payload is `[PICK_TIME, include_minutes]` |
| TimePicker.TestPagesOpenPicker | bot/_time_picker.py:12-37 | `/test` opens a 4-row picker at the suggested time, and `/test2` a 2-row one |
| TimePicker.RegisterTimePicker | bot/_time_picker.py:12-40 | `/test` and `/test2` are registered as sent text commands, and PICK_TIME as an edit_markup callback |
| Utils.HtmlWrapper | bot/utils.py:5-9 | a truthy wrapper gives `<w>t</w>`; None or "" gives the text unchanged |
| Utils.EscapeHtmlPerChar | bot/utils.py:12-14 | the two replaces act on each character separately |
| Utils.EscapeHtmlNoBrackets | bot/utils.py:12-14 | the output holds neither `<` nor `>` |
| Utils.EscapeHtmlIdentity | bot/_utils.py:11-13 | text without `<` and `>`, `&` included, is unchanged |
| Utils.EscapeHtmlIdempotent | bot/_utils.py:11-13 | escaping twice is escaping once |
| Utils.ParseTime | bot/utils.py:38 | `strptime(s, "%H:%M")` gives an hour below 24 and a minute below 60 |
| Utils.FormatTimeParses | bot/utils.py:40 | what `strftime('%H:%M')` writes is canonical HH:MM and parses back to the same hour and minute |
| Utils.CanonicalParses | bot/utils.py:38-40 | canonical text parses to the hour and minute it spells and is written back unchanged |
| Utils.DisplayTimeShape | bot/utils.py:31-40 | the result is canonical HH:MM with the hour moved by `offset` modulo 24 and the minutes kept |
| Utils.DisplayTimeCompose | bot/utils.py:38-40 | shifting by a and then by b is shifting by a + b; unparsable text fails either way |
| Utils.DisplayTimeZero | bot/utils.py:38-40 | offset 0 leaves canonical HH:MM unchanged |
| Utils.Pad | bot/utils.py:43-58 | None gives `pad_str`; a non-empty `pad_str` gives exactly its length, ending with a shorter original when padding left and starting with it when padding right; an empty `pad_str` gives the original on the left and "" on the right |
| Translations.NormalizeLang | translations.py:35-36 | "ru" becomes "uk"; en, uk and pl stay; anything else, None included, becomes "en" |
| Translations.NormalizeIdempotent | translations.py:35-36 | normalising twice is normalising once |
| Translations.Translate | translations.py:37-40 | success only for a language table and key that exist; with no values the stored string is returned; a missing language or key is a KeyError |
| Translations.UkrainianHasNoTable | translations.py:2-37 | the table's languages are en, ua and pl, so "uk" and "ru" always fail |
| Translations.PolishKeys | translations.py:28-37 | pl defines only flag, choose_lang and lang_set; any other key is a KeyError |
| Translations.TranslateNoValues | translations.py:37-40 | with no values, the English string is returned unchanged |
| Translations.MissingKeyFails | translations.py:2-40 | a key that neither en nor pl defines fails for every language, naming "uk" for the normalised uk and the key otherwise |
| Commands.Username | bot/_commands.py:16-20 | a non-empty Telegram username is used; otherwise ":" + lower(first) + ":" + lower(last) + ":", with missing names as "" |
| Commands.DerivedUsernameShape | bot/_commands.py:18-20 | a derived name starts and ends with ':', holds no upper-case ASCII letter, and is ":::" with no message |
| Commands.Start | bot/_commands.py:14-26 | a new user is inserted under the derived name; a repeated `/start` adds nothing and raises nothing; the reply is ("start", None) either way |
| Commands.MenuKeyboard | bot/_commands.py:36-43 | one row of four buttons, with payloads `[MENU_WORDS]`, `[MENU_REMINDERS]`, `[MENU_VOCABULARIES]` and `[MENU_SETTINGS]` in that order |
| Commands.MenuTargetsDistinct | bot/_commands.py:38-41 | each menu button leads somewhere different |
| Commands.MenuTextShape | bot/_commands.py:45-51 | with every string present, the heading and the four category lines under their icons; a missing heading is that KeyError |
| Commands.EnglishMenuStrings | bot/_commands.py:46-50 | the five English strings the menu uses |
| Commands.MenuTextEnglish | bot/_commands.py:45-51 | the English menu reads "Choose category:" and then Words, Reminders, Vocabulary and Settings |
| Commands.MenuTextElsewhere | bot/_commands.py:45-51 | the Polish menu fails on "choose_category" and the Russian one on "uk" |
| Commands.MenuPage | bot/_commands.py:31-53 | a user with no row is an AttributeError; otherwise the menu text (or its KeyError) and `MenuKeyboard`; the cache afterwards is `CacheAfterRead` |
| Commands.MenuPageAsWritten | bot/_commands.py:31-53 | as written, through bot/_settings.py's `get_user_parameters`: a TypeError for every user, before the menu is built |
| Commands.RegisterCommands | bot/_commands.py:14-31 | `/start` is a sent text command, and `menu` is registered under both `/menu` (send) and the MENU callback (edit) |

## Left out

- Storage is abstract: the Temp slots, the cache and the tables are in-memory state, not
  SQLite. `execute_query`'s retries, backoff, lazy table creation and connection handling
  are I/O and are not modelled. Its result is taken directly from the table semantics:
  rows, a cursor, or the `CursorError` sentinel.
- `Connection`, `CursorError`'s methods and `Database.create_table` are driver plumbing.
- The transport is abstract: `telepot`, `sendMessage`, `editMessageReplyMarkup` and
  `Bot.__getattr__` are entries in the effect log. Message ids are handed out one after
  another. A call either goes through or raises TelegramError.
  - Whether it raises is decided per chat: `sendFails` for sends and `editFails` for
    edits. Failures that depend on the message, rate limits, or a platform that changes
    over time are not distinguished.
  - `Bot.users_data` is never read, so it is not modelled.
- `shift_time`, `conjugate_word`, `_get_vocabulary_name`, `_get_vocabulary_list`,
  `suggest_reminder_time` and `get_hh_mm` are not part of this model. They are
  parameters, with no properties assumed.
- `Reminders.ShiftClock` is one concrete reading of `shift_time`, used only by the lemmas
  about re-basing.
- `Reminders.AdjustRemindersAtOnce`: stated for any `shift_time`. It keeps the key only
  where `RebaseAllKeepsKeys` shows so, for the concrete clock reading and canonical times.
- `get_user_parameters` of bot/_settings.py always raises TypeError (Settings.GetUserParameters).
  bot/__init__.py, bot/_vocabularies.py and bot/_commands.py import it. Each of those
  three uses has a Findings row: an as-written member that fails, and a corrected member
  that reads the user's row.
  - Bot.ErrorNotice and Vocabularies.DeleteVocabulary read the users table directly.
  - Commands.MenuPage reads it through temp_manager's cache. A cached row is kept after
    the table changes, so it can differ from the table, and the read also fills the cache.
- DeleteOtherKeepsCurrent: its status conclusion is about the corrected DeleteStatus. As
  written, `delete_vocabulary` never reaches a status (Vocabularies.DeleteVocabularyAsWritten).
- bot/_time_picker.py:4 imports `get_user`, `set_user_state` and `reset_user_state` from
  bot/_settings.py, which does not define them. The model uses temp_manager's versions,
  as the star import on the next line would provide.
- bot/_reminders.py has handlers outside this model, because their helpers
  (`_get_inline_vocabulary_list`, `_get_vocabulary_list`) are not available:
  `add_reminder_start`, `add_reminder_vocabulary_chosen`, `add_reminder_time_chosen`,
  `delete_reminder_start`, `delete_reminder_vocabulary_chosen`,
  `construct_reminder_page`, the two `*_menu_text` helpers and `_get_reminders_list_at`.
- `menu` returns the `Response` type of `_response_format`, which is not part of this
  model. Commands.MenuPage returns the (text, keyboard) pair it is built from.
- `broadcast_multilang` indexes an integer (`user[0]`), so it cannot run as written.
- Payloads are decoded JSON values, typed as `Item`s. A time that is not a string cannot
  be shifted or split, and is modelled as a TypeError.
- PickedNumber, DeletePayload: an id in the payload that is not a JSON number (the text
  `"3"`, or `true`) is a TypeError here. The source would pass it on to `Reminders.add` or
  `Reminders.delete`, where SQLite column affinity could still match it. The bot's own
  buttons only carry numbers. DeleteRequest and DeleteReminderFinalize inherit this.
- ParseInt: models `int()` on ASCII digits only. Python also accepts surrounding
  whitespace, underscores between digits and non-ASCII decimal digits, which ParseInt
  rejects. The STATE slot only ever holds text written by `str()`, which reads back
  exactly (IntToStringRoundTrip).
- Rows come back in rowid order, which is what SQLite does without ORDER BY for these
  tables. Rowids are the last id plus one.
- ReminderPages.SortByTime: a stable insertion sort. Python's sort is stable too, so the
  results agree.
- `str.format` is modelled for `{name}` fields only. `str.lower` and `str.upper` are
  modelled for ASCII letters only.
- Python exceptions are Result failures that name the exception class. Messages are kept
  where the source spells them out.
- Logging is not modelled.
- `get_old_words` is a stub with an empty body, so there is nothing to model.
- `get_timestamp` reads the clock, so it is not modelled. Words.AddWord takes the
  timestamp as a parameter.

- ParseTime, DisplayTimeShape, DisplayTimeCompose: `strptime`'s `%H` and `%M` accept any
  Unicode decimal digit, and ParseTime accepts ASCII digits only. So `display_time("٩:٣")`
  gives "09:03" in the source, where the model fails with ValueError.
  - Python's `datetime` also raises OverflowError once the shifted time leaves years
    1..9999. That happens for offsets below about -1.66e7 hours or above about 7.1e7
    hours. The model shifts every offset modulo 24 instead, so DisplayTimeCompose also
    covers `a` and `b` whose sum overflows in the source.
  - The bot only passes times it wrote itself and timezone offsets of a few hours.

- Members of QUERY_ACTIONS that bot/_enums.py:4-26 does not declare: PICK_TIME, TIME_CHOSEN,
  ADD_REMINDER_VOCABULARY_CHOSEN, ADD_REMINDER_TIME_CHOSEN, ADD_REMINDER_FINALIZE,
  DELETE_REMINDER_VOCABULARY_CHOSEN and DELETE_REMINDER_FINALIZE.
  - `Telegram.QueryAction` adds them as constructors. In the source, each decorator naming
    one raises AttributeError when its module is imported (bot/_input_picker.py:10,
    bot/_time_picker.py:40, bot/_reminders.py:235, 258, 273, 335 and 354).
  - The model registers those handlers as if the members existed.
  - The same holds for TIMEZONE_NOT_SET in TEMP_KEYS, which `Telegram.TempKey` adds. There
    the as-written behaviour is also modelled (MissingSetupAsWritten).
- Module loading is not modelled. bot/__init__.py:16 imports `process_user_action` from
  bot/_handlers.py, which does not define it. In the source that is an ImportError while
  the Bot class body runs, before any update is handled. The model starts from a built Bot.
- The handlers of bot/_handlers.py are not modelled. Bot.Bot.HandleUpdate takes whether the
  handler raised as a parameter, `handlerRaises`.
  - As written, bot/__init__.py:112-118 calls each handler with `(user, update)`, while
    bot/_handlers.py:1, 18 and 23 take `(self, user, lang, update)`. So every dispatch
    raises TypeError before the handler body runs.
  - The source therefore behaves as HandleUpdate with `handlerRaises` true.

## Findings

| source | as written | input that shows it | evidently intended | confidence | as-written member | corrected member |
|---|---|---|---|---|---|---|
| bot/_reminders.py:80-95 | each reminder is moved by its own `Reminders.set`, one at a time, so a move onto a time another reminder still holds breaks UNIQUE(user_id, time) and is silently refused | reminders at 10:00 and 11:00 in one vocabulary, timezone 0 to -1: 10:00 stays put and the user then sees it at 09:00 | every reminder keeps its local time (the function's own documentation) | not executed | Reminders.RebaseOneByOneCollides | Reminders.AdjustRemindersAtOnce |
| bot/_words.py:46-50 | `Words.get(..., include_column_names=True)` returns a namedtuple for one row, and `word_info["meaning"]` subscripts it with a string, a TypeError | a table holding word "cat" (id 1, meaning "kit") and `get_word_meaning(word_id=1)` | return the meaning of the selected word | not executed | Words.GetWordMeaningAsWritten | Words.GetWordMeaning |
| bot/_words.py:4-5 | `add_word` inserts no timestamp into the NOT NULL `timestamp` column, so every insert is an integrity failure reported as (False, 0) | any call, e.g. `add_word(self, 5, 2, "cat")` for an existing user and vocabulary | store the word with the current time | not executed | Words.AddWordAsWritten | Words.AddWord |
| bot/_vocabularies.py:36 | `delete_vocabulary` checks the status through bot/_settings.py's `get_user_parameters`, whose `del` raises TypeError; the vocabulary is already deleted when it raises | user 5 with vocabularies 1 and 2, current 1, and `delete_vocabulary(5, vocabulary_id=2)`: row 2 is deleted, then TypeError | report SUCCESS, FAILURE or NO_VOCABULARY from the user's row after the delete | not executed | Vocabularies.DeleteVocabularyAsWritten | Vocabularies.DeleteVocabulary |
| bot/__init__.py:126 | the error notice reads the language through bot/_settings.py's `get_user_parameters`, which raises; the except at :128 swallows it, so no user is ever told about an error | any update from a stored user whose handler raises | send the translated "error" string to that user | not executed | Bot.ErrorNoticeAsWritten | Bot.ErrorNotice |
| bot/_commands.py:33 | `menu` reads the user's parameters through bot/_settings.py's `get_user_parameters`, which raises TypeError | `/menu` from any user, with a users row or without | show the menu in the user's language | not executed | Commands.MenuPageAsWritten | Commands.MenuPage |
| bot/temp_manager.py:66 | the fourth check reads `TEMP_KEYS.TIMEZONE_NOT_SET`, which bot/_enums.py:29-34 does not declare, so `check_missing_setup` raises AttributeError once the first three checks pass | user 5 with language "en" and current vocabulary 1 | report "timezone" when the TIMEZONE_NOT_SET slot is truthy, else None | not executed | TempManager.MissingSetupAsWritten | TempManager.MissingSetup |
