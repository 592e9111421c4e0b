/** bot/temp_manager.py: per-user slots in the Temp table (one value per (user, key),
    last write wins), the conversational state kept in the STATE slot, the process-wide
    cache of users rows, the onboarding stage, and the user id of an update. */
module TempManager {
  import opened Wrappers
  import opened Text
  import opened Telegram
  import opened Database
  import opened Tables

  /** `get_user(update)`: the chat of a message, else the sender of a callback query,
      else the sender of a membership change; an update with none of them is a KeyError. */
  function GetUser(update: Update): (r: Result<int>)
    ensures r.Failure? <==> update.message.None? && update.callbackQuery.None? && update.myChatMember.None?
    ensures r.Failure? ==> r.error == KeyError("Couldn't find user")
    ensures update.message.Some? ==> r == Success(update.message.value.chatId)
    ensures update.message.None? && update.callbackQuery.Some? ==> r == Success(update.callbackQuery.value.fromId)
    ensures update.message.None? && update.callbackQuery.None? && update.myChatMember.Some? ==>
              r == Success(update.myChatMember.value.fromId)
  {
    if update.message.Some? then Success(update.message.value.chatId)
    else if update.callbackQuery.Some? then Success(update.callbackQuery.value.fromId)
    else if update.myChatMember.Some? then Success(update.myChatMember.value.fromId)
    else Failure(KeyError("Couldn't find user"))
  }

  /** Fields of lower priority never change the answer once a higher one is present. */
  lemma GetUserPriority(update: Update, q: Option<CallbackQuery>, m: Option<ChatMemberUpdate>)
    ensures update.message.Some? ==>
              GetUser(update.(callbackQuery := q, myChatMember := m)) == GetUser(update)
    ensures update.message.None? && update.callbackQuery.Some? ==>
              GetUser(update.(myChatMember := m)) == GetUser(update)
  {
  }

  /** The values `check_missing_setup` returns: "user", "lang", "vocabulary", "timezone". */
  datatype Stage = UserStage | LangStage | VocabularyStage | TimezoneStage

  /** `check_missing_setup` once the parameters and the TIMEZONE_NOT_SET slot are known:
      the first unmet condition, in the order user row, language, current vocabulary,
      timezone; None once all are met. Each test is Python truthiness. This is the check
      as intended: as written, the fourth test raises (MissingSetupAsWritten). */
  function MissingSetup(parameters: Option<UserRow>, timezoneNotSet: Option<string>): (r: Option<Stage>)
    ensures r == Some(UserStage) <==> parameters.None?
    ensures r == Some(LangStage) <==> parameters.Some? && !TruthyText(parameters.value.language)
    ensures r == Some(VocabularyStage) <==>
              parameters.Some? && TruthyText(parameters.value.language) && !TruthyInt(parameters.value.currentVocabularyId)
    ensures r == Some(TimezoneStage) <==>
              parameters.Some? && TruthyText(parameters.value.language) && TruthyInt(parameters.value.currentVocabularyId)
              && TruthyText(timezoneNotSet)
  {
    if parameters.None? then Some(UserStage)
    else if !TruthyText(parameters.value.language) then Some(LangStage)
    else if !TruthyInt(parameters.value.currentVocabularyId) then Some(VocabularyStage)
    else if TruthyText(timezoneNotSet) then Some(TimezoneStage)
    else None
  }

  /** A user who has finished setting up is never sent back to an earlier stage, and a
      stage is reported only when every earlier condition holds. */
  lemma SetupComplete(parameters: Option<UserRow>, timezoneNotSet: Option<string>)
    ensures MissingSetup(parameters, timezoneNotSet).None? <==>
              parameters.Some? && TruthyText(parameters.value.language)
              && TruthyInt(parameters.value.currentVocabularyId) && !TruthyText(timezoneNotSet)
  {
  }

  /** `check_missing_setup` as written: the fourth check reads `TEMP_KEYS.TIMEZONE_NOT_SET`,
      which bot/_enums.py does not declare, so reaching it is an AttributeError. The first
      three checks answer as MissingSetup does. */
  function MissingSetupAsWritten(parameters: Option<UserRow>): (r: Result<Option<Stage>>)
    ensures r.Failure? <==>
              parameters.Some? && TruthyText(parameters.value.language) && TruthyInt(parameters.value.currentVocabularyId)
    ensures r.Failure? ==> r.error == AttributeError
    ensures r.Success? ==> r.value.Some? && r.value.value != TimezoneStage
    ensures r.Success? ==> forall t :: r.value == MissingSetup(parameters, t)
  {
    if parameters.None? then Success(Some(UserStage))
    else if !TruthyText(parameters.value.language) then Success(Some(LangStage))
    else if !TruthyInt(parameters.value.currentVocabularyId) then Success(Some(VocabularyStage))
    else Failure(AttributeError)
  }

  /** As written, setup is never reported complete: wherever the corrected check finds
      nothing missing or only the timezone, the source raises instead. */
  lemma SetupNeverCompleteAsWritten(parameters: Option<UserRow>, timezoneNotSet: Option<string>)
    ensures MissingSetupAsWritten(parameters) != Success(None)
    ensures MissingSetup(parameters, timezoneNotSet) in {None, Some(TimezoneStage)} ==>
              MissingSetupAsWritten(parameters) == Failure(AttributeError)
  {
  }

  /** User 5 with language "en" and current vocabulary 1, and no TIMEZONE_NOT_SET slot:
      the corrected check reports nothing missing, the source raises. */
  lemma MissingSetupAsWrittenRaises()
    ensures var row := UserRow("user5", Some("en"), Some(0), Some(1), 1);
            MissingSetup(Some(row), None) == None
            && MissingSetupAsWritten(Some(row)) == Failure(AttributeError)
  {
  }

  /** The Temp slots together with the `user_parameters` cache. */
  class TempStore {
    const db: Db
    /** `user_parameters`: users rows, keyed by user id, as first read. */
    var userParameters: map<int, UserRow>

    constructor (db: Db)
      ensures this.db == db && userParameters == map[]
    {
      this.db := db;
      userParameters := map[];
    }

    /** `get_temp(user, key)`: the stored value, or None when there is no slot (a slot
        holding NULL also reads as None). */
    function GetTemp(user: int, key: TempKey): (r: Option<string>)
      reads db
      ensures (user, key) !in db.temp ==> r.None?
      ensures (user, key) in db.temp ==> r == db.temp[(user, key)]
    {
      if (user, key) in db.temp then db.temp[(user, key)] else None
    }

    /** `set_temp(user, key, value)`: `Temp.add` with replace, so the slot takes the value
        as a TEXT column stores it, whatever was there; a user without a users row (the
        FOREIGN KEY) leaves the table as it was. The status is SUCCESS either way, since
        the `(bool, id)` pair `add` returns is always truthy. */
    method SetTemp(user: int, key: TempKey, value: SqlValue) returns (status: TaskStatus)
      requires db.Valid()
      modifies db
      ensures db.Valid()
      ensures status == TaskSuccess
      ensures user in old(db.users) ==> db.temp == old(db.temp)[(user, key) := TextAffinity(value)]
      ensures user in old(db.users) ==> GetTemp(user, key) == TextAffinity(value)
      ensures user !in old(db.users) ==> db.temp == old(db.temp)
      ensures forall u, k :: (u, k) != (user, key) ==> GetTemp(u, k) == old(GetTemp(u, k))
      ensures db.users == old(db.users) && db.vocabularies == old(db.vocabularies)
              && db.words == old(db.words) && db.reminders == old(db.reminders)
    {
      var _ := db.TempAdd(user, key, TextAffinity(value), true);
      status := TaskSuccess;
    }

    /** `remove_temp(user, key)`: SUCCESS iff a slot was deleted; afterwards it reads as None. */
    method RemoveTemp(user: int, key: TempKey) returns (status: TaskStatus)
      requires db.Valid()
      modifies db
      ensures db.Valid()
      ensures status == TaskSuccess <==> (user, key) in old(db.temp)
      ensures status == TaskSuccess || status == TaskFailure
      ensures db.temp == old(db.temp) - {(user, key)}
      ensures GetTemp(user, key).None?
      ensures forall u, k :: (u, k) != (user, key) ==> GetTemp(u, k) == old(GetTemp(u, k))
      ensures db.users == old(db.users) && db.vocabularies == old(db.vocabularies)
              && db.words == old(db.words) && db.reminders == old(db.reminders)
    {
      var removed := db.TempDelete(user, key);
      status := if removed then TaskSuccess else TaskFailure;
    }

    /** `pop_temp(user, key)`: the value the slot held (None when absent), and the slot goes. */
    method PopTemp(user: int, key: TempKey) returns (value: Option<string>)
      requires db.Valid()
      modifies db
      ensures db.Valid()
      ensures value == old(GetTemp(user, key))
      ensures db.temp == old(db.temp) - {(user, key)}
      ensures db.users == old(db.users) && db.vocabularies == old(db.vocabularies)
              && db.words == old(db.words) && db.reminders == old(db.reminders)
    {
      value := GetTemp(user, key);
      var _ := RemoveTemp(user, key);
    }

    /** What `get_user_parameters(user)` yields in the current state: the cached row, or
        else the users row, or else nothing. */
    function CachedParameters(user: int): (r: Option<UserRow>)
      reads this, db
      ensures r.None? <==> user !in userParameters && user !in db.users
    {
      if user in userParameters then Some(userParameters[user])
      else if user in db.users then Some(db.users[user])
      else None
    }

    /** The cache once `get_user_parameters(user)` has run: an uncached user with a row
        gains that row, and every other entry stays as it was. */
    function CacheAfterRead(user: int): (m: map<int, UserRow>)
      reads this, db
      ensures m.Keys == userParameters.Keys + (if user in db.users then {user} else {})
      ensures forall u :: u in userParameters ==> m[u] == userParameters[u]
      ensures user in m <==> CachedParameters(user).Some?
      ensures user in m ==> CachedParameters(user) == Some(m[user])
    {
      if user in userParameters || user !in db.users then userParameters
      else userParameters[user := db.users[user]]
    }

    /** `get_user_parameters(user)`: a cached row is served as cached, even when the
        table has changed since; otherwise the table is read and a found row is cached.
        A missing row (the empty list) is returned as None and not cached. */
    method GetUserParameters(user: int) returns (parameters: Option<UserRow>)
      modifies this
      ensures parameters == old(CachedParameters(user))
      ensures userParameters == old(CacheAfterRead(user))
      ensures user in old(userParameters) ==>
                parameters == Some(old(userParameters)[user]) && userParameters == old(userParameters)
      ensures user !in old(userParameters) && user in db.users ==>
                parameters == Some(db.users[user]) && userParameters == old(userParameters)[user := db.users[user]]
      ensures user !in old(userParameters) && user !in db.users ==>
                parameters.None? && userParameters == old(userParameters)
    {
      if user in userParameters {
        return Some(userParameters[user]);
      }
      if user in db.users {
        parameters := Some(db.users[user]);
        userParameters := userParameters[user := db.users[user]];
      } else {
        parameters := None;
      }
    }

    /** `invalidate_cached_parameters(user)`: drops that user's entry and no other. */
    method InvalidateCachedParameters(user: int)
      modifies this
      ensures userParameters == old(userParameters) - {user}
      ensures user !in userParameters
      ensures forall u :: u in old(userParameters) && u != user ==> u in userParameters && userParameters[u] == old(userParameters)[u]
    {
      if user in userParameters {
        userParameters := userParameters - {user};
      }
    }

    /** `check_missing_setup(user)` through the cache, reading the TIMEZONE_NOT_SET slot. */
    method CheckMissingSetup(user: int) returns (stage: Option<Stage>)
      modifies this
      ensures stage == MissingSetup(old(CachedParameters(user)), GetTemp(user, TimezoneNotSet))
      ensures user in old(userParameters) || user !in db.users ==> userParameters == old(userParameters)
      ensures user !in old(userParameters) && user in db.users ==>
                userParameters == old(userParameters)[user := db.users[user]]
    {
      var parameters := GetUserParameters(user);
      stage := MissingSetup(parameters, GetTemp(user, TimezoneNotSet));
    }

    /** `check_missing_setup(user)` as written: the parameters are read through the cache
        (and fill it), then the undeclared TIMEZONE_NOT_SET member raises once the first
        three checks pass. */
    method CheckMissingSetupAsWritten(user: int) returns (r: Result<Option<Stage>>)
      modifies this
      ensures r == MissingSetupAsWritten(old(CachedParameters(user)))
      ensures userParameters == old(CacheAfterRead(user))
    {
      var parameters := GetUserParameters(user);
      r := MissingSetupAsWritten(parameters);
    }

    /** `get_user_state(user)`: None without a STATE value, otherwise `int(value)`,
        a ValueError when the text is not an integer. */
    function GetUserState(user: int): (r: Result<Option<int>>)
      reads db
      ensures GetTemp(user, State).None? ==> r == Success(None)
      ensures GetTemp(user, State).Some? ==>
                (r.Success? <==> ParseInt(GetTemp(user, State).value).Success?)
      ensures r.Success? && r.value.Some? ==> r.value == Some(ParseInt(GetTemp(user, State).value).value)
    {
      var state := GetTemp(user, State);
      if state.None? then Success(None)
      else
        var n :- ParseInt(state.value);
        Success(Some(n))
    }

    /** `set_user_state(user, state)`: the state is stored as its decimal text. */
    method SetUserState(user: int, state: int) returns (status: TaskStatus)
      requires db.Valid()
      modifies db
      ensures db.Valid()
      ensures status == TaskSuccess
      ensures user in old(db.users) ==> db.temp == old(db.temp)[(user, State) := Some(IntToString(state))]
      ensures user !in old(db.users) ==> db.temp == old(db.temp)
      ensures user in old(db.users) ==> GetUserState(user) == Success(Some(state))
      ensures db.users == old(db.users) && db.vocabularies == old(db.vocabularies)
              && db.words == old(db.words) && db.reminders == old(db.reminders)
    {
      status := SetTemp(user, State, SqlInt(state));
      IntToStringRoundTrip(state);
    }

    /** `reset_user_state(user)`: SUCCESS iff a state was stored; afterwards there is none. */
    method ResetUserState(user: int) returns (status: TaskStatus)
      requires db.Valid()
      modifies db
      ensures db.Valid()
      ensures status == TaskSuccess <==> (user, State) in old(db.temp)
      ensures db.temp == old(db.temp) - {(user, State)}
      ensures GetUserState(user) == Success(None)
      ensures db.users == old(db.users) && db.vocabularies == old(db.vocabularies)
              && db.words == old(db.words) && db.reminders == old(db.reminders)
    {
      status := RemoveTemp(user, State);
    }
  }
}
