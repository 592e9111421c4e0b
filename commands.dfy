/** bot/_commands.py: `/start`, which derives a username and inserts the user, and the
    main menu, reachable both by `/menu` and by the MENU callback. */
module Commands {
  import opened Wrappers
  import opened Text
  import opened Telegram
  import opened Tables
  import opened Translations
  import opened TempManager
  import opened Router
  import Settings

  /** `update.get("message", {}).get("from", {})`: the sender, when there is one. */
  function SenderOf(update: Update): Option<Sender>
  {
    if update.message.Some? then update.message.value.sender else None
  }

  /** The sender's Telegram username, when present and non-empty. */
  predicate HasUsername(update: Update)
  {
    var s := SenderOf(update);
    s.Some? && s.value.username.Some? && s.value.username.value != ""
  }

  /** A `.get(name, "")` on the sender. */
  function NameOrEmpty(name: Option<string>): string
  {
    if name.Some? then name.value else ""
  }

  /** The username `start` stores: the Telegram username, or else
      ":" + first name + ":" + last name + ":" in lower case, a missing name as "". */
  function Username(update: Update): (r: string)
    ensures HasUsername(update) ==> r == SenderOf(update).value.username.value
    ensures !HasUsername(update) ==>
              var s := SenderOf(update);
              var first := if s.Some? then NameOrEmpty(s.value.firstName) else "";
              var last := if s.Some? then NameOrEmpty(s.value.lastName) else "";
              r == ":" + Lower(first) + ":" + Lower(last) + ":"
  {
    var s := SenderOf(update);
    if HasUsername(update) then s.value.username.value
    else
      var first := if s.Some? then NameOrEmpty(s.value.firstName) else "";
      var last := if s.Some? then NameOrEmpty(s.value.lastName) else "";
      ":" + Lower(first) + ":" + Lower(last) + ":"
  }

  /** A derived username is never empty, starts and ends with ':' and holds no upper-case
      ASCII letter; a user with no message and no names at all gets ":::". */
  lemma DerivedUsernameShape(update: Update)
    requires !HasUsername(update)
    ensures var r := Username(update);
            |r| >= 3 && r[0] == ':' && r[|r| - 1] == ':'
            && (forall i :: 0 <= i < |r| ==> !('A' <= r[i] <= 'Z'))
    ensures SenderOf(update).None? ==> Username(update) == ":::"
  {
    var s := SenderOf(update);
    var first := if s.Some? then NameOrEmpty(s.value.firstName) else "";
    var last := if s.Some? then NameOrEmpty(s.value.lastName) else "";
    var r := Username(update);
    assert r == ":" + Lower(first) + ":" + Lower(last) + ":";
    forall i | 0 <= i < |r| ensures !('A' <= r[i] <= 'Z') {
      if 1 <= i < 1 + |first| {
        assert r[i] == Lower(first)[i - 1];
      } else if 2 + |first| <= i < 2 + |first| + |last| {
        assert r[i] == Lower(last)[i - 2 - |first|];
      }
    }
  }

  /** `start(user, update)`: inserts the user under the derived username; a user already
      there is a primary-key clash, reported as (False, 0) with nothing added. The reply is
      "start" without a keyboard, new user or not. */
  method Start(db: Db, user: int, update: Update) returns (text: string, markup: Option<Markup>)
    requires db.Valid()
    modifies db
    ensures db.Valid()
    ensures text == "start" && markup == None
    ensures user in old(db.users) ==> db.users == old(db.users)
    ensures user !in old(db.users) ==> db.users == old(db.users)[user := NewUser(Username(update))]
    ensures db.vocabularies == old(db.vocabularies) && db.words == old(db.words)
            && db.reminders == old(db.reminders) && db.temp == old(db.temp)
  {
    var username := Username(update);
    var added := db.UsersAdd(user, username);
    text := "start";
    markup := None;
  }

  /** The four menu destinations, in their order on the keyboard. */
  const MenuTargets: seq<QueryAction> := [MenuWords, MenuReminders, MenuVocabularies, MenuSettings]

  /** The four emoji: page, alarm clock, orange book, gear. */
  const MenuIcons: seq<string> := ["\U{1F4C3}", "\U{23F0}", "\U{1F4D9}", "\U{2699}\U{FE0F}"]

  /** The menu keyboard: one row of four buttons, each an icon padded by six spaces on
      either side, whose payloads are `[MENU_WORDS]`, `[MENU_REMINDERS]`,
      `[MENU_VOCABULARIES]` and `[MENU_SETTINGS]` in that order. */
  function MenuKeyboard(): (m: Markup)
    ensures m.Inline? && |m.rows| == 1 && |m.rows[0]| == 4
    ensures forall k :: 0 <= k < 4 ==>
              m.rows[0][k].data == [Act(MenuTargets[k])] && m.rows[0][k].text == "      " + MenuIcons[k] + "      "
  {
    Inline([seq(4, k requires 0 <= k < 4 => Button("      " + MenuIcons[k] + "      ", [Act(MenuTargets[k])]))])
  }

  /** Each menu button leads somewhere else. */
  lemma MenuTargetsDistinct()
    ensures forall j, k :: 0 <= j < k < 4 ==> MenuKeyboard().rows[0][j].data != MenuKeyboard().rows[0][k].data
  {
    var m := MenuKeyboard();
    forall j, k | 0 <= j < k < 4 ensures m.rows[0][j].data != m.rows[0][k].data {
      assert m.rows[0][j].data[0] == Act(MenuTargets[j]);
      assert m.rows[0][k].data[0] == Act(MenuTargets[k]);
    }
  }

  /** The menu's keys in the string table: the heading, then the four categories. */
  const MenuKeys: seq<string> := ["choose_category", "words", "reminders", "vocabulary", "settings"]

  /** The heading, then one line per category, each under its icon. */
  function MenuLines(strings: seq<string>): (text: string)
    requires |strings| == 5
  {
    strings[0] + "\n" + MenuIcons[0] + " " + strings[1] + "\n" + MenuIcons[1] + " " + strings[2] + "\n"
    + MenuIcons[2] + " " + strings[3] + "\n" + MenuIcons[3] + " " + strings[4]
  }

  /** The menu text in `lang`; the first missing string is a KeyError. */
  function MenuText(lang: Option<string>): (r: Result<string>)
  {
    var heading :- Translate(lang, MenuKeys[0], map[]);
    var words :- Translate(lang, MenuKeys[1], map[]);
    var reminders :- Translate(lang, MenuKeys[2], map[]);
    var vocabulary :- Translate(lang, MenuKeys[3], map[]);
    var settings :- Translate(lang, MenuKeys[4], map[]);
    Success(MenuLines([heading, words, reminders, vocabulary, settings]))
  }

  /** When every string is there, the menu text is the heading and the four category
      lines in that language; when one is missing, the text fails with that error. */
  lemma MenuTextShape(lang: Option<string>)
    ensures (forall k :: 0 <= k < 5 ==> Translate(lang, MenuKeys[k], map[]).Success?) ==>
              MenuText(lang) == Success(MenuLines(seq(5, k requires 0 <= k < 5 => Translate(lang, MenuKeys[k], map[]).value)))
    ensures Translate(lang, MenuKeys[0], map[]).Failure? ==> MenuText(lang) == Failure(Translate(lang, MenuKeys[0], map[]).error)
  {
    if forall k :: 0 <= k < 5 ==> Translate(lang, MenuKeys[k], map[]).Success? {
      var strings := seq(5, k requires 0 <= k < 5 => Translate(lang, MenuKeys[k], map[]).value);
      assert Translate(lang, MenuKeys[0], map[]).Success? && Translate(lang, MenuKeys[1], map[]).Success?
             && Translate(lang, MenuKeys[2], map[]).Success? && Translate(lang, MenuKeys[3], map[]).Success?
             && Translate(lang, MenuKeys[4], map[]).Success?;
      assert strings == [Translate(lang, MenuKeys[0], map[]).value, Translate(lang, MenuKeys[1], map[]).value,
                         Translate(lang, MenuKeys[2], map[]).value, Translate(lang, MenuKeys[3], map[]).value,
                         Translate(lang, MenuKeys[4], map[]).value];
    }
  }

  /** The English strings the menu uses. */
  lemma EnglishMenuStrings()
    ensures Translate(Some("en"), "choose_category", map[]) == Success("Choose category:")
    ensures Translate(Some("en"), "words", map[]) == Success("Words")
    ensures Translate(Some("en"), "reminders", map[]) == Success("Reminders")
    ensures Translate(Some("en"), "vocabulary", map[]) == Success("Vocabulary")
    ensures Translate(Some("en"), "settings", map[]) == Success("Settings")
  {
    EnglishString("choose_category", "Choose category:");
    EnglishString("words", "Words");
    EnglishString("reminders", "Reminders");
    EnglishString("vocabulary", "Vocabulary");
    EnglishString("settings", "Settings");
  }

  /** One English string, looked up without values. */
  lemma EnglishString(key: string, text: string)
    requires key in Table()["en"] && Table()["en"][key] == text
    ensures Translate(Some("en"), key, map[]) == Success(text)
  {
    TranslateNoValues(Some("en"), key);
  }

  /** In English the menu reads "Choose category:" and then Words, Reminders, Vocabulary
      and Settings, each under its icon. */
  lemma MenuTextEnglish()
    ensures MenuText(Some("en")) == Success(MenuLines(["Choose category:", "Words", "Reminders", "Vocabulary", "Settings"]))
  {
    EnglishMenuStrings();
  }

  /** Polish lacks the menu's strings, and Ukrainian (or Russian) has no table at all. */
  lemma MenuTextElsewhere()
    ensures MenuText(Some("pl")) == Failure(KeyError("choose_category"))
    ensures MenuText(Some("ru")) == Failure(KeyError("uk"))
  {
    PolishKeys("choose_category", map[]);
    UkrainianHasNoTable("choose_category", map[]);
    assert NormalizeLang(Some("ru")) == "uk";
  }

  /** `menu(user, update)`: the text and the keyboard for the user's language; a user with
      no parameters has none (`parameters.language` is an AttributeError). */
  method MenuPage(store: TempStore, user: int) returns (r: Result<(string, Markup)>)
    modifies store
    ensures store.userParameters == old(store.CacheAfterRead(user))
    ensures old(store.CachedParameters(user)).None? ==> r == Failure(AttributeError)
    ensures old(store.CachedParameters(user)).Some? ==>
              var text := MenuText(old(store.CachedParameters(user)).value.language);
              (text.Failure? ==> r == Failure(text.error))
              && (text.Success? ==> r == Success((text.value, MenuKeyboard())))
  {
    var parameters := store.GetUserParameters(user);
    if parameters.None? {
      return Failure(AttributeError);
    }
    var text := MenuText(parameters.value.language);
    if text.Failure? {
      return Failure(text.error);
    }
    r := Success((text.value, MenuKeyboard()));
  }

  /** `menu(user, update)` as written: bot/_settings.py's `get_user_parameters` raises
      TypeError before the menu is built, for every user. */
  function MenuPageAsWritten(users: map<int, UserRow>, user: int): (r: Result<(string, Markup)>)
    ensures r == Failure(TypeError)
  {
    match Settings.GetUserParameters(users, user)
    case Failure(e) => Failure(e)
    case Success(EmptyList) => Failure(AttributeError)
    case Success(RowTuple(row)) =>
      match MenuText(row.language)
      case Failure(e) => Failure(e)
      case Success(text) => Success((text, MenuKeyboard()))
  }

  /** The decorations of this file, innermost first: `/start` sent, then `menu` under the
      MENU callback (edit) and under `/menu` (send). The same function answers both keys. */
  method RegisterCommands(table: RouteTable) returns (r: Result<()>)
    modifies table
    ensures r.Success?
    ensures table.routes
            == Registered(Registered(Registered(old(table.routes),
                 RouteKey("text", None, None, Some("/start")), FuncInfo("start", Some("send"), false)),
                 RouteKey("callback_query", None, Some(Menu), None), FuncInfo("menu", Some("edit"), false)),
                 RouteKey("text", None, None, Some("/menu")), FuncInfo("menu", Some("send"), false))
    ensures table.GetRoute("text", None, None, Some("/menu")) == Success(FuncInfo("menu", Some("send"), false))
    ensures table.GetRoute("callback_query", None, Some(Menu), None) == Success(FuncInfo("menu", Some("edit"), false))
  {
    var a := table.Route("text", Some("send"), None, None, Some("/start"), false, "start");
    var b := table.Route("callback_query", Some("edit"), None, Some(Menu), None, false, "menu");
    var c := table.Route("text", Some("send"), None, None, Some("/menu"), false, "menu");
    r := Success(());
  }
}
