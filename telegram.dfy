/** The shapes the bot exchanges with the chat platform: inbound updates, callback
    payloads (already decoded from their JSON text), inline keyboards, and the
    outbound calls recorded as effects. The enums of bot/_enums.py live here too. */
module Telegram {
  import opened Wrappers

  /** QUERY_ACTIONS of bot/_enums.py, followed by the members the handlers use but
      bot/_enums.py does not declare (PickTime .. DeleteReminderFinalize). */
  datatype QueryAction =
    | Cancel | SetLanguage | ChangeWordsPage | AddSpecificWord | DeleteSpecificWord
    | AddSpecificReminder | DeleteSpecificReminder | Menu | MenuWords | MenuReminders
    | MenuVocabularies | MenuSettings | ShowInfo | ChangeVocabulary | AddWord | DeleteWord
    | AddReminder | DeleteReminder | AddVocabulary | DeleteVocabulary | ChangeLanguage
    | ToggleHideMeaning
    | PickTime | TimeChosen
    | AddReminderVocabularyChosen | AddReminderTimeChosen | AddReminderFinalize
    | DeleteReminderVocabularyChosen | DeleteReminderFinalize

  /** TEMP_KEYS of bot/_enums.py, plus TimezoneNotSet, which bot/_enums.py does not declare. */
  datatype TempKey = State | Vocabulary | Time | CancelButtonId | CallMenu | TimezoneNotSet

  /** One element of a decoded callback payload (a JSON array). */
  datatype Item =
    | Act(action: QueryAction)
    | Num(n: int)
    | Str(s: string)
    | Flag(b: bool)
    | Null

  /** Python truthiness of a payload element. Enum codes come from `auto()` and start at 1,
      so every action code is truthy. */
  predicate Truthy(x: Item)
  {
    match x
    case Act(_) => true
    case Num(n) => n != 0
    case Str(s) => s != ""
    case Flag(b) => b
    case Null => false
  }

  type Payload = seq<Item>

  datatype Button = Button(text: string, data: Payload)

  /** `InlineKeyboardMarkup(inline_keyboard=rows)`, or the `{'remove_keyboard': True}` dict. */
  datatype Markup = Inline(rows: seq<seq<Button>>) | RemoveKeyboard

  /** The label of every back button: an arrow padded with six spaces on each side. */
  const BackLabel := "      \U{21A9}\U{FE0F}      "

  /** The closing row of the inline keyboards: one back button whose payload is `[action]`. */
  function BackRow(action: QueryAction): (row: seq<Button>)
    ensures |row| == 1 && row[0].text == BackLabel && row[0].data == [Act(action)]
  {
    [Button(BackLabel, [Act(action)])]
  }

  /** The `from` object of a message; absent fields are None. */
  datatype Sender = Sender(username: Option<string>, firstName: Option<string>, lastName: Option<string>)

  datatype Message = Message(chatId: int, sender: Option<Sender>, text: Option<string>)

  datatype CallbackQuery = CallbackQuery(id: string, fromId: int, messageId: int, data: Payload)

  datatype ChatMemberUpdate = ChatMemberUpdate(fromId: int, oldStatus: string, newStatus: string)

  /** An update; each field is None when its key is not in the update dict. */
  datatype Update = Update(
    message: Option<Message>,
    callbackQuery: Option<CallbackQuery>,
    myChatMember: Option<ChatMemberUpdate>)

  /** One call to the transport: `sendMessage` (with the id the platform assigned)
      or `editMessageReplyMarkup` on a `(chat, message_id)` pair, the message id as the
      Temp table holds it (text, or NULL). */
  datatype Effect =
    | Send(chat: int, text: string, markup: Markup, replyTo: Option<int>, messageId: int)
    | EditMarkup(target: int, editedId: Option<string>, newMarkup: Option<Markup>)

  /** TaskStatus of bot/_enums.py. */
  datatype TaskStatus = TaskSuccess | TaskFailure | NoVocabulary | Duplicate
}
