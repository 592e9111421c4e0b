/** translations.py: the string table and `translate(lang, key, values)`. */
module Translations {
  import opened Wrappers

  /** The table as translations.py builds it: languages 'en', 'ua' and 'pl'. */
  function Table(): map<string, map<string, string>>
  {
    map[
      "en" := map[
        "flag" := "\U{1F1EC}\U{1F1E7}",
        "choose_lang" := "\U{1F1EC}\U{1F1E7} Choose your language",
        "lang_set" := "Language preferences have been updated",
        "choose_category" := "Choose category:",
        "words" := "Words",
        "reminders" := "Reminders",
        "vocabulary" := "Vocabulary",
        "settings" := "Settings",
        "cancel" := "Cancel",
        "add_back" := "Add back",
        "delete" := "Delete",
        "replace" := "Replace",
        "info_words" := "info_words",
        "info_reminders" := "info_reminders",
        "info_vocabularies" := "info_vocabularies",
        "info_settings" := "info_settings",
        "test" := "Hi {name}",
        "error" := "Something went wrong"
      ],
      "ua" := map[
        "flag" := "\U{1F1FA}\U{1F1E6}",
        "choose_lang" := "\U{1F1FA}\U{1F1E6} \U{0412}\U{0438}\U{0431}\U{0435}\U{0440}\U{0438} \U{0441}\U{0432}\U{043E}\U{044E} \U{043C}\U{043E}\U{0432}\U{0443}",
        "lang_set" := "\U{041D}\U{0430}\U{043B}\U{0430}\U{0448}\U{0442}\U{0443}\U{0432}\U{0430}\U{043D}\U{043D}\U{044F} \U{043C}\U{043E}\U{0432}\U{0438} \U{043E}\U{043D}\U{043E}\U{0432}\U{043B}\U{0435}\U{043D}\U{043E}"
      ],
      "pl" := map[
        "flag" := "\U{1F1F5}\U{1F1F1}",
        "choose_lang" := "\U{1F1F5}\U{1F1F1} Wybierz sw\U{00F3}j j\U{0119}zyk",
        "lang_set" := "Ustawienia j\U{0119}zykowe zosta\U{0142}y zmienione"
      ]
    ]
  }

  /** The two rebindings of `lang`: 'ru' becomes 'uk', and anything outside en/uk/pl
      (None included) becomes 'en'. */
  function NormalizeLang(lang: Option<string>): (r: string)
    ensures r in {"en", "uk", "pl"}
    ensures lang == Some("ru") ==> r == "uk"
    ensures lang.Some? && lang.value in {"en", "uk", "pl"} ==> r == lang.value
    ensures (lang.None? || lang.value !in {"en", "uk", "pl", "ru"}) ==> r == "en"
  {
    var l := if lang == Some("ru") then Some("uk") else lang;
    if l.Some? && l.value in {"en", "uk", "pl"} then l.value else "en"
  }

  /** Normalising a normalised code changes nothing. */
  lemma NormalizeIdempotent(lang: Option<string>)
    ensures NormalizeLang(Some(NormalizeLang(lang))) == NormalizeLang(lang)
  {
  }

  /** `str.format(**values)` on `{name}` fields: a field names a key of `values`
      (a missing key is a KeyError); an unclosed `{` or a lone `}` is a ValueError. */
  function Format(template: string, values: map<string, string>): Result<string>
    decreases |template|
  {
    if template == [] then Success("")
    else if template[0] == '}' then Failure(ValueError("Single '}' encountered in format string"))
    else if template[0] == '{' then
      var close := FieldEnd(template, 1);
      if close == |template| then Failure(ValueError("expected '}' before end of string"))
      else
        var name := template[1..close];
        if name !in values then Failure(KeyError(name))
        else
          var rest :- Format(template[close + 1..], values);
          Success(values[name] + rest)
    else
      var rest :- Format(template[1..], values);
      Success([template[0]] + rest)
  }

  /** Index of the first `}` at or after `i`, or |s| when there is none. */
  function FieldEnd(s: string, i: nat): (j: nat)
    requires i <= |s|
    ensures i <= j <= |s|
    ensures j < |s| ==> s[j] == '}'
    ensures forall k :: i <= k < j ==> s[k] != '}'
    decreases |s| - i
  {
    if i == |s| || s[i] == '}' then i else FieldEnd(s, i + 1)
  }

  /** `translate(lang, key, values)`: normalise, look up the language and then the key
      (either missing is a KeyError), and format only when `values` is non-empty. */
  function Translate(lang: Option<string>, key: string, values: map<string, string>): (r: Result<string>)
    ensures var l := NormalizeLang(lang);
            r.Success? ==> l in Table() && key in Table()[l]
    ensures var l := NormalizeLang(lang);
            |values| == 0 && l in Table() && key in Table()[l] ==> r == Success(Table()[l][key])
    ensures var l := NormalizeLang(lang);
            l !in Table() || key !in Table()[l] ==> r.Failure? && r.error.KeyError?
  {
    var l := NormalizeLang(lang);
    if l !in Table() then Failure(KeyError(l))
    else if key !in Table()[l] then Failure(KeyError(key))
    else if |values| == 0 then Success(Table()[l][key])
    else Format(Table()[l][key], values)
  }

  /** The table's language keys are en, ua and pl; the normalised 'uk' is not among
      them, so every lookup for 'uk' (and for 'ru', which becomes 'uk') is a KeyError. */
  lemma UkrainianHasNoTable(key: string, values: map<string, string>)
    ensures Table().Keys == {"en", "ua", "pl"}
    ensures Translate(Some("uk"), key, values).Failure?
    ensures Translate(Some("ru"), key, values).Failure?
  {
  }

  /** Polish defines only flag, choose_lang and lang_set; any other key is a KeyError. */
  lemma PolishKeys(key: string, values: map<string, string>)
    ensures Table()["pl"].Keys == {"flag", "choose_lang", "lang_set"}
    ensures key !in {"flag", "choose_lang", "lang_set"} ==>
              Translate(Some("pl"), key, values) == Failure(KeyError(key))
  {
  }

  /** Without values the stored string comes back unchanged. */
  lemma TranslateNoValues(lang: Option<string>, key: string)
    requires NormalizeLang(lang) == "en" && key in Table()["en"]
    ensures Translate(lang, key, map[]) == Success(Table()["en"][key])
  {
  }

  /** A key that neither the en nor the pl table defines fails for every language: with a
      KeyError naming the key, or naming 'uk' when the language normalises to it. */
  lemma MissingKeyFails(lang: Option<string>, key: string, values: map<string, string>)
    requires key !in Table()["en"] && key !in Table()["pl"]
    ensures Translate(lang, key, values) == Failure(KeyError(if NormalizeLang(lang) == "uk" then "uk" else key))
  {
  }
}
