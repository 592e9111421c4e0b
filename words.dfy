/** bot/_words.py: adding a word, deleting one by id or by (user, vocabulary, word),
    reading a word's meaning under the same selection rule, and listing the words of
    one vocabulary. */
module Words {
  import opened Wrappers
  import opened Database
  import opened Tables

  const SelectionError := ValueError("You must provide either word_id, or user_id, vocabulary_id, and word.")

  /** The condition `delete_word` and `get_word_meaning` build: a truthy id wins; otherwise
      user, vocabulary and word must all be truthy; otherwise a ValueError. */
  function WordSelectorFor(wordId: Option<int>, user: Option<int>, vocabularyId: Option<int>, word: Option<string>)
    : (r: Result<WordSelector>)
    ensures TruthyInt(wordId) ==> r == Success(WordById(wordId.value))
    ensures !TruthyInt(wordId) && TruthyInt(user) && TruthyInt(vocabularyId) && TruthyText(word) ==>
              r == Success(WordByKey(user.value, vocabularyId.value, word.value))
    ensures r.Failure? <==>
              !TruthyInt(wordId) && !(TruthyInt(user) && TruthyInt(vocabularyId) && TruthyText(word))
    ensures r.Failure? ==> r.error == SelectionError
  {
    if TruthyInt(wordId) then Success(WordById(wordId.value))
    else if TruthyInt(user) && TruthyInt(vocabularyId) && TruthyText(word) then
      Success(WordByKey(user.value, vocabularyId.value, word.value))
    else Failure(SelectionError)
  }

  /** On a words table meeting its keys, no two rows answer the same selector. */
  lemma WordSelectorUnique(ws: seq<WordRow>, sel: WordSelector)
    requires Ascending(ws, WordIdOf) && Pairwise(ws, WordsDistinct)
    ensures forall i, j :: 0 <= i < j < |ws| ==> !(SelectsWord(sel, ws[i]) && SelectsWord(sel, ws[j]))
  {
    forall i, j | 0 <= i < j < |ws|
      ensures !(SelectsWord(sel, ws[i]) && SelectsWord(sel, ws[j]))
    {
      assert WordIdOf(ws[i]) < WordIdOf(ws[j]);
      assert WordsDistinct(ws[i], ws[j]);
    }
  }

  /** A DELETE by a word selector removes exactly the selected rows. */
  lemma WordDeleteExact(ws: seq<WordRow>, sel: WordSelector)
    ensures forall w :: w in Filter(ws, KeepWord(sel)) <==> w in ws && !SelectsWord(sel, w)
  {
    FilterMembers(ws, KeepWord(sel));
  }

  /** `delete_word(...)`: the selection error, or whether some row was deleted; deleting
      a word that is not there is False, not an error. */
  method DeleteWord(db: Db, wordId: Option<int>, user: Option<int>, vocabularyId: Option<int>, word: Option<string>)
    returns (r: Result<bool>)
    requires db.Valid()
    modifies db
    ensures db.Valid()
    ensures WordSelectorFor(wordId, user, vocabularyId, word).Failure? ==>
              r == Failure(SelectionError) && db.words == old(db.words)
    ensures WordSelectorFor(wordId, user, vocabularyId, word).Success? ==>
              var sel := WordSelectorFor(wordId, user, vocabularyId, word).value;
              r.Success?
              && (r.value <==> exists i :: 0 <= i < |old(db.words)| && SelectsWord(sel, old(db.words)[i]))
              && db.words == Filter(old(db.words), KeepWord(sel))
              && (forall w :: w in db.words <==> w in old(db.words) && !SelectsWord(sel, w))
    ensures db.users == old(db.users) && db.vocabularies == old(db.vocabularies)
            && db.reminders == old(db.reminders) && db.temp == old(db.temp)
  {
    var s := WordSelectorFor(wordId, user, vocabularyId, word);
    if s.Failure? {
      return Failure(s.error);
    }
    WordDeleteExact(db.words, s.value);
    var removed := db.WordsDelete(s.value);
    r := Success(removed);
  }

  /** `get_word_meaning(...)` as written: `Words.get(..., include_column_names=True)` gives a
      lone named tuple (or a list of them), and subscripting either with "meaning" is a
      TypeError; no match gives the empty list, which is falsy, so None. */
  function GetWordMeaningAsWritten(ws: seq<WordRow>, wordId: Option<int>, user: Option<int>,
                                   vocabularyId: Option<int>, word: Option<string>): (r: Result<Option<string>>)
    ensures WordSelectorFor(wordId, user, vocabularyId, word).Failure? ==> r == Failure(SelectionError)
    ensures WordSelectorFor(wordId, user, vocabularyId, word).Success? ==>
              var sel := WordSelectorFor(wordId, user, vocabularyId, word).value;
              (r == Success(None) <==> forall i :: 0 <= i < |ws| ==> !SelectsWord(sel, ws[i]))
              && (r.Failure? ==> r.error == TypeError)
  {
    var sel :- WordSelectorFor(wordId, user, vocabularyId, word);
    var found := Filter(ws, PickWord(sel));
    FilterMembers(ws, PickWord(sel));
    if found == [] then
      assert forall i :: 0 <= i < |ws| ==> ws[i] in ws;
      Success(None)
    else
      assert found[0] in found;
      Failure(TypeError)
  }

  /** A stored word with a meaning makes the as-written lookup fail instead of answering. */
  lemma GetWordMeaningAsWrittenRaises()
    ensures var ws := [WordRow(1, 5, 2, "cat", Some("kit"), 0)];
            GetWordMeaningAsWritten(ws, Some(1), None, None, None) == Failure(TypeError)
            && GetWordMeaning(ws, Some(1), None, None, None) == Success(Some("kit"))
  {
    var ws := [WordRow(1, 5, 2, "cat", Some("kit"), 0)];
    assert Filter(ws, PickWord(WordById(1))) == ws;
  }

  /** `get_word_meaning(...)` as its documentation promises: the meaning of the selected
      word (None when the row's meaning is NULL or nothing matches). */
  function GetWordMeaning(ws: seq<WordRow>, wordId: Option<int>, user: Option<int>,
                          vocabularyId: Option<int>, word: Option<string>): (r: Result<Option<string>>)
    ensures WordSelectorFor(wordId, user, vocabularyId, word).Failure? ==> r == Failure(SelectionError)
    ensures WordSelectorFor(wordId, user, vocabularyId, word).Success? ==> r.Success?
    ensures r.Success? && r.value.Some? ==>
              exists i :: 0 <= i < |ws| && SelectsWord(WordSelectorFor(wordId, user, vocabularyId, word).value, ws[i])
                          && ws[i].meaning == r.value
  {
    var sel :- WordSelectorFor(wordId, user, vocabularyId, word);
    var found := Filter(ws, PickWord(sel));
    if found == [] then Success(None)
    else
      FilterMembers(ws, PickWord(sel));
      assert found[0] in found;
      Success(found[0].meaning)
  }

  /** On a valid table the meaning read back is that of the one word the arguments select,
      and nothing selected reads as None. */
  lemma GetWordMeaningFinds(ws: seq<WordRow>, wordId: Option<int>, user: Option<int>,
                            vocabularyId: Option<int>, word: Option<string>, w: WordRow)
    requires Ascending(ws, WordIdOf) && Pairwise(ws, WordsDistinct)
    requires WordSelectorFor(wordId, user, vocabularyId, word).Success?
    ensures var sel := WordSelectorFor(wordId, user, vocabularyId, word).value;
            w in ws && SelectsWord(sel, w) ==> GetWordMeaning(ws, wordId, user, vocabularyId, word) == Success(w.meaning)
    ensures var sel := WordSelectorFor(wordId, user, vocabularyId, word).value;
            (forall i :: 0 <= i < |ws| ==> !SelectsWord(sel, ws[i])) ==>
              GetWordMeaning(ws, wordId, user, vocabularyId, word) == Success(None)
  {
    var sel := WordSelectorFor(wordId, user, vocabularyId, word).value;
    var found := Filter(ws, PickWord(sel));
    FilterMembers(ws, PickWord(sel));
    if w in ws && SelectsWord(sel, w) {
      assert w in found;
      assert found[0] in found;
      var i :| 0 <= i < |ws| && ws[i] == found[0];
      var j :| 0 <= j < |ws| && ws[j] == w;
      WordSelectorUnique(ws, sel);
      assert !(i < j) && !(j < i);
    }
    if found != [] {
      assert found[0] in found;
    }
  }

  /** `get_user_words(user, vocabulary_id)`: the rows of that user and vocabulary, in
      table order, a lone row unwrapped. */
  function GetUserWords(ws: seq<WordRow>, user: int, vocabularyId: int): (r: Fetched<WordRow>)
    ensures |AsRows(r)| <= |ws|
  {
    ShapeRows(Filter(ws, WordIn(user, vocabularyId)), false)
  }

  /** The listed words are exactly the stored words of that user and vocabulary. */
  lemma UserWordsExact(ws: seq<WordRow>, user: int, vocabularyId: int)
    ensures forall w :: w in AsRows(GetUserWords(ws, user, vocabularyId)) <==>
              w in ws && w.userId == user && w.vocabularyId == vocabularyId
  {
    FilterMembers(ws, WordIn(user, vocabularyId));
  }

  /** `add_word(self, user, vocabulary_id, word, meaning)` as written: the insert names no
      timestamp, the column is NOT NULL, so every call is an integrity failure. */
  method AddWordAsWritten(db: Db, user: int, vocabularyId: int, word: string, meaning: Option<string>)
    returns (res: (bool, int))
    requires db.Valid()
    modifies db
    ensures db.Valid()
    ensures res == (false, 0)
    ensures db.words == old(db.words)
    ensures db.users == old(db.users) && db.vocabularies == old(db.vocabularies)
            && db.reminders == old(db.reminders) && db.temp == old(db.temp)
  {
    res := db.WordsAdd(user, vocabularyId, word, meaning, None);
  }

  /** `add_word` with the timestamp the table requires: the word is stored, and is then
      listed among the user's words of that vocabulary, unless a key or a foreign key
      stops the insert. */
  method AddWord(db: Db, user: int, vocabularyId: int, word: string, meaning: Option<string>, timestamp: int)
    returns (res: (bool, int))
    requires db.Valid()
    modifies db
    ensures db.Valid()
    ensures var clash := user !in old(db.users) || !old(db.VocabularyExists(vocabularyId))
                         || exists i :: 0 <= i < |old(db.words)| && old(db.words)[i].userId == user
                                        && old(db.words)[i].vocabularyId == vocabularyId && old(db.words)[i].word == word;
            res.0 <==> !clash
    ensures res.0 ==>
              var row := WordRow(res.1, user, vocabularyId, word, meaning, timestamp);
              db.words == old(db.words) + [row] && row in AsRows(GetUserWords(db.words, user, vocabularyId))
    ensures !res.0 ==> res == (false, 0) && db.words == old(db.words)
    ensures db.users == old(db.users) && db.vocabularies == old(db.vocabularies)
            && db.reminders == old(db.reminders) && db.temp == old(db.temp)
  {
    res := db.WordsAdd(user, vocabularyId, word, meaning, Some(timestamp));
    UserWordsExact(db.words, user, vocabularyId);
    if res.0 {
      assert db.words[|db.words| - 1] == WordRow(res.1, user, vocabularyId, word, meaning, timestamp);
    }
  }
}
