/**
 * The lookup page: a search finds the first record of the word list whose
 * word is the search text, shows the sections the option selects, and
 * offers a checkbox that adds the word to, or removes it from, the
 * memorized list in local storage.
 */
module Lookup {
  import opened Wrappers
  import opened Words
  import opened Memorize

  /** `words.find(w => w.word === text)`: the first record whose word is exactly `text`. */
  function Find(dataset: seq<WordRecord>, text: string): (r: Option<WordRecord>)
    ensures r.None? <==> !HasWord(dataset, text)
    ensures r.Some? ==> exists i :: IsFirstMatch(dataset, text, i) && dataset[i] == r.value
  {
    if dataset == [] then None
    else if dataset[0].word == text then
      assert IsFirstMatch(dataset, text, 0);
      Some(dataset[0])
    else
      var r := Find(dataset[1..], text);
      SkipMismatch(dataset, text);
      r
  }

  /** Past a first record that does not match, the matches are those of the rest, one position later. */
  lemma SkipMismatch(dataset: seq<WordRecord>, text: string)
    requires dataset != [] && dataset[0].word != text
    ensures HasWord(dataset, text) <==> HasWord(dataset[1..], text)
    ensures forall i :: IsFirstMatch(dataset[1..], text, i) ==> IsFirstMatch(dataset, text, i + 1)
  {
  }

  /** The parts of a record the result can show, in the order they are shown. */
  datatype Section = Definition | Examples | Synonyms | Antonyms

  /** The option value that selects a section. */
  function Name(s: Section): string
  {
    match s
    case Definition => "definition"
    case Examples => "examples"
    case Synonyms => "synonyms"
    case Antonyms => "antonyms"
  }

  /** A section's place in the rendered result. */
  function Rank(s: Section): nat
  {
    match s
    case Definition => 0
    case Examples => 1
    case Synonyms => 2
    case Antonyms => 3
  }

  /**
   * The sections shown for `option`: a section appears exactly when the
   * option is its name or "all", and the sections keep their fixed order.
   */
  function Sections(option: string): (r: seq<Section>)
    ensures forall s :: s in r <==> (option == Name(s) || option == "all")
    ensures forall i, j :: 0 <= i < j < |r| ==> Rank(r[i]) < Rank(r[j])
  {
    var r :=
      (if option == "definition" || option == "all" then [Definition] else []) +
      (if option == "examples" || option == "all" then [Examples] else []) +
      (if option == "synonyms" || option == "all" then [Synonyms] else []) +
      (if option == "antonyms" || option == "all" then [Antonyms] else []);
    assert forall s :: s in r <==> (option == Name(s) || option == "all") by {
      forall s ensures s in r <==> (option == Name(s) || option == "all") {
        if s.Definition? {
        } else if s.Examples? {
        } else if s.Synonyms? {
        } else {
        }
      }
    }
    r
  }

  /** The text of one section of a record. */
  function Content(record: WordRecord, s: Section): seq<string>
  {
    match s
    case Definition => [record.definition]
    case Examples => record.examples
    case Synonyms => record.synonyms
    case Antonyms => record.antonyms
  }

  /** The texts of the given sections, one section after another. */
  function Contents(record: WordRecord, ss: seq<Section>): seq<string>
  {
    if ss == [] then [] else Content(record, ss[0]) + Contents(record, ss[1..])
  }

  /** What the results area shows. */
  datatype View =
    | Blank
    | NotFound
    | Found(record: WordRecord, sections: seq<Section>, checked: bool)

  /**
   * The result of a search for `text` with `option`, given the word list and
   * the memorized list read from storage.
   */
  function Search(dataset: seq<WordRecord>, text: string, option: string, memorized: seq<WordRecord>): (v: View)
    ensures v.NotFound? <==> !HasWord(dataset, text)
    ensures v.Found? ==>
      (exists i :: IsFirstMatch(dataset, text, i) && dataset[i] == v.record) &&
      v.sections == Sections(option) &&
      (v.checked <==> HasWord(memorized, text))
    ensures !v.Blank?
  {
    match Find(dataset, text)
    case None => NotFound
    case Some(record) => Found(record, Sections(option), IsMemorized(memorized, record.word))
  }

  /** The sample entry: searching "run" with "all" shows its four sections in order. */
  lemma SearchRunAll()
    ensures
      var run := WordRecord("run", "move fast", ["He runs daily"], ["sprint"], ["walk"]);
      var v := Search([run], "run", "all", []);
      v == Found(run, [Definition, Examples, Synonyms, Antonyms], false) &&
      Contents(v.record, v.sections) == ["move fast", "He runs daily", "sprint", "walk"]
  {
  }

  /** The sample entry: searching "jump" finds nothing. */
  lemma SearchJump()
    ensures
      var run := WordRecord("run", "move fast", ["He runs daily"], ["sprint"], ["walk"]);
      Search([run], "jump", "all", []) == NotFound
  {
  }

  /** The lookup page: the search box, and the results area with its checkbox. */
  class SearchPage {
    var input: string
    var view: View

    constructor ()
      ensures input == "" && view == Blank
    {
      input := "";
      view := Blank;
    }

    /**
     * The search button: look up the typed text in the word list; when it is
     * not found, show so and clear the box; otherwise show the selected
     * sections and a checkbox that starts checked when the word is memorized.
     */
    method OnSearch(dataset: seq<WordRecord>, option: string, store: LocalStorage)
      modifies this
      ensures view == Search(dataset, old(input), option, LoadList(store.memorizedWords))
      ensures input == if view.NotFound? then "" else old(input)
    {
      var wordData := Find(dataset, input);
      if wordData.None? {
        view := NotFound;
        input := "";
        return;
      }
      var memorizedWord := LoadList(store.memorizedWords);
      var memorizedIndex := WordIndex(memorizedWord, wordData.value.word);
      view := Found(wordData.value, Sections(option), memorizedIndex > -1);
    }

    /**
     * The checkbox changed to `checked`: re-read the memorized list, append
     * the shown record when checking a word that is absent, remove the first
     * record with that word when unchecking, and store the whole list.
     */
    method OnChange(checked: bool, store: LocalStorage)
      requires view.Found?
      modifies this, store
      ensures view == old(view).(checked := checked) && input == old(input)
      ensures store.memorizedWords == Some(
        if checked then Check(old(LoadList(store.memorizedWords)), view.record)
        else Uncheck(old(LoadList(store.memorizedWords)), view.record.word))
    {
      var memorizedWords := LoadList(store.memorizedWords);
      var wordData := view.record;
      if checked {
        var index := WordIndex(memorizedWords, wordData.word);
        if index == -1 {
          memorizedWords := memorizedWords + [wordData];
        }
      } else {
        var index := WordIndex(memorizedWords, wordData.word);
        if index > -1 {
          UncheckRemovesFirst(memorizedWords, wordData.word, index);
          memorizedWords := memorizedWords[..index] + memorizedWords[index + 1..];
        } else {
          UncheckAbsent(memorizedWords, wordData.word);
        }
      }
      store.memorizedWords := SaveList(memorizedWords);
      view := view.(checked := checked);
    }
  }
}
