/**
 * The word record shared by both pages, and the one local-storage slot
 * (`memorizedWords`) in which the memorized list is kept.
 */
module Words {
  import opened Wrappers

  /** One dictionary entry, as the word list and the stored list hold it. */
  datatype WordRecord = WordRecord(
    word: string,
    definition: string,
    examples: seq<string>,
    synonyms: seq<string>,
    antonyms: seq<string>)

  /** Position i holds the first record of `list` whose word is `w`. */
  predicate IsFirstMatch(list: seq<WordRecord>, w: string, i: int)
  {
    0 <= i < |list| && list[i].word == w && forall j :: 0 <= j < i ==> list[j].word != w
  }

  /** Some record of `list` has the word `w`. */
  predicate HasWord(list: seq<WordRecord>, w: string)
  {
    exists i :: 0 <= i < |list| && list[i].word == w
  }

  /** No word occurs twice in `list`. */
  predicate Unique(list: seq<WordRecord>)
  {
    forall i, j :: 0 <= i < j < |list| ==> list[i].word != list[j].word
  }

  /** The stored value of the slot: `None` when nothing has been stored yet. */
  type Slot = Option<seq<WordRecord>>

  /** Reading the slot: the stored list, or the empty list when the slot is absent. */
  function LoadList(slot: Slot): (list: seq<WordRecord>)
    ensures slot.None? ==> list == []
    ensures slot.Some? ==> list == slot.value
  {
    match slot
    case None => []
    case Some(list) => list
  }

  /** Writing the slot: the whole list replaces what was stored, and reading it back yields that list. */
  function SaveList(list: seq<WordRecord>): (slot: Slot)
    ensures slot.Some?
    ensures LoadList(slot) == list
  {
    Some(list)
  }

  /** The browser's local storage, reduced to the one slot both pages use. */
  class LocalStorage {
    var memorizedWords: Slot

    constructor (initial: Slot)
      ensures memorizedWords == initial
    {
      memorizedWords := initial;
    }
  }
}
