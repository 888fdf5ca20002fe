# memorize — a Dafny model of the lookup and memorized-words pages

The repository is a small client-side dictionary. On the lookup page a user
types a word and picks a display option. The page finds the first record of a
static word list whose `word` equals the text exactly. It shows the selected
sections (definition, examples, synonyms, antonyms, or all four) and a checkbox
that adds the record to, or removes it from, a "memorized" list kept in the
`memorizedWords` slot of local storage. The memorized-words page reads that
list once on load. It shows it two records at a time, once on load and again
every time the page is scrolled to the bottom.

The model has five modules, one file each:

- `Wrappers` (`wrappers.dfy`): the `Option` type.
- `Words` (`words.dfy`): the `WordRecord` datatype and the storage slot. The
  slot is an `Option<seq<WordRecord>>`, where `None` means nothing is stored.
  `LoadList` reads the slot; an absent slot reads as the empty list
  (`JSON.parse(...) || []`). `SaveList` writes the slot. `LocalStorage` is
  the one mutable slot both pages share.
- `Memory` (`memory.dfy`, from `memory.js`): the class `MemorizedPage`. Its
  fields are the list read on load, the cursor `startIndex`, the batch size
  `count` (2), and `output`, the records appended to the visible list so far.
  `DisplayWords` takes the slice at the cursor, advances the cursor by `count`
  and appends the slice in a loop. It is proved against `Shown`, which
  concatenates the first k batches, and lemmas prove what the batches add up to.
- `Memorize` (`memorize.dfy`, from `index.js`): the checkbox rules as pure
  functions. `WordIndex` is `map(e => e.word).indexOf(w)`. `IsMemorized` gives
  the checkbox's initial state. `Check` is the push-if-absent. `Uncheck` removes
  the first record with the word and is written as its own recursive
  definition. Lemmas give idempotence, uniqueness preservation, the
  check-then-uncheck inverse, and that `splice(index, 1)` at the first match is
  `Uncheck`.
- `Lookup` (`lookup.dfy`, from `index.js`): `Find` (`words.find`), `Sections`
  (which sections an option shows, in their fixed order) and `Search`, the whole
  outcome of a search. The class `SearchPage` has two methods, the search
  button's handler `OnSearch` and the checkbox's change handler `OnChange`.
  `OnChange` re-reads the slot, pushes or splices, and writes the whole list
  back.

The whole lookup handler in `index.js` (lines 1-71) is commented out in the
repository. It is still the only place where the lookup and toggle rules are
written, so it is modelled here as the page's intended behaviour.

Two facts about the code that the model keeps:

- An invalid stored value is not read as the empty list: `JSON.parse` throws
  on it (memory.js:1, index.js:41, 49). `|| []` replaces only a stored value
  that parses to something falsy: a missing slot (`null`), or a stored `null`,
  `false`, `0` or `""`. The model's slot is either absent or holds a list, so
  it has neither the throwing case nor the falsy non-list values.
- The batch size is the constant 2 (memory.js:5). The constructor sets
  `count` to `BatchSize` (2). The lemmas about the batches hold for any
  `count`.

## Model

| member | source | states |
|---|---|---|
| Words.LoadList | memory.js:1 | reading the slot: an absent slot reads as the empty list, and a stored list reads as itself |
| Words.SaveList | index.js:69 | writing the list into the slot leaves a stored value, and reading it back yields exactly that list |
| Memory.Slice | memory.js:26 | `slice(start, end)`: the result's length is the clamped distance, element i is `s[start + i]`, the length is at most `end - start`, and the result is empty once `start >= |s|` |
| Memory.Batch | memory.js:26 | the batch at cursor `start` has at most `count` records; it is empty when the cursor is at or past the end, and otherwise it is `words[start .. min(start + count, |words|)]` |
| Memory.ShownIsPrefix | memory.js:4-27 | the batches of the first k calls from cursor 0, concatenated in call order, are exactly `words[.. min(k * count, |words|)]` |
| Memory.BatchNonEmptyIff | memory.js:26-27 | with `count > 0`, the k-th batch is non-empty exactly when k is below ceil(|words| / count), so the calls yield that many non-empty batches and then only empty ones |
| Memory.AllShown | memory.js:4-27 | with `count > 0`, after ceil(|words| / count) calls the whole list has been shown, in order |
| Memory.MemorizedPage.constructor | memory.js:1-5 | loading the page: the list is the stored value or empty when the slot is absent, `count` is 2, the cursor starts at 0, and the first call (line 42) shows `Batch(words, 0, 2)` |
| Memory.MemorizedPage.DisplayWords | memory.js:7-40 | `words` is unchanged; the cursor grows by exactly `count`, even when the batch is empty; the new output is the old output followed by the batch at the old cursor, in order; the output is always `words[.. min(startIndex, |words|)]` |
| Memory.MemorizedPage.OnScroll | memory.js:44-49 | when `innerHeight + scrollY >= offsetHeight`, one more batch is appended and the cursor advances; otherwise nothing changes |
| Memorize.Keys | index.js:42 | `map(e => e.word)`: one entry per record, and entry i is the word of record i |
| Memorize.IndexOf | index.js:42 | `indexOf`: -1 exactly when the value is absent; otherwise the position holds the value and no earlier position does |
| Memorize.WordIndex | index.js:52 | `map(e => e.word).indexOf(w)` is -1 exactly when no record has word `w`; otherwise it is the position of the first record with that word |
| Memorize.IsMemorized | index.js:41-45 | the checkbox starts checked exactly when some stored record has the same word |
| Memorize.Check | index.js:52-55 | after checking, the word is in the list; the old list is kept as a prefix, and at most one record is added |
| Memorize.CheckPresent | index.js:52-55 | checking a word that is already in the list leaves the list unchanged |
| Memorize.CheckAbsent | index.js:52-55 | checking an absent word appends its record at the end: the length grows by one and the earlier records are unchanged |
| Memorize.CheckIdempotent | index.js:52-55 | checking twice gives the same list as checking once |
| Memorize.CheckPreservesUnique | index.js:52-55 | a list without duplicate words still has none after checking |
| Memorize.Uncheck | index.js:61-67 | unchecking shortens the list by exactly one when the word is in it and leaves the length alone otherwise; every remaining record comes from the old list |
| Memorize.UncheckAbsent | index.js:61-67 | unchecking an absent word leaves the list unchanged |
| Memorize.UncheckRemovesFirst | index.js:61-67 | unchecking removes exactly the record at the first position with the word (`splice(index, 1)`) and keeps the rest in order |
| Memorize.UncheckPositions | index.js:61-67 | after unchecking at first match i, the list is one shorter; positions before i are unchanged and later records move down by one |
| Memorize.UncheckPreservesUnique | index.js:61-67 | a list without duplicate words still has none after unchecking, and the word is then absent |
| Memorize.UncheckIdempotent | index.js:61-67 | on a list without duplicate words, unchecking twice gives the same list as unchecking once |
| Memorize.CheckThenUncheck | index.js:51-69 | checking a word that was absent and then unchecking it restores the original list |
| Lookup.Find | index.js:9 | `find`: not found exactly when no record has the search text as its word; otherwise the result is the record at the first matching position |
| Lookup.SkipMismatch | index.js:9 | past a first record that does not match, the matches are those of the rest of the list, one position later |
| Lookup.Sections | index.js:21-35 | a section is shown exactly when the option is its name or "all", and the shown sections keep the order definition, examples, synonyms, antonyms |
| Lookup.Search | index.js:9-45 | the result is "not found" exactly when no record matches; otherwise it holds the first matching record, the sections the option selects, and a checkbox state that is true exactly when the word is in the memorized list |
| Lookup.SearchRunAll | index.js:9-35 | for the one-entry list `run`, searching "run" with "all" shows the four sections in order, with texts "move fast", "He runs daily", "sprint", "walk" |
| Lookup.SearchJump | index.js:9-15 | for the one-entry list `run`, searching "jump" gives "not found" |
| Lookup.SearchPage.OnSearch | index.js:1-45 | the view is `Search` of the typed text against the list read from the slot; the search box is cleared exactly when nothing was found |
| Lookup.SearchPage.OnChange | index.js:47-70 | the stored slot becomes `Check` (when checked) or `Uncheck` (when unchecked) of the list read at that moment, applied to the record captured at search time; the checkbox state becomes `checked`; the search box is left unchanged |

## Left out

- HTML: building result strings, `innerHTML`, joining lists with `<br>`, and the checkbox element ids built as `memorize-${word}`. The model records which records and sections are shown, not their markup. `Lookup.Contents` stands for the rendered texts only in the sample lemmas.
- `fetch('./words.json')` and `response.json()`: network I/O. The word list is a parameter of `OnSearch`, and fetch failures are not modelled.
- `JSON.parse` and `JSON.stringify`: serialisation. The slot holds the list itself, so invalid stored text, on which `JSON.parse` would throw, cannot occur in the model.
- The scroll listener's viewport geometry: the three heights are plain parameters of `OnScroll`.
- `console.log` calls, and the `person` object demo in `index.js` (lines 75-90), which is unrelated to the pages.
- Two tabs doing read-modify-write on the slot at the same time: concurrency, for which the code has no logic.
- Lookup.SearchPage.OnSearch, Lookup.SearchPage.OnChange, Memorize.IsMemorized: the checkbox is found with the selector `#memorize-${word}` (index.js:45, 47). For a word that contains a space, `.`, `'` or `:`, that selector throws or finds nothing, so line 45 throws: the box keeps its default unchecked state and gets no change handler. The model assumes the selector always works, so `OnSearch` always shows the box with the `IsMemorized` state and `OnChange` can always run.
- Lookup.SearchPage.OnSearch: the option is read before the two awaits (index.js:3) and the search text after them (index.js:9). Searches that overlap draw their results in the order their fetches finish. `OnSearch` reads both at once and runs as one atomic step, so it does not capture either effect.
- Typing into the search box and choosing the option: the `input` field is set by the caller, and the option is a parameter of `OnSearch`.
