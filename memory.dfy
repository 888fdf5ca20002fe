/**
 * The memorized-words page: the stored list is read once when the page
 * loads and shown in batches of `count` records, one batch per call of
 * `DisplayWords` (once on load, then on every scroll to the bottom).
 */
module Memory {
  import opened Wrappers
  import opened Words

  /** The number of records shown per call. */
  const BatchSize: nat := 2

  function Min(a: int, b: int): int
  {
    if a <= b then a else b
  }

  /**
   * `s.slice(start, end)` for non-negative bounds: the elements at
   * positions start, start + 1, ... below both `end` and `|s|`.
   */
  function Slice<T>(s: seq<T>, start: nat, end: nat): (r: seq<T>)
    ensures |r| == if start < Min(end, |s|) then Min(end, |s|) - start else 0
    ensures forall i :: 0 <= i < |r| ==> r[i] == s[start + i]
    ensures start <= end ==> |r| <= end - start
    ensures start >= |s| ==> r == []
  {
    if start < end && start < |s| then s[start..Min(end, |s|)] else []
  }

  /** The batch a call shows when it finds the cursor at `start`. */
  function Batch(words: seq<WordRecord>, start: nat, count: nat): (r: seq<WordRecord>)
    ensures |r| <= count
    ensures start >= |words| ==> r == []
    ensures start < |words| ==> r == words[start..Min(start + count, |words|)]
  {
    Slice(words, start, start + count)
  }

  /** What the first `k` calls show, batch after batch. */
  function Shown(words: seq<WordRecord>, count: nat, k: nat): seq<WordRecord>
  {
    if k == 0 then [] else Shown(words, count, k - 1) + Batch(words, (k - 1) * count, count)
  }

  /** The number of calls after which every record has been shown: the ceiling of n / count. */
  function CallsToShowAll(n: nat, count: nat): nat
    requires count > 0
  {
    (n + count - 1) / count
  }

  /** The batches of the first k calls, concatenated, are the first k * count records of the list. */
  lemma {:induction false} ShownIsPrefix(words: seq<WordRecord>, count: nat, k: nat)
    ensures Shown(words, count, k) == words[..Min(k * count, |words|)]
  {
    if k > 0 {
      ShownIsPrefix(words, count, k - 1);
      var a := Min((k - 1) * count, |words|);
      var b := Min(k * count, |words|);
      assert k * count == (k - 1) * count + count;
      assert Batch(words, (k - 1) * count, count) == words[a..b];
      assert words[..b] == words[..a] + words[a..b];
    }
  }

  lemma MulMonotone(a: nat, b: nat, c: nat)
    requires a <= b
    ensures a * c <= b * c
  {
  }

  /** The k-th batch (counting from 0) is non-empty exactly when k is below the ceiling of |words| / count. */
  lemma BatchNonEmptyIff(words: seq<WordRecord>, count: nat, k: nat)
    requires count > 0
    ensures Batch(words, k * count, count) != [] <==> k < CallsToShowAll(|words|, count)
  {
    var n := |words|;
    var q := CallsToShowAll(n, count);
    var r := (n + count - 1) % count;
    assert n + count - 1 == q * count + r;
    if k < q {
      MulMonotone(k, q - 1, count);
      assert (q - 1) * count == q * count - count;
    } else {
      MulMonotone(q, k, count);
    }
  }

  /** After the ceiling of |words| / count calls from the start, the whole list has been shown in order. */
  lemma AllShown(words: seq<WordRecord>, count: nat)
    requires count > 0
    ensures Shown(words, count, CallsToShowAll(|words|, count)) == words
  {
    var n := |words|;
    var q := CallsToShowAll(n, count);
    var r := (n + count - 1) % count;
    assert n + count - 1 == q * count + r;
    ShownIsPrefix(words, count, q);
    assert Min(q * count, n) == n;
  }

  /** The page's state: the list read on load, the cursor, the batch size and what has been shown. */
  class MemorizedPage {
    var words: seq<WordRecord>
    var startIndex: nat
    const count: nat
    /** The records appended to the visible list, in order. */
    var output: seq<WordRecord>
    /** How many times `DisplayWords` has run. */
    ghost var calls: nat

    ghost predicate Valid()
      reads this
    {
      startIndex == calls * count && output == Shown(words, count, calls)
    }

    /** Loading the page: read the slot, start the cursor at 0, and show the first batch. */
    constructor (stored: Slot)
      ensures Valid()
      ensures words == LoadList(stored) && count == BatchSize
      ensures calls == 1 && startIndex == BatchSize
      ensures output == Batch(LoadList(stored), 0, BatchSize)
    {
      words := LoadList(stored);
      startIndex := 0;
      count := BatchSize;
      output := [];
      calls := 0;
      new;
      DisplayWords();
    }

    /** Show the next batch: slice at the cursor, advance it by `count`, append the batch's records. */
    method DisplayWords()
      requires Valid()
      modifies this
      ensures Valid()
      ensures words == old(words) && calls == old(calls) + 1
      ensures startIndex == old(startIndex) + count
      ensures output == old(output) + Batch(words, old(startIndex), count)
      ensures output == words[..Min(startIndex, |words|)]
    {
      var batch := Slice(words, startIndex, startIndex + count);
      startIndex := startIndex + count;
      var i := 0;
      while i < |batch|
        invariant 0 <= i <= |batch|
        invariant words == old(words) && startIndex == old(startIndex) + count && calls == old(calls)
        invariant output == old(output) + batch[..i]
      {
        output := output + [batch[i]];
        i := i + 1;
      }
      calls := calls + 1;
      ShownIsPrefix(words, count, calls);
    }

    /**
     * A scroll event: when the viewport's bottom (`innerHeight + scrollY`)
     * has reached the document's height, one more batch is shown.
     */
    method OnScroll(innerHeight: int, scrollY: int, offsetHeight: int)
      requires Valid()
      modifies this
      ensures Valid() && words == old(words)
      ensures innerHeight + scrollY >= offsetHeight ==>
        calls == old(calls) + 1 && startIndex == old(startIndex) + count &&
        output == old(output) + Batch(words, old(startIndex), count)
      ensures innerHeight + scrollY < offsetHeight ==>
        calls == old(calls) && startIndex == old(startIndex) && output == old(output)
    {
      if innerHeight + scrollY >= offsetHeight {
        DisplayWords();
      }
    }
  }
}
