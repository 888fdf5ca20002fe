/**
 * The rules of the memorize checkbox on the lookup page: membership of a
 * word in the memorized list, and the list after the box is checked or
 * unchecked.
 */
module Memorize {
  import opened Words

  /** `list.map(e => e.word)`. */
  function Keys(list: seq<WordRecord>): (ks: seq<string>)
    ensures |ks| == |list|
    ensures forall i :: 0 <= i < |list| ==> ks[i] == list[i].word
  {
    if list == [] then [] else [list[0].word] + Keys(list[1..])
  }

  /** `xs.indexOf(x)`: the first position of `x` in `xs`, or -1 when there is none. */
  function IndexOf(xs: seq<string>, x: string): (r: int)
    ensures -1 <= r < |xs|
    ensures r == -1 <==> x !in xs
    ensures r >= 0 ==> xs[r] == x && x !in xs[..r]
  {
    if xs == [] then -1
    else if xs[0] == x then 0
    else
      var k := IndexOf(xs[1..], x);
      if k == -1 then -1
      else
        assert xs[..k + 1] == [xs[0]] + xs[1..][..k];
        k + 1
  }

  /** `list.map(e => e.word).indexOf(w)`: the position of the first record with word `w`, or -1. */
  function WordIndex(list: seq<WordRecord>, w: string): (r: int)
    ensures r == -1 <==> !HasWord(list, w)
    ensures r != -1 ==> IsFirstMatch(list, w, r)
  {
    var ks := Keys(list);
    var r := IndexOf(ks, w);
    assert r != -1 ==> forall j :: 0 <= j < r ==> ks[j] == ks[..r][j];
    assert r == -1 ==> forall i :: 0 <= i < |list| ==> ks[i] in ks;
    r
  }

  /** The checkbox's initial state: `memorizedIndex > -1`. */
  function IsMemorized(list: seq<WordRecord>, w: string): (r: bool)
    ensures r <==> HasWord(list, w)
  {
    WordIndex(list, w) > -1
  }

  /** The list after the box is checked: the record is appended unless its word is already there. */
  function Check(list: seq<WordRecord>, record: WordRecord): (r: seq<WordRecord>)
    ensures HasWord(r, record.word)
    ensures |list| <= |r| <= |list| + 1 && r[..|list|] == list
  {
    if HasWord(list, record.word) then list
    else
      assert (list + [record])[|list|].word == record.word;
      list + [record]
  }

  /** The list after the box is unchecked: the first record with word `w` is dropped. */
  function Uncheck(list: seq<WordRecord>, w: string): (r: seq<WordRecord>)
    ensures |r| == if HasWord(list, w) then |list| - 1 else |list|
    ensures forall k :: 0 <= k < |r| ==> r[k] in list
  {
    if list == [] then []
    else if list[0].word == w then
      assert HasWord(list, w) by { assert list[0].word == w; }
      list[1..]
    else
      var rest := Uncheck(list[1..], w);
      assert HasWord(list, w) <==> HasWord(list[1..], w) by {
        forall i | 0 <= i < |list| - 1 ensures list[1..][i] == list[i + 1] { }
        if HasWord(list, w) {
          var i :| 0 <= i < |list| && list[i].word == w;
          assert list[1..][i - 1] == list[i];
        }
      }
      assert forall k :: 0 <= k < |rest| ==> rest[k] in list by {
        forall k | 0 <= k < |rest| ensures rest[k] in list {
          assert rest[k] in list[1..];
        }
      }
      [list[0]] + rest
  }

  /** Checking a word that is already memorized leaves the list as it was. */
  lemma CheckPresent(list: seq<WordRecord>, record: WordRecord)
    requires HasWord(list, record.word)
    ensures Check(list, record) == list
  {
  }

  /** Checking an absent word appends its record at the end and leaves the earlier records alone. */
  lemma CheckAbsent(list: seq<WordRecord>, record: WordRecord)
    requires !HasWord(list, record.word)
    ensures |Check(list, record)| == |list| + 1
    ensures Check(list, record)[..|list|] == list
    ensures Check(list, record)[|list|] == record
  {
  }

  /** Checking twice is the same as checking once. */
  lemma CheckIdempotent(list: seq<WordRecord>, record: WordRecord)
    ensures Check(Check(list, record), record) == Check(list, record)
  {
    if !HasWord(list, record.word) {
      var c := Check(list, record);
      assert c[|list|].word == record.word;
    }
  }

  /** Checking keeps a list free of duplicate words. */
  lemma CheckPreservesUnique(list: seq<WordRecord>, record: WordRecord)
    requires Unique(list)
    ensures Unique(Check(list, record))
  {
  }

  /** Unchecking an absent word leaves the list as it was. */
  lemma {:induction false} UncheckAbsent(list: seq<WordRecord>, w: string)
    requires !HasWord(list, w)
    ensures Uncheck(list, w) == list
  {
    if list != [] {
      assert list[0].word != w;
      assert !HasWord(list[1..], w) by {
        forall i | 0 <= i < |list| - 1 ensures list[1..][i].word != w {
          assert list[1..][i] == list[i + 1];
        }
      }
      UncheckAbsent(list[1..], w);
    }
  }

  /**
   * Unchecking removes exactly the record at the first position holding `w`
   * and keeps the others in their order (`splice(index, 1)`).
   */
  lemma {:induction false} UncheckRemovesFirst(list: seq<WordRecord>, w: string, i: int)
    requires IsFirstMatch(list, w, i)
    ensures Uncheck(list, w) == list[..i] + list[i + 1..]
  {
    if i > 0 {
      assert list[0].word != w;
      assert IsFirstMatch(list[1..], w, i - 1) by {
        forall j | 0 <= j < i - 1 ensures list[1..][j].word != w {
          assert list[1..][j] == list[j + 1];
        }
      }
      UncheckRemovesFirst(list[1..], w, i - 1);
      assert list[..i] == [list[0]] + list[1..][..i - 1];
      assert list[i + 1..] == list[1..][i..];
    }
  }

  /** After unchecking at the first match i, position k holds the record from position k or k + 1. */
  lemma UncheckPositions(list: seq<WordRecord>, w: string, i: int)
    requires IsFirstMatch(list, w, i)
    ensures |Uncheck(list, w)| == |list| - 1
    ensures forall k :: 0 <= k < |Uncheck(list, w)| ==>
      Uncheck(list, w)[k] == list[if k < i then k else k + 1]
  {
    UncheckRemovesFirst(list, w, i);
  }

  /** Unchecking keeps a list free of duplicate words, and the word is then no longer memorized. */
  lemma UncheckPreservesUnique(list: seq<WordRecord>, w: string)
    requires Unique(list)
    ensures Unique(Uncheck(list, w))
    ensures !HasWord(Uncheck(list, w), w)
  {
    if !HasWord(list, w) {
      UncheckAbsent(list, w);
    } else {
      var i := WordIndex(list, w);
      UncheckPositions(list, w, i);
      var u := Uncheck(list, w);
      forall a, b | 0 <= a < b < |u|
        ensures u[a].word != u[b].word
      {
        var a', b' := if a < i then a else a + 1, if b < i then b else b + 1;
        assert u[a] == list[a'] && u[b] == list[b'] && a' < b';
      }
      forall k | 0 <= k < |u|
        ensures u[k].word != w
      {
        var k' := if k < i then k else k + 1;
        assert u[k] == list[k'] && k' != i;
        assert k' < i || list[i].word != list[k'].word;
      }
    }
  }

  /** On a list without duplicate words, unchecking twice is the same as unchecking once. */
  lemma UncheckIdempotent(list: seq<WordRecord>, w: string)
    requires Unique(list)
    ensures Uncheck(Uncheck(list, w), w) == Uncheck(list, w)
  {
    UncheckPreservesUnique(list, w);
    UncheckAbsent(Uncheck(list, w), w);
  }

  /** Checking a word that was not memorized and then unchecking it restores the original list. */
  lemma {:induction false} CheckThenUncheck(list: seq<WordRecord>, record: WordRecord)
    requires !HasWord(list, record.word)
    ensures Uncheck(Check(list, record), record.word) == list
  {
    var c := Check(list, record);
    assert c == list + [record];
    assert IsFirstMatch(c, record.word, |list|);
    UncheckRemovesFirst(c, record.word, |list|);
    assert c[..|list|] == list;
  }
}
