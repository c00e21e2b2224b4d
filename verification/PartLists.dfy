/** The parts of a multipart upload: cutting a stream into chunks, numbering and sorting. */
module PartLists {

  type Bytes = seq<bv8>

  const MAX_PARTS: nat := 10000

  /** A completed part; a tag identifies the content the server stored. */
  datatype Part = Part(number: nat, tag: Bytes)

  function Insert(p: Part, list: seq<Part>): seq<Part> {
    if list == [] || list[|list| - 1].number <= p.number then list + [p]
    else Insert(p, list[..|list| - 1]) + [list[|list| - 1]]
  }

  /** The part list in the order of part numbers. */
  function SortParts(list: seq<Part>): seq<Part> {
    if list == [] then [] else Insert(list[|list| - 1], SortParts(list[..|list| - 1]))
  }

  /** A part list in ascending order of part numbers. */
  predicate Ascending(list: seq<Part>) {
    forall i, j :: 0 <= i < j < |list| ==> list[i].number < list[j].number
  }

  function Contents(list: seq<Part>): Bytes {
    if list == [] then [] else Contents(list[..|list| - 1]) + list[|list| - 1].tag
  }

  function Flat(chunks: seq<Bytes>): Bytes {
    if chunks == [] then [] else Flat(chunks[..|chunks| - 1]) + chunks[|chunks| - 1]
  }

  /** All chunks but the last are full. */
  predicate Sized(partSize: nat, chunks: seq<Bytes>) {
    && (forall i :: 0 <= i < |chunks| ==> 0 < |chunks[i]| <= partSize)
    && (forall i :: 0 <= i < |chunks| - 1 ==> |chunks[i]| == partSize)
  }

  predicate DistinctNumbers(list: seq<Part>) {
    forall i, j :: 0 <= i < j < |list| ==> list[i].number != list[j].number
  }

  /** Parts 1..n with their contents, in order. */
  function FullList(chunks: seq<Bytes>): seq<Part> {
    seq(|chunks|, i requires 0 <= i < |chunks| => Part(i + 1, chunks[i]))
  }

  lemma FlatAppend(chunks: seq<Bytes>, c: Bytes)
    ensures Flat(chunks + [c]) == Flat(chunks) + c
  {
    assert (chunks + [c])[..|chunks|] == chunks;
  }

  lemma {:induction false} AscendingFloor(list: seq<Part>, i: nat)
    requires Ascending(list) && i < |list| && forall p :: p in list ==> 1 <= p.number
    ensures i < list[i].number
  {
    if i > 0 {
      AscendingFloor(list, i - 1);
    } else {
      assert list[0] in list;
    }
  }

  predicate HasPart(list: seq<Part>, number: nat) {
    exists i :: 0 <= i < |list| && list[i].number == number
  }

  /** An ascending list with one entry for each of 1..n is 1..n in order. */
  lemma {:induction false} AscendingIsExact(list: seq<Part>, n: nat, i: nat)
    requires Ascending(list) && i < n
    requires forall p :: p in list ==> 1 <= p.number <= n
    requires forall k :: 1 <= k <= n ==> HasPart(list, k)
    ensures i < |list| && list[i].number == i + 1
  {
    assert HasPart(list, i + 1);
    var j :| 0 <= j < |list| && list[j].number == i + 1;
    AscendingFloor(list, j);
    if j >= i {
    } else {
      AscendingIsExact(list, n, j);
    }
  }

  lemma {:induction false} InsertElements(p: Part, list: seq<Part>)
    ensures multiset(Insert(p, list)) == multiset(list) + multiset{p}
  {
    if list == [] || list[|list| - 1].number <= p.number {
    } else {
      InsertElements(p, list[..|list| - 1]);
      assert list == list[..|list| - 1] + [list[|list| - 1]];
    }
  }

  lemma {:induction false} InsertAscends(p: Part, list: seq<Part>)
    requires Ascending(list) && forall i :: 0 <= i < |list| ==> list[i].number != p.number
    ensures Ascending(Insert(p, list))
    ensures Insert(p, list) != []
    ensures var last := Insert(p, list)[|Insert(p, list)| - 1];
            last == p || (list != [] && last == list[|list| - 1] && p.number < last.number)
  {
    if list == [] || list[|list| - 1].number <= p.number {
    } else {
      InsertAscends(p, list[..|list| - 1]);
    }
  }

  lemma {:induction false} SortElements(list: seq<Part>)
    ensures multiset(SortParts(list)) == multiset(list)
  {
    if list == [] {
    } else {
      var front, last := list[..|list| - 1], list[|list| - 1];
      SortElements(front);
      InsertElements(last, SortParts(front));
      assert list == front + [last];
    }
  }

  lemma {:induction false} SortAscends(list: seq<Part>)
    requires DistinctNumbers(list)
    ensures Ascending(SortParts(list))
  {
    if list == [] {
    } else {
      var front, last := list[..|list| - 1], list[|list| - 1];
      var sorted := SortParts(front);
      SortAscends(front);
      SortElements(front);
      forall i | 0 <= i < |sorted|
        ensures sorted[i].number != last.number
      {
        assert sorted[i] in multiset(sorted);
        assert sorted[i] in front;
      }
      InsertAscends(last, sorted);
    }
  }

  lemma NoExtraParts(list: seq<Part>, n: nat)
    requires Ascending(list) && forall p :: p in list ==> 1 <= p.number <= n
    ensures |list| <= n
  {
    if list != [] {
      AscendingFloor(list, |list| - 1);
      assert list[|list| - 1] in list;
    }
  }

  lemma {:induction false} FullContents(chunks: seq<Bytes>)
    ensures Contents(FullList(chunks)) == Flat(chunks)
  {
    if chunks == [] {
    } else {
      var n := |chunks| - 1;
      assert FullList(chunks)[..n] == FullList(chunks[..n]);
      FullContents(chunks[..n]);
    }
  }

  /** Entries in any order, one for each chunk, sort to the chunks in order. */
  lemma SortedIsFull(listed: seq<Part>, chunks: seq<Bytes>)
    requires DistinctNumbers(listed)
    requires forall p :: p in listed ==> 1 <= p.number <= |chunks| && p.tag == chunks[p.number - 1]
    requires forall k :: 1 <= k <= |chunks| ==> HasPart(listed, k)
    ensures SortParts(listed) == FullList(chunks)
  {
    hide Ascending, SortParts, DistinctNumbers;
    SortElements(listed);
    SortAscends(listed);
    var list, n := SortParts(listed), |chunks|;
    SameParts(listed, list, n);
    hide HasPart;
    forall i: nat | i < n
      ensures i < |list| && list[i] == Part(i + 1, chunks[i])
    {
      AscendingIsExact(list, n, i);
      assert list[i] in list;
    }
    NoExtraParts(list, n);
    if n > 0 {
      AscendingIsExact(list, n, n - 1);
    }
  }

  lemma SameParts(listed: seq<Part>, list: seq<Part>, n: nat)
    requires multiset(list) == multiset(listed) && forall k :: 1 <= k <= n ==> HasPart(listed, k)
    ensures forall p :: p in list <==> p in listed
    ensures forall k :: 1 <= k <= n ==> HasPart(list, k)
  {
    forall p
      ensures p in list <==> p in listed
    {
      assert p in multiset(list) <==> p in multiset(listed);
    }
    forall k | 1 <= k <= n
      ensures HasPart(list, k)
    {
      assert HasPart(listed, k);
      var j :| 0 <= j < |listed| && listed[j].number == k;
      assert listed[j] in list;
      var i :| 0 <= i < |list| && list[i] == listed[j];
      assert list[i].number == k;
    }
  }
}
