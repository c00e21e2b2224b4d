/** The multipart uploader as code: real buffers from a pool, a bounded number of part jobs,
    an in-place sort, and the calls that finish or abort the upload. Jobs finish in any order
    at the points where the caller waits; Multipart has every finer interleaving. */
module Uploader {
  import opened Wrappers
  import opened PartLists
  import opened Multipart

  datatype Fault = PartFailed | DumpFailed | TooManyParts | Canceled | CallFailed

  // ------------------------------------------------------------ the reader

  datatype ReadOutcome = Full | Partial | Eof | Broken

  /** The reading end of the pipe: what the writer will still hand over, and whether it then
      closes cleanly. */
  class Body {
    var rest: Bytes
    var clean: bool

    constructor (content: Bytes, clean: bool)
      ensures rest == content && this.clean == clean
    {
      rest := content;
      this.clean := clean;
    }

    /** One read: at least a byte, or the end. */
    method Read(buf: array<bv8>, from: nat) returns (n: nat)
      requires from < buf.Length
      modifies this`rest, buf
      ensures from + n <= buf.Length && n <= |old(rest)| && rest == old(rest)[n..]
      ensures n == 0 <==> old(rest) == []
      ensures buf[..from] == old(buf[..from]) && buf[from..from + n] == old(rest)[..n]
    {
      n := 0;
      var stop: bool := *;
      while rest != [] && from + n < buf.Length && (n == 0 || !stop)
        invariant from + n <= buf.Length && n <= |old(rest)| && rest == old(rest)[n..]
        invariant buf[..from] == old(buf[..from])
        invariant forall k :: 0 <= k < n ==> buf[from + k] == old(rest)[k]
        decreases |rest|
      {
        buf[from + n] := rest[0];
        rest := rest[1..];
        n := n + 1;
        stop := *;
      }
    }

    /** io.ReadFull. */
    method ReadFull(buf: array<bv8>) returns (n: nat, outcome: ReadOutcome)
      requires buf.Length > 0
      modifies this`rest, buf
      ensures n <= buf.Length && n <= |old(rest)| && rest == old(rest)[n..]
      ensures buf[..n] == old(rest)[..n]
      ensures outcome.Full? <==> n == buf.Length
      ensures n < buf.Length ==>
          rest == [] && (if !clean then outcome.Broken? else if n == 0 then outcome.Eof? else outcome.Partial?)
    {
      n := 0;
      while n < buf.Length
        invariant n <= buf.Length && n <= |old(rest)| && rest == old(rest)[n..] && buf[..n] == old(rest)[..n]
        decreases |rest|
      {
        var k := Read(buf, n);
        if k == 0 {
          return n, if !clean then Broken else if n == 0 then Eof else Partial;
        }
        assert buf[..n + k] == buf[..n] + buf[n..n + k];
        n := n + k;
      }
      return n, Full;
    }
  }

  // ----------------------------------------------------------- cancellation

  /** The context of a run: whoever started it may cancel it at any time, for good. */
  class Context {
    var done: bool

    constructor ()
      ensures !done
    {
      done := false;
    }

    /** Time passes. */
    method Pass()
      modifies this
      ensures old(done) ==> done
    {
      var cancel: bool := *;
      done := done || cancel;
    }
  }

  // ------------------------------------------------------------ the server

  /** The server's side of one upload, and of the two keys of one backup. Any call may fail
      whether or not it took effect. */
  class PartServer {
    var open: bool
    var stored: map<nat, Bytes>
    var content: Option<Bytes>
    var manifest: Option<Record>
    /** HEAD denied an object that exists. */
    ghost var missed: bool
    /** How many calls have failed, whether the upload was created, and how often an abort was
        attempted. */
    ghost var faults: nat
    ghost var created: bool
    ghost var aborts: nat

    constructor ()
      ensures !open && stored == map[] && content == None && manifest == None && !missed
    {
      open, stored, content, manifest, missed := false, map[], None, None, false;
      faults, created, aborts := 0, false, 0;
    }

    ghost method Fault(failed: bool)
      modifies this`faults
      ensures faults == old(faults) + if failed then 1 else 0
    {
      faults := faults + if failed then 1 else 0;
    }

    method Create() returns (ok: bool)
      modifies this`open, this`stored, this`created, this`faults
      ensures stored == map[] && created == ok && (ok ==> open)
      ensures faults == old(faults) + if ok then 0 else 1
    {
      open, ok := *, *;
      stored := map[];
      ok := ok && open;
      created := ok;
      Fault(!ok);
    }

    method UploadPart(number: nat, data: Bytes) returns (tag: Option<Bytes>)
      modifies this`stored, this`faults
      ensures stored == old(stored) || stored == old(stored)[number := data]
      ensures faults == old(faults) + if tag.Some? then 0 else 1
      ensures tag.Some? ==> tag.value == data && stored == old(stored)[number := data]
    {
      var effect: bool, reply: bool := *, *;
      if effect {
        stored := stored[number := data];
      }
      Fault(!(effect && reply));
      return if effect && reply then Some(data) else None;
    }

    /** The server completes a non-empty ascending list of parts it holds. */
    predicate Acceptable(list: seq<Part>)
      reads this
    {
      && open && list != [] && Ascending(list)
      && forall i :: 0 <= i < |list| ==> list[i].number in stored && stored[list[i].number] == list[i].tag
    }

    method Complete(list: seq<Part>) returns (ok: bool)
      modifies this`open, this`content, this`faults
      ensures faults == old(faults) + if !ok && old(Acceptable(list)) then 1 else 0
      ensures (content == old(content) && open == old(open) && !ok)
           || (!open && content == Some(Contents(list)) && list != [])
      ensures ok ==> content.Some?
    {
      var effect: bool, reply: bool := *, *;
      ok := false;
      ghost var acceptable := Acceptable(list);
      if effect && Acceptable(list) {
        open, content := false, Some(Contents(list));
        ok := reply;
      }
      Fault(!ok && acceptable);
    }

    method Head() returns (found: bool)
      modifies this`missed
      ensures found ==> content.Some?
      ensures missed == (old(missed) || (!found && content.Some?))
    {
      var reply: bool := *;
      found := reply && content.Some?;
      missed := missed || (!found && content.Some?);
    }

    method AbortUpload()
      modifies this`open, this`aborts
      ensures open ==> old(open)
      ensures aborts == old(aborts) + 1
    {
      aborts := aborts + 1;
      var effect: bool := *;
      if effect {
        open := false;
      }
    }

    /** True only for the reply that there is no such upload. */
    method NoSuchUpload() returns (gone: bool)
      ensures gone ==> !open
    {
      var reply: bool := *;
      gone := reply && !open;
    }

    method PutManifest(record: Record) returns (ok: bool)
      modifies this`manifest, this`faults
      ensures faults == old(faults) + if ok then 0 else 1
      ensures manifest == old(manifest) || manifest == Some(record)
      ensures ok ==> manifest == Some(record)
    {
      var effect: bool, reply: bool := *, *;
      if effect {
        manifest := Some(record);
      }
      ok := effect && reply;
      Fault(!ok);
    }
  }

  // -------------------------------------------------------------- sorting

  lemma {:induction false} InsertAt(p: Part, list: seq<Part>, j: nat)
    requires j <= |list| && (j > 0 ==> list[j - 1].number <= p.number)
    requires forall k :: j <= k < |list| ==> list[k].number > p.number
    ensures Insert(p, list) == list[..j] + [p] + list[j..]
  {
    if j < |list| {
      var n := |list| - 1;
      var front := list[..n];
      InsertAt(p, front, j);
      assert front[..j] == list[..j];
      assert list[j..] == front[j..] + [list[n]];
      assert list[..j] + [p] + list[j..] == (front[..j] + [p] + front[j..]) + [list[n]];
    } else {
      assert list[..j] + [p] + list[j..] == list + [p];
    }
  }

  /** The sequence with the element at i moved back to j. */
  ghost function MovedBack(s: seq<Part>, i: nat, j: nat): seq<Part>
    requires j <= i < |s|
  {
    s[..j] + [s[i]] + s[j..i] + s[i + 1..]
  }

  lemma MoveOne(s: seq<Part>, i: nat, j: nat)
    requires 0 < j <= i < |s|
    ensures var t := MovedBack(s, i, j); t[j] == s[i] && t[j - 1] == s[j - 1]
    ensures var t := MovedBack(s, i, j); MovedBack(s, i, j - 1) == t[j := t[j - 1]][j - 1 := t[j]]
  {
    assert s[j - 1..i] == [s[j - 1]] + s[j..i];
    assert s[..j] == s[..j - 1] + [s[j - 1]];
  }

  lemma MovedIsInserted(s: seq<Part>, i: nat, j: nat)
    requires j <= i < |s| && (j > 0 ==> s[j - 1].number <= s[i].number)
    requires forall k :: j <= k < i ==> s[k].number > s[i].number
    ensures MovedBack(s, i, j) == Insert(s[i], s[..i]) + s[i + 1..]
  {
    InsertAt(s[i], s[..i], j);
    assert s[..i][..j] == s[..j] && s[..i][j..] == s[j..i];
  }

  /** Moves element i left past every larger number. */
  method InsertLast(a: array<Part>, i: nat)
    requires i < a.Length
    modifies a
    ensures var was := old(a[..]); a[..] == Insert(was[i], was[..i]) + was[i + 1..]
  {
    hide Insert, MovedBack;
    ghost var was := a[..];
    var j := i;
    assert MovedBack(was, i, i) == was by { NotMoved(was, i); }
    while 0 < j && a[j - 1].number > a[j].number
      invariant 0 <= j <= i && a[..] == MovedBack(was, i, j)
      invariant j > 0 ==> a[j] == was[i] && a[j - 1] == was[j - 1]
      invariant forall k :: j <= k < i ==> was[k].number > was[i].number
    {
      MoveOne(was, i, j);
      a[j], a[j - 1] := a[j - 1], a[j];
      j := j - 1;
      if j > 0 {
        MoveOne(was, i, j);
      }
    }
    MovedIsInserted(was, i, j);
  }

  lemma NotMoved(s: seq<Part>, i: nat)
    requires i < |s|
    ensures MovedBack(s, i, i) == s
  {
  }

  /** sort.Slice by part number, in place. */
  method SortByNumber(a: array<Part>)
    modifies a
    ensures a[..] == SortParts(old(a[..]))
  {
    hide Insert, SortParts;
    ghost var was := a[..];
    SortedStart(was);
    for i := 0 to a.Length
      invariant |SortParts(was[..i])| == i && a[..] == SortParts(was[..i]) + was[i..]
    {
      SortedStep(was, i, a[..]);
      InsertLast(a, i);
    }
    assert was[..a.Length] == was;
  }

  method SortedCopy(s: seq<Part>) returns (r: seq<Part>)
    ensures r == SortParts(s)
  {
    var a := new Part[|s|](i requires 0 <= i < |s| => s[i]);
    assert a[..] == s;
    SortByNumber(a);
    r := a[..];
  }

  lemma SortedStart(s: seq<Part>)
    ensures SortParts(s[..0]) == [] && s[0..] == s
  {
  }

  lemma SortedStep(s: seq<Part>, i: nat, now: seq<Part>)
    requires i < |s| && |SortParts(s[..i])| == i && now == SortParts(s[..i]) + s[i..]
    ensures |SortParts(s[..i + 1])| == i + 1
    ensures Insert(now[i], now[..i]) + now[i + 1..] == SortParts(s[..i + 1]) + s[i + 1..]
  {
    hide Insert, SortParts;
    SortUnfold(s, i);
    Splits(SortParts(s[..i]), s[i..]);
    assert s[i..][1..] == s[i + 1..];
    InsertLength(s[i], SortParts(s[..i]));
  }

  lemma SortUnfold(s: seq<Part>, i: nat)
    requires i < |s|
    ensures SortParts(s[..i + 1]) == Insert(s[i], SortParts(s[..i]))
  {
    assert s[..i + 1][..i] == s[..i];
  }

  lemma Splits(x: seq<Part>, y: seq<Part>)
    requires y != []
    ensures var s := x + y; s[..|x|] == x && s[|x|] == y[0] && s[|x| + 1..] == y[1..]
  {
  }

  lemma {:induction false} InsertLength(p: Part, list: seq<Part>)
    ensures |Insert(p, list)| == |list| + 1
  {
    if list == [] || list[|list| - 1].number <= p.number {
    } else {
      InsertLength(p, list[..|list| - 1]);
    }
  }

  // -------------------------------------------------------------- the jobs

  /** A part in flight: the first n bytes of a buffer from the pool. */
  datatype Job = Job(number: nat, buf: array<bv8>, n: nat)

  predicate HasJob(jobs: seq<Job>, number: nat) {
    exists i :: 0 <= i < |jobs| && jobs[i].number == number
  }

  predicate DistinctJobs(jobs: seq<Job>) {
    forall i, j :: 0 <= i < j < |jobs| ==> jobs[i].number != jobs[j].number
  }

  /** Every chunk is in flight or listed, once, unless some part failed; what is listed or
      stored is its chunk. */
  ghost predicate Accounted(jobs: seq<Job>, parts: seq<Part>, stored: map<nat, Bytes>, failed: bool,
                            chunks: seq<Bytes>) {
    && DistinctJobs(jobs) && DistinctNumbers(parts)
    && (forall i :: 0 <= i < |jobs| ==> 1 <= jobs[i].number <= |chunks|)
    && (forall p :: p in parts ==> 1 <= p.number <= |chunks| && p.tag == chunks[p.number - 1]
                                   && !HasJob(jobs, p.number))
    && (forall p :: p in parts ==> p.number in stored && stored[p.number] == p.tag)
    && (!failed ==> forall k :: 1 <= k <= |chunks| ==> HasPart(parts, k) || HasJob(jobs, k))
  }

  function Removed(jobs: seq<Job>, i: nat): seq<Job>
    requires i < |jobs|
  {
    jobs[..i] + jobs[i + 1..]
  }

  lemma RemovedJobs(jobs: seq<Job>, i: nat)
    requires i < |jobs| && DistinctJobs(jobs)
    ensures DistinctJobs(Removed(jobs, i))
    ensures forall k :: HasJob(Removed(jobs, i), k) <==> HasJob(jobs, k) && k != jobs[i].number
  {
    var rest := Removed(jobs, i);
    forall k
      ensures HasJob(rest, k) <==> HasJob(jobs, k) && k != jobs[i].number
    {
      if HasJob(rest, k) {
        var j :| 0 <= j < |rest| && rest[j].number == k;
        assert rest[j] == jobs[if j < i then j else j + 1];
      }
      if HasJob(jobs, k) && k != jobs[i].number {
        var j :| 0 <= j < |jobs| && jobs[j].number == k;
        assert rest[if j < i then j else j - 1] == jobs[j];
      }
    }
  }

  /** A job ends: its part is listed, or the group has failed. */
  lemma JobEnds(jobs: seq<Job>, i: nat, parts: seq<Part>, parts': seq<Part>, stored: map<nat, Bytes>,
                stored': map<nat, Bytes>,
                failed: bool, failed': bool, chunks: seq<Bytes>)
    requires i < |jobs| && Accounted(jobs, parts, stored, failed, chunks)
    requires var x := jobs[i].number; var chunk := chunks[x - 1];
             && (stored' == stored || stored' == stored[x := chunk])
             && (failed ==> failed')
             && (if parts' == parts then failed'
                 else parts' == parts + [Part(x, chunk)] && x in stored' && stored'[x] == chunk)
    ensures Accounted(Removed(jobs, i), parts', stored', failed', chunks)
  {
    hide HasJob, HasPart;
    RemovedJobs(jobs, i);
    var x := jobs[i].number;
    JobNumber(jobs, i);
    forall p | p in parts
      ensures p.number != x
    {
      assert !HasJob(jobs, p.number);
    }
    if parts' != parts {
      var p := Part(x, chunks[x - 1]);
      forall k
        ensures HasPart(parts', k) <==> HasPart(parts, k) || k == x
      {
        HasPartAppend(parts, p, k);
      }
    }
  }

  lemma JobNumber(jobs: seq<Job>, i: nat)
    requires i < |jobs|
    ensures HasJob(jobs, jobs[i].number)
  {
  }

  lemma HasPartAppend(parts: seq<Part>, p: Part, k: nat)
    ensures HasPart(parts + [p], k) <==> HasPart(parts, k) || k == p.number
  {
    if HasPart(parts, k) {
      var i :| 0 <= i < |parts| && parts[i].number == k;
      assert (parts + [p])[i].number == k;
    }
    assert (parts + [p])[|parts|] == p;
  }

  lemma HasJobAppend(jobs: seq<Job>, x: Job, k: nat)
    ensures HasJob(jobs + [x], k) <==> HasJob(jobs, k) || k == x.number
  {
    if HasJob(jobs, k) {
      var i :| 0 <= i < |jobs| && jobs[i].number == k;
      assert (jobs + [x])[i].number == k;
    }
    assert (jobs + [x])[|jobs|] == x;
  }

  /** A new chunk gets the next number and a job of its own. */
  lemma JobStarts(jobs: seq<Job>, x: Job, parts: seq<Part>, stored: map<nat, Bytes>, failed: bool,
                  chunks: seq<Bytes>, chunk: Bytes)
    requires Accounted(jobs, parts, stored, failed, chunks) && x.number == |chunks| + 1
    ensures Accounted(jobs + [x], parts, stored, failed, chunks + [chunk])
  {
    hide HasJob, HasPart;
    forall k
      ensures HasJob(jobs + [x], k) <==> HasJob(jobs, k) || k == x.number
    {
      HasJobAppend(jobs, x, k);
    }
  }

  function TagBytes(parts: seq<Part>): nat {
    if parts == [] then 0 else TagBytes(parts[..|parts| - 1]) + |parts[|parts| - 1].tag|
  }

  lemma TagBytesAppend(parts: seq<Part>, p: Part)
    ensures TagBytes(parts + [p]) == TagBytes(parts) + |p.tag|
  {
    assert (parts + [p])[..|parts|] == parts;
  }

  lemma {:induction false} TagBytesInsert(p: Part, parts: seq<Part>)
    ensures TagBytes(Insert(p, parts)) == TagBytes(parts) + |p.tag|
  {
    if parts == [] || parts[|parts| - 1].number <= p.number {
      TagBytesAppend(parts, p);
    } else {
      TagBytesInsert(p, parts[..|parts| - 1]);
      TagBytesAppend(Insert(p, parts[..|parts| - 1]), parts[|parts| - 1]);
    }
  }

  /** The size of the parts does not depend on their order. */
  lemma {:induction false} TagBytesSorted(parts: seq<Part>)
    ensures TagBytes(SortParts(parts)) == TagBytes(parts)
  {
    if parts == [] {
    } else {
      TagBytesSorted(parts[..|parts| - 1]);
      TagBytesInsert(parts[|parts| - 1], SortParts(parts[..|parts| - 1]));
    }
  }

  lemma {:induction false} TagBytesFull(chunks: seq<Bytes>)
    ensures TagBytes(FullList(chunks)) == |Flat(chunks)|
  {
    if chunks == [] {
    } else {
      var n := |chunks| - 1;
      assert FullList(chunks)[..n] == FullList(chunks[..n]);
      TagBytesFull(chunks[..n]);
    }
  }

  /** Buffers have one owner each. */
  ghost predicate Owned(partSize: nat, jobs: seq<Job>, pool: seq<array<bv8>>) {
    && partSize > 0
    && (forall x :: x in jobs ==> x.buf.Length == partSize && 0 < x.n <= partSize)
    && (forall b :: b in pool ==> b.Length == partSize)
    && (forall i, j :: 0 <= i < j < |jobs| ==> jobs[i].buf != jobs[j].buf)
    && (forall i, j :: 0 <= i < j < |pool| ==> pool[i] != pool[j])
    && (forall x, b :: x in jobs && b in pool ==> x.buf != b)
  }

  ghost function Buffers(jobs: seq<Job>, pool: seq<array<bv8>>): set<array<bv8>> {
    (set x | x in jobs :: x.buf) + (set b | b in pool)
  }

  /** The buffer of a part in flight still holds its chunk. */
  ghost predicate Loaded(jobs: seq<Job>, chunks: seq<Bytes>)
    reads set x | x in jobs :: x.buf
  {
    forall x :: x in jobs ==>
      1 <= x.number <= |chunks| && x.n <= x.buf.Length && x.buf[..x.n] == chunks[x.number - 1]
  }

  lemma RemovedElements(jobs: seq<Job>, i: nat)
    requires i < |jobs|
    ensures forall x :: x in Removed(jobs, i) ==> x in jobs
    ensures forall x :: x in jobs ==> x in Removed(jobs, i) || x == jobs[i]
    ensures forall j :: 0 <= j < |jobs| - 1 ==> Removed(jobs, i)[j] == jobs[if j < i then j else j + 1]
  {
    forall x | x in jobs
      ensures x in Removed(jobs, i) || x == jobs[i]
    {
      var j :| 0 <= j < |jobs| && jobs[j] == x;
      if j < i {
        assert Removed(jobs, i)[j] == x;
      } else if j > i {
        assert Removed(jobs, i)[j - 1] == x;
      }
    }
  }

  lemma OwnedAfter(partSize: nat, jobs: seq<Job>, pool: seq<array<bv8>>, i: nat)
    requires i < |jobs| && Owned(partSize, jobs, pool)
    ensures Owned(partSize, Removed(jobs, i), pool + [jobs[i].buf])
    ensures Buffers(Removed(jobs, i), pool + [jobs[i].buf]) == Buffers(jobs, pool)
  {
    hide Removed;
    RemovedElements(jobs, i);
    var rest := Removed(jobs, i);
    assert |rest| == |jobs| - 1 by { RemovedLength(jobs, i); }
    forall x | x in rest
      ensures x.buf != jobs[i].buf
    {
      var j :| 0 <= j < |rest| && rest[j] == x;
      assert x == jobs[if j < i then j else j + 1];
    }
    forall j, k | 0 <= j < k < |rest|
      ensures rest[j].buf != rest[k].buf
    {
      assert rest[j] == jobs[if j < i then j else j + 1] && rest[k] == jobs[if k < i then k else k + 1];
    }
    forall b | b in pool
      ensures b != jobs[i].buf
    {
      assert jobs[i] in jobs;
    }
    assert jobs[i] in jobs;
    assert pool + [jobs[i].buf] != [] && (pool + [jobs[i].buf])[|pool|] == jobs[i].buf;
    assert (set b | b in pool + [jobs[i].buf]) == (set b | b in pool) + {jobs[i].buf};
    assert (set x | x in jobs :: x.buf) == (set x | x in rest :: x.buf) + {jobs[i].buf};
  }

  lemma RemovedIs(jobs: seq<Job>, i: nat)
    requires i < |jobs|
    ensures jobs[..i] + jobs[i + 1..] == Removed(jobs, i)
  {
  }

  lemma LoadedAfter(jobs: seq<Job>, i: nat, chunks: seq<Bytes>)
    requires i < |jobs| && Loaded(jobs, chunks)
    ensures Loaded(Removed(jobs, i), chunks)
  {
    RemovedElements(jobs, i);
  }

  lemma RemovedLength(jobs: seq<Job>, i: nat)
    requires i < |jobs|
    ensures |Removed(jobs, i)| == |jobs| - 1
  {
  }

  /** What one streamParts shares with its jobs: the semaphore, the buffer pool, the jobs in
      flight, the part list, the progress counter and the error group. */
  class PartJobs {
    const partSize: nat
    const slots: nat
    const server: PartServer
    const run: Context
    var sem: nat
    var pool: seq<array<bv8>>
    var jobs: seq<Job>
    var parts: seq<Part>
    var uploaded: nat
    var failed: bool
    var cancelled: bool
    /** The failed calls there were before. */
    ghost const before: nat

    constructor (server: PartServer, run: Context, partSize: nat, slots: nat)
      requires partSize > 0 && slots > 0 && server.stored == map[]
      ensures before == server.faults && Tallied()
      ensures Valid([]) && this.server == server && this.run == run && this.partSize == partSize && this.slots == slots
      ensures sem == 0 && jobs == [] && pool == [] && uploaded == 0
    {
      this.server, this.run, this.partSize, this.slots := server, run, partSize, slots;
      sem, pool, jobs, parts, uploaded, failed, cancelled := 0, [], [], [], 0, false, run.done;
      before := server.faults;
    }

    ghost predicate Valid(chunks: seq<Bytes>)
      reads this, server, run, set x | x in jobs :: x.buf
    {
      && slots > 0 && Owned(partSize, jobs, pool) && Loaded(jobs, chunks)
      && Accounted(jobs, parts, server.stored, failed, chunks)
      && uploaded == TagBytes(parts)
      && Tallied()
    }

    /** The group has failed exactly if some call has, and is cancelled for that or from
        outside. */
    ghost predicate Tallied()
      reads this, server, run
    {
      && before <= server.faults && (failed <==> before < server.faults)
      && (cancelled <==> failed || run.done)
    }

    /** Sends a part; the part is counted and listed, or the group fails. */
    method UploadOne(number: nat, chunk: Bytes)
      modifies this`uploaded, this`parts, this`failed, this`cancelled, server`stored, server`faults
      ensures server.faults == old(server.faults) + if parts == old(parts) then 1 else 0
      ensures server.stored == old(server.stored) || server.stored == old(server.stored)[number := chunk]
      ensures if parts == old(parts) then failed && cancelled && uploaded == old(uploaded)
              else parts == old(parts) + [Part(number, chunk)] && uploaded == old(uploaded) + |chunk|
                   && number in server.stored && server.stored[number] == chunk
      ensures parts != old(parts) ==> failed == old(failed) && cancelled == old(cancelled)
    {
      var tag := server.UploadPart(number, chunk);
      if tag.Some? {
        uploaded := uploaded + |chunk|;
        parts := parts + [Part(number, tag.value)];
      } else {
        failed, cancelled := true, true;
      }
    }

    /** The job at i uploads its part, and gives back its buffer and its slot. */
    method RunJob(i: nat, ghost chunks: seq<Bytes>)
      requires i < |jobs| && Valid(chunks) && sem > 0
      modifies this, server`stored, server`faults
      ensures Valid(chunks) && sem == old(sem) - 1
      ensures jobs == Removed(old(jobs), i) && Buffers(jobs, pool) == old(Buffers(jobs, pool))
      ensures old(cancelled) ==> cancelled
      ensures Tallied() && old(server.faults) <= server.faults
    {
      hide Accounted, HasJob, HasPart, TagBytes, Owned, Buffers, Removed;
      var x := jobs[i];
      var chunk := x.buf[..x.n];
      assert chunk == chunks[x.number - 1];
      OwnedAfter(partSize, jobs, pool, i);
      LoadedAfter(jobs, i, chunks);
      RemovedIs(jobs, i);
      TagBytesAppend(parts, Part(x.number, chunk));
      UploadOne(x.number, chunk);
      JobEnds(jobs, i, old(parts), parts, old(server.stored), server.stored, old(failed), failed, chunks);
      pool := pool + [x.buf];
      jobs := jobs[..i] + jobs[i + 1..];
      sem := sem - 1;
    }

    lemma ValidIsTallied(chunks: seq<Bytes>)
      requires Valid(chunks)
      ensures Tallied()
    {
    }

    /** Meanwhile some jobs may finish, and the run may be cancelled. */
    method RunSome(ghost chunks: seq<Bytes>)
      requires Valid(chunks) && sem >= |jobs|
      modifies this, run, server`stored, server`faults
      ensures Valid(chunks) && |jobs| <= |old(jobs)| && sem - |jobs| == old(sem) - |old(jobs)|
      ensures Buffers(jobs, pool) == old(Buffers(jobs, pool))
      ensures Tallied() && (old(run.done) ==> run.done)
    {
      hide Valid, Buffers;
      ValidIsTallied(chunks);
      var more: bool := *;
      while jobs != [] && more
        invariant Valid(chunks) && |jobs| <= |old(jobs)| && sem - |jobs| == old(sem) - |old(jobs)|
        invariant Buffers(jobs, pool) == old(Buffers(jobs, pool)) && Tallied()
        invariant run.done == old(run.done)
        decreases |jobs|
      {
        var i: nat :| i < |jobs|;
        RemovedLength(jobs, i);
        RunJob(i, chunks);
        more := *;
      }
      TimePasses(chunks);
    }

    /** The group is cancelled with the run. */
    method TimePasses(ghost chunks: seq<Bytes>)
      requires Valid(chunks)
      modifies this`cancelled, run
      ensures Valid(chunks) && Tallied() && (old(run.done) ==> run.done)
    {
      hide Owned, Accounted, TagBytes;
      run.Pass();
      cancelled := cancelled || run.done;
    }

    /** Waits for a slot, unless the run is cancelled. */
    method Acquire(ghost chunks: seq<Bytes>) returns (ok: bool)
      requires Valid(chunks) && sem == |jobs| <= slots
      modifies this, run, server`stored, server`faults
      ensures Valid(chunks) && |jobs| <= slots && sem == |jobs| + (if ok then 1 else 0) <= slots
      ensures Tallied() && (!ok ==> before < server.faults || run.done) && (old(run.done) ==> run.done)
      ensures Buffers(jobs, pool) == old(Buffers(jobs, pool))
    {
      hide Buffers, Owned, Accounted, TagBytes;
      RunSome(chunks);
      while sem == slots && !cancelled
        invariant Valid(chunks) && sem == |jobs| <= slots
        invariant Buffers(jobs, pool) == old(Buffers(jobs, pool)) && (old(run.done) ==> run.done)
        decreases |jobs|
      {
        var i: nat :| i < |jobs|;
        RemovedLength(jobs, i);
        RunJob(i, chunks);
      }
      var prefer: bool := *;
      if sem == slots || (cancelled && prefer) {
        return false;
      }
      sem := sem + 1;
      return true;
    }

    /** A buffer no job holds: one from the pool, or a new one. */
    method TakeBuffer(ghost chunks: seq<Bytes>) returns (buf: array<bv8>)
      requires Valid(chunks)
      modifies this`pool
      ensures Valid(chunks) && buf.Length == partSize && buf !in Buffers(jobs, pool)
      ensures Buffers(jobs, pool) <= old(Buffers(jobs, pool))
      ensures fresh(buf) || buf in old(Buffers(jobs, pool))
    {
      hide Accounted, TagBytes;
      if pool != [] {
        ghost var was := pool;
        buf := pool[|pool| - 1];
        assert buf in was;
        pool := pool[..|pool| - 1];
        forall b | b in pool
          ensures b in was && b != buf
        {
          var j :| 0 <= j < |pool| && pool[j] == b;
          assert was[j] == b;
        }
      } else {
        buf := new bv8[partSize];
      }
    }

    /** A slot and a buffer, while jobs run; nothing if the run is cancelled first. */
    method Obtain(ghost chunks: seq<Bytes>) returns (got: Option<array<bv8>>)
      requires Valid(chunks) && sem == |jobs| <= slots
      modifies this, run, server`stored, server`faults
      ensures Valid(chunks) && |jobs| <= slots && sem == |jobs| + (if got.Some? then 1 else 0) <= slots
      ensures Tallied() && (got.None? ==> before < server.faults || run.done) && (old(run.done) ==> run.done)
      ensures got.Some? ==> got.value.Length == partSize && got.value !in Buffers(jobs, pool)
                            && (fresh(got.value) || got.value in old(Buffers(jobs, pool)))
      ensures forall b :: b in Buffers(jobs, pool) ==> b in old(Buffers(jobs, pool)) || fresh(b)
    {
      hide Valid, Buffers;
      var acquired := Acquire(chunks);
      if !acquired {
        return None;
      }
      var buf := TakeBuffer(chunks);
      RunSome(chunks);
      var cut: bool := *;
      if cancelled && cut {
        assert Tallied();
        PutBack(buf, chunks);
        return None;
      }
      return Some(buf);
    }

    /** Reads the next chunk into a buffer no job holds. */
    method Fill(body: Body, buf: array<bv8>, ghost chunks: seq<Bytes>) returns (n: nat, outcome: ReadOutcome)
      requires Valid(chunks) && buf.Length == partSize && buf !in Buffers(jobs, pool)
      modifies body`rest, buf
      ensures Valid(chunks)
      ensures n <= partSize && n <= |old(body.rest)|
      ensures body.rest == old(body.rest)[n..] && buf[..n] == old(body.rest)[..n]
      ensures outcome.Full? <==> n == partSize
      ensures n < partSize ==> body.rest == []
      ensures n < partSize ==>
          if !body.clean then outcome.Broken? else if n == 0 then outcome.Eof? else outcome.Partial?
    {
      hide Accounted, TagBytes;
      assert forall x :: x in jobs ==> x.buf != buf;
      n, outcome := body.ReadFull(buf);
    }

    /** An unused buffer and its slot go back. */
    method PutBack(buf: array<bv8>, ghost chunks: seq<Bytes>)
      requires Valid(chunks) && sem > 0 && buf.Length == partSize && buf !in Buffers(jobs, pool)
      modifies this`pool, this`sem
      ensures Valid(chunks) && Tallied() && sem == old(sem) - 1
      ensures Buffers(jobs, pool) == old(Buffers(jobs, pool)) + {buf}
    {
      hide Accounted, TagBytes;
      pool := pool + [buf];
      sem := sem - 1;
      assert pool[|pool| - 1] == buf;
    }

    /** The next chunk, in the first n bytes of buf, gets a job. */
    method Go(number: nat, buf: array<bv8>, n: nat, ghost chunks: seq<Bytes>)
      requires Valid(chunks) && number == |chunks| + 1 && 0 < n <= buf.Length == partSize && buf !in Buffers(jobs, pool)
      modifies this`jobs
      ensures Valid(chunks + [buf[..n]]) && Tallied() && |jobs| == |old(jobs)| + 1
      ensures Buffers(jobs, pool) == old(Buffers(jobs, pool)) + {buf}
    {
      hide Accounted, TagBytes;
      var x := Job(number, buf, n);
      JobStarts(jobs, x, parts, server.stored, failed, chunks, buf[..n]);
      jobs := jobs + [x];
      assert jobs[|jobs| - 1] == x;
    }

    /** g.Wait: every job has finished. */
    method Wait(ghost chunks: seq<Bytes>)
      requires Valid(chunks) && sem == |jobs|
      modifies this, server`stored, server`faults
      ensures jobs == [] && sem == 0 && cancelled
      ensures before <= server.faults && (failed <==> before < server.faults)
      ensures old(server.faults) <= server.faults
      ensures Accounted([], parts, server.stored, failed, chunks) && uploaded == TagBytes(parts)
    {
      hide Buffers, Owned, Accounted, TagBytes;
      while jobs != []
        invariant Valid(chunks) && sem == |jobs| && old(server.faults) <= server.faults
        decreases |jobs|
      {
        var i: nat :| i < |jobs|;
        RemovedLength(jobs, i);
        RunJob(i, chunks);
      }
      cancelled := true;
    }
  }

  // ------------------------------------------------------------ the stream

  datatype Streamed = Streamed(parts: seq<Part>, total: nat, hash: Bytes)

  /** The list holds the content, cut into full parts and a last one, numbered from 1, and
      the server holds every part. */
  ghost predicate IsUploadOf(partSize: nat, list: seq<Part>, stored: map<nat, Bytes>, content: Bytes) {
    && |list| <= MAX_PARTS
    && (forall i :: 0 <= i < |list| ==> list[i].number == i + 1 && 0 < |list[i].tag| <= partSize)
    && (forall i :: 0 <= i < |list| - 1 ==> |list[i].tag| == partSize)
    && (forall p :: p in list ==> p.number in stored && stored[p.number] == p.tag)
    && Contents(list) == content
  }

  predicate AllFull(partSize: nat, chunks: seq<Bytes>) {
    forall c :: c in chunks ==> |c| == partSize
  }

  lemma {:induction false} FlatLength(partSize: nat, chunks: seq<Bytes>)
    requires AllFull(partSize, chunks)
    ensures |Flat(chunks)| == |chunks| * partSize
  {
    if chunks == [] {
    } else {
      var n := |chunks| - 1;
      assert chunks[n] in chunks;
      FlatLength(partSize, chunks[..n]);
      MulStep(n, partSize);
    }
  }

  lemma MulStep(n: nat, m: nat)
    ensures n * m + m == (n + 1) * m
  {
  }

  /** How far the read loop has come: what was hashed is what was cut, and the rest is still
      to come while reading goes on; without fault it ends at a clean end. */
  ghost predicate Progress(partSize: nat, chunks: seq<Bytes>, hash: Bytes, total: nat, whole: Bytes, rest: Bytes,
                           clean: bool, reading: bool, fault: Option<Fault>) {
    && hash == Flat(chunks) && total == |hash| && |chunks| <= MAX_PARTS && Sized(partSize, chunks)
    && (reading ==> AllFull(partSize, chunks) && whole == hash + rest && fault.None?)
    && (!reading && fault.None? ==> whole == hash && clean)
    && (fault == Some(TooManyParts) ==> |whole| > MAX_PARTS * partSize)
    && (fault == Some(DumpFailed) ==> !clean)
  }

  lemma NextChunk(partSize: nat, chunks: seq<Bytes>, hash: Bytes, total: nat, whole: Bytes, rest: Bytes, clean: bool,
                  n: nat)
    requires Progress(partSize, chunks, hash, total, whole, rest, clean, true, None)
    requires 0 < n <= partSize && n <= |rest| && |chunks| < MAX_PARTS
    requires n < partSize ==> n == |rest| && clean
    ensures Progress(partSize, chunks + [rest[..n]], hash + rest[..n], total + n, whole, rest[n..], clean,
                     n == partSize, None)
  {
    hide Flat;
    var c := rest[..n];
    FlatAppend(chunks, c);
    assert hash + rest == hash + c + rest[n..];
    forall d | d in chunks + [c]
      ensures d in chunks || d == c
    {
    }
    assert forall i :: 0 <= i < |chunks| ==> chunks[i] in chunks;
    if n < partSize {
      assert rest[n..] == [] && hash + c == whole;
    }
  }

  lemma OneTooMany(partSize: nat, chunks: seq<Bytes>, hash: Bytes, total: nat, whole: Bytes, rest: Bytes, clean: bool)
    requires Progress(partSize, chunks, hash, total, whole, rest, clean, true, None)
    requires |chunks| == MAX_PARTS && rest != []
    ensures |whole| > MAX_PARTS * partSize
  {
    FlatLength(partSize, chunks);
  }

  lemma Beginning(partSize: nat, whole: Bytes, clean: bool)
    ensures Progress(partSize, [], [], 0, whole, whole, clean, true, None)
  {
  }

  lemma NoBuffers()
    ensures Buffers([], []) == {}
  {
  }

  /** Reading stops with a fault; what matters of the rest is no longer tracked. */
  lemma Stopped(partSize: nat, chunks: seq<Bytes>, hash: Bytes, total: nat, whole: Bytes, rest: Bytes, clean: bool,
                fault: Fault)
    requires Progress(partSize, chunks, hash, total, whole, rest, clean, true, None)
    requires fault == TooManyParts ==> |whole| > MAX_PARTS * partSize
    requires fault == DumpFailed ==> !clean
    ensures forall left :: Progress(partSize, chunks, hash, total, whole, left, clean, false, Some(fault))
  {
  }

  lemma FaultMeans(partSize: nat, chunks: seq<Bytes>, hash: Bytes, total: nat, whole: Bytes, rest: Bytes, clean: bool,
                   fault: Option<Fault>)
    requires Progress(partSize, chunks, hash, total, whole, rest, clean, false, fault)
    ensures fault == Some(TooManyParts) ==> |whole| > MAX_PARTS * partSize
    ensures fault == Some(DumpFailed) ==> !clean
  {
  }

  lemma CleanEnd(partSize: nat, chunks: seq<Bytes>, hash: Bytes, total: nat, whole: Bytes, clean: bool)
    requires Progress(partSize, chunks, hash, total, whole, [], clean, true, None) && clean
    ensures Progress(partSize, chunks, hash, total, whole, [], clean, false, None)
  {
  }

  lemma FullIsUpload(partSize: nat, chunks: seq<Bytes>, stored: map<nat, Bytes>)
    requires Sized(partSize, chunks) && |chunks| <= MAX_PARTS
    requires forall p :: p in FullList(chunks) ==> p.number in stored && stored[p.number] == p.tag
    ensures IsUploadOf(partSize, FullList(chunks), stored, Flat(chunks))
  {
    hide Contents, Flat;
    FullContents(chunks);
  }

  lemma SortedParts(parts: seq<Part>)
    ensures forall p :: p in SortParts(parts) ==> p in parts
  {
    SortElements(parts);
    forall p | p in SortParts(parts)
      ensures p in parts
    {
      assert p in multiset(SortParts(parts));
    }
  }

  lemma AllAreListed(parts: seq<Part>, stored: map<nat, Bytes>, chunks: seq<Bytes>)
    requires Accounted([], parts, stored, false, chunks)
    ensures SortParts(parts) == FullList(chunks)
  {
    forall k | 1 <= k <= |chunks|
      ensures HasPart(parts, k)
    {
      assert !HasJob([], k);
    }
    SortedIsFull(parts, chunks);
  }

  /** What all jobs listed is the whole upload. */
  lemma AllListed(partSize: nat, parts: seq<Part>, stored: map<nat, Bytes>, chunks: seq<Bytes>, hash: Bytes, total: nat,
                  whole: Bytes, rest: Bytes, clean: bool)
    requires Accounted([], parts, stored, false, chunks)
    requires Progress(partSize, chunks, hash, total, whole, rest, clean, false, None)
    ensures clean && IsUploadOf(partSize, SortParts(parts), stored, whole) && hash == whole
    ensures TagBytes(parts) == |whole| == total
  {
    hide SortParts, FullList, Flat, IsUploadOf, HasJob, HasPart, Sized, AllFull;
    AllAreListed(parts, stored, chunks);
    SortedParts(parts);
    FullIsUpload(partSize, chunks, stored);
    TagBytesSorted(parts);
    TagBytesFull(chunks);
  }

  /** The read loop: cuts the body into parts and hands each to a job. */
  method ReadLoop(g: PartJobs, body: Body)
    returns (hash: Bytes, total: nat, fault: Option<Fault>, ghost chunks: seq<Bytes>)
    requires g.Valid([]) && g.Tallied() && g.sem == 0 && g.jobs == [] && g.pool == [] && g.partSize > 0
    modifies g, g.run, g.server`stored, g.server`faults, body`rest
    ensures g.Valid(chunks) && g.sem == |g.jobs|
    ensures fault == Some(Canceled) ==> g.before < g.server.faults || g.run.done
    ensures fault != Some(PartFailed) && fault != Some(CallFailed)
    ensures Progress(g.partSize, chunks, hash, total, old(body.rest), body.rest, body.clean, false, fault)
  {
    hide Progress, Buffers, PartJobs.Valid, PartJobs.Tallied;
    chunks := [];
    ghost var whole := body.rest;
    var number: nat := 0;
    hash, total, fault := [], 0, None;
    var reading := true;
    Beginning(g.partSize, whole, body.clean);
    assert Buffers(g.jobs, g.pool) == {} by { NoBuffers(); }
    while reading
      invariant fresh(Buffers(g.jobs, g.pool))
      invariant g.Valid(chunks) && g.Tallied() && g.sem == |g.jobs| <= g.slots
      invariant reading ==> number == |chunks| <= MAX_PARTS && fault.None?
      invariant fault == Some(Canceled) ==> g.before < g.server.faults || g.run.done
      invariant fault != Some(PartFailed) && fault != Some(CallFailed)
      invariant Progress(g.partSize, chunks, hash, total, whole, body.rest, body.clean, reading, fault)
      decreases reading, |body.rest|
    {
      var got := g.Obtain(chunks);
      if got.None? {
        Stopped(g.partSize, chunks, hash, total, whole, body.rest, body.clean, Canceled);
        fault, reading := Some(Canceled), false;
        continue;
      }
      var buf := got.value;
      ghost var rest := body.rest;
      var n, outcome := g.Fill(body, buf, chunks);
      match outcome {
        case Full | Partial =>
          number := number + 1;
          if number > MAX_PARTS {
            g.PutBack(buf, chunks);
            OneTooMany(g.partSize, chunks, hash, total, whole, rest, body.clean);
            Stopped(g.partSize, chunks, hash, total, whole, rest, body.clean, TooManyParts);
            fault, reading := Some(TooManyParts), false;
          } else {
            NextChunk(g.partSize, chunks, hash, total, whole, rest, body.clean, n);
            hash := hash + buf[..n];
            total := total + n;
            g.Go(number, buf, n, chunks);
            chunks := chunks + [rest[..n]];
            reading := outcome.Full?;
          }
        case Eof =>
          g.PutBack(buf, chunks);
          CleanEnd(g.partSize, chunks, hash, total, whole, body.clean);
          reading := false;
        case Broken =>
          g.PutBack(buf, chunks);
          Stopped(g.partSize, chunks, hash, total, whole, rest, body.clean, DumpFailed);
          fault, reading := Some(DumpFailed), false;
      }
    }
  }

  /** Cuts the body into parts and uploads them, at most `slots` at a time: parts 1, 2, ... of
      exactly partSize bytes but for a last one that may be shorter, at most 10000 of them. */
  method StreamParts(server: PartServer, run: Context, body: Body, partSize: nat, slots: nat)
    returns (r: Result<Streamed, Fault>, uploaded: nat)
    requires partSize > 0 && slots > 0 && server.stored == map[]
    modifies body`rest, run, server`stored, server`faults
    ensures old(server.faults) <= server.faults
    ensures r == Failure(PartFailed) <==> old(server.faults) < server.faults
    ensures r == Failure(Canceled) ==> run.done
    ensures r != Failure(CallFailed)
    ensures r.Success? ==>
      && body.clean && Contents(r.value.parts) == old(body.rest) && |r.value.parts| <= 10000
      && (forall i :: 0 <= i < |r.value.parts| ==>
            var part := r.value.parts[i];
            && part.number == i + 1 && 0 < |part.tag| <= partSize
            && (i < |r.value.parts| - 1 ==> |part.tag| == partSize)
            && part.number in server.stored && server.stored[part.number] == part.tag)
      && r.value.total == |old(body.rest)| == uploaded && r.value.hash == old(body.rest)
    ensures r.Success? ==> |old(body.rest)| <= 10000 * partSize
    ensures r == Failure(TooManyParts) ==> |old(body.rest)| > 10000 * partSize
    ensures r == Failure(DumpFailed) ==> !body.clean
  {
    hide Progress, PartJobs.Valid, PartJobs.Tallied, Accounted, TagBytes, IsUploadOf, SortParts;
    var g := new PartJobs(server, run, partSize, slots);
    var hash, total, fault, chunks := ReadLoop(g, body);
    ghost var whole := old(body.rest);
    g.Wait(chunks);
    uploaded := g.uploaded;
    if g.failed {
      return Failure(PartFailed), uploaded;
    }
    if fault.Some? {
      FaultMeans(partSize, chunks, hash, total, whole, body.rest, body.clean, fault);
      return Failure(fault.value), uploaded;
    }
    AllListed(partSize, g.parts, server.stored, chunks, hash, total, whole, body.rest, body.clean);
    var list := SortedCopy(g.parts);
    UploadParts(partSize, list, server.stored, whole);
    return Success(Streamed(list, total, hash)), uploaded;
  }

  /** What is uploaded, part by part. */
  lemma UploadParts(partSize: nat, list: seq<Part>, stored: map<nat, Bytes>, content: Bytes)
    requires IsUploadOf(partSize, list, stored, content)
    ensures Contents(list) == content && |list| <= 10000 && |content| <= 10000 * partSize
    ensures forall i :: 0 <= i < |list| ==>
              && list[i].number == i + 1 && 0 < |list[i].tag| <= partSize
              && (i < |list| - 1 ==> |list[i].tag| == partSize)
              && list[i].number in stored && stored[list[i].number] == list[i].tag
  {
    hide Contents;
    ContentsBound(partSize, list);
    MulGrows(|list|, 10000, partSize);
  }

  lemma {:induction false} ContentsBound(partSize: nat, list: seq<Part>)
    requires forall i :: 0 <= i < |list| ==> |list[i].tag| <= partSize
    ensures |Contents(list)| <= |list| * partSize
  {
    if list == [] {
    } else {
      var n := |list| - 1;
      ContentsBound(partSize, list[..n]);
      MulStep(n, partSize);
    }
  }

  lemma MulGrows(m: nat, n: nat, k: nat)
    requires m <= n
    ensures m * k <= n * k
  {
  }

  // ----------------------------------------------------- upload, abort, run

  /** Up to three attempts; true when the server confirmed that the upload is gone, and only
      then fewer. */
  method Abort(server: PartServer) returns (confirmed: bool)
    modifies server`open, server`aborts
    ensures confirmed ==> !server.open
    ensures server.open ==> old(server.open)
    ensures old(server.aborts) < server.aborts <= old(server.aborts) + 3
    ensures !confirmed ==> server.aborts == old(server.aborts) + 3
  {
    for attempt := 0 to ABORT_ATTEMPTS
      invariant server.open ==> old(server.open)
      invariant server.aborts == old(server.aborts) + attempt
    {
      server.AbortUpload();
      var gone := server.NoSuchUpload();
      if gone {
        return true;
      }
    }
    return false;
  }

  /** Uploads the body as one object. Whatever ends up under the key is the whole body of a
      clean stream; an error leaves an object only if HEAD denied one that exists; and if no
      call fails and nobody cancels, a clean stream that is neither empty nor too long is
      uploaded. Every failure has its cause, and after any that follows the creation the
      upload is aborted, three times unless the server confirms that it is gone. */
  method Upload(server: PartServer, run: Context, body: Body, partSize: nat, slots: nat)
    returns (r: Result<Record, Fault>, uploaded: nat)
    requires partSize > 0 && slots > 0 && server.content == None && !server.missed
    modifies run, body`rest
    modifies server`open, server`stored, server`content, server`missed, server`faults, server`created, server`aborts
    ensures server.content.Some? ==> body.clean && server.content.value == old(body.rest)
    ensures r.Success? ==> server.content.Some? && !server.open
    ensures r.Success? ==> r.value == Record(|old(body.rest)|, old(body.rest)) && uploaded == |old(body.rest)|
    ensures r.Success? ==> 0 < |old(body.rest)| <= 10000 * partSize
    ensures r.Failure? ==> (server.content.Some? <==> server.missed)
    ensures r == Failure(PartFailed) ==> old(server.faults) < server.faults
    ensures r == Failure(CallFailed) ==> old(server.faults) < server.faults || (body.clean && old(body.rest) == [])
    ensures r == Failure(TooManyParts) ==> |old(body.rest)| > 10000 * partSize
    ensures r == Failure(DumpFailed) ==> !body.clean
    ensures r == Failure(Canceled) ==> run.done
    ensures old(server.faults) <= server.faults
    ensures server.faults == old(server.faults) && !run.done && body.clean ==>
              0 < |old(body.rest)| <= 10000 * partSize ==> r.Success?
    ensures if r.Failure? && server.created then old(server.aborts) < server.aborts <= old(server.aborts) + 3
            else server.aborts == old(server.aborts)
    ensures r.Failure? && server.created && server.open ==> server.aborts == old(server.aborts) + 3
  {
    hide Ascending, Contents;
    uploaded := 0;
    var created := server.Create();
    if !created {
      return Failure(CallFailed), uploaded;
    }
    var streamed;
    streamed, uploaded := StreamParts(server, run, body, partSize, slots);
    if streamed.Failure? {
      var fault := streamed.error;
      assert streamed == Failure(fault);
      assert fault == PartFailed || fault == DumpFailed || fault == TooManyParts || fault == Canceled;
      var _ := Abort(server);
      return Failure(streamed.error), uploaded;
    }
    ContentsEmpty(streamed.value.parts);
    UploadAscends(streamed.value.parts);
    var result := Record(streamed.value.total, streamed.value.hash);
    var completed := server.Complete(streamed.value.parts);
    if !completed {
      var found := server.Head();
      if found {
        return Success(result), uploaded;
      }
      var _ := Abort(server);
      return Failure(CallFailed), uploaded;
    }
    return Success(result), uploaded;
  }

  lemma UploadAscends(list: seq<Part>)
    requires forall i :: 0 <= i < |list| ==> list[i].number == i + 1
    ensures Ascending(list)
  {
  }

  /** Nothing but an empty list is empty. */
  lemma ContentsEmpty(list: seq<Part>)
    requires forall i :: 0 <= i < |list| ==> 0 < |list[i].tag|
    ensures Contents(list) == [] <==> list == []
  {
  }

  /** A whole run: the manifest is written only for a completed object, success means that
      both exist and every byte was counted, and without any failing call or cancellation a
      clean stream that is neither empty nor too long succeeds. */
  method Run(server: PartServer, run: Context, body: Body, partSize: nat, slots: nat)
    returns (r: Result<Record, Fault>, phase: Phase, uploaded: nat)
    requires partSize > 0 && slots > 0
    requires server.content == None && server.manifest == None && !server.missed
    modifies body`rest, run, server
    ensures server.content.Some? ==> body.clean && server.content.value == old(body.rest)
    ensures server.manifest.Some? ==>
              server.content.Some? && server.manifest.value == Record(|server.content.value|, server.content.value)
    ensures r.Success? ==> server.manifest == Some(r.value) && uploaded == r.value.bytes
    ensures r.Success? <==> phase == Finished
    ensures r.Failure? && phase == Streaming ==> server.manifest.None? && (server.content.Some? <==> server.missed)
    ensures r.Failure? && phase == Finalizing ==> server.content.Some? && old(server.faults) < server.faults
    ensures old(server.faults) <= server.faults
    ensures server.faults == old(server.faults) && !run.done && body.clean ==>
              0 < |old(body.rest)| <= 10000 * partSize ==> r.Success?
    ensures if phase == Streaming && server.created
            then old(server.aborts) < server.aborts <= old(server.aborts) + 3
                 && (server.open ==> server.aborts == old(server.aborts) + 3)
            else server.aborts == old(server.aborts)
  {
    phase := Streaming;
    var out;
    out, uploaded := Upload(server, run, body, partSize, slots);
    if out.Failure? {
      return Failure(out.error), phase, uploaded;
    }
    phase := Finalizing;
    var written := server.PutManifest(out.value);
    if !written {
      return Failure(CallFailed), phase, uploaded;
    }
    phase := Finished;
    return Success(out.value), phase, uploaded;
  }

  // ---------------------------------------------------------------- the feed

  /** The writing end of the pipe. */
  class PipeWriter {
    var written: Bytes
    /** Some(true) after a clean close. */
    var closed: Option<bool>
    /** How many writes have failed. */
    ghost var faults: nat

    constructor ()
      ensures written == [] && closed == None && faults == 0
    {
      written, closed, faults := [], None, 0;
    }

    /** Hands bytes over; fails midway if the reading end is closed. */
    method Write(bytes: Bytes) returns (ok: bool)
      modifies this`written, this`faults
      ensures old(written) <= written <= old(written) + bytes
      ensures ok ==> written == old(written) + bytes
      ensures faults == old(faults) + if ok then 0 else 1
    {
      var broken: bool := *;
      ok := !broken;
      if ok {
        written := written + bytes;
      } else {
        var n: nat :| n <= |bytes|;
        written := written + bytes[..n];
        faults := faults + 1;
      }
    }

    method Close(clean: bool)
      modifies this`closed
      ensures closed == Some(clean)
    {
      closed := Some(clean);
    }
  }

  /** The dump process: what it prints, and how it exits. */
  class Dump {
    const output: Bytes
    const exitsOk: bool
    var taken: nat
    /** How many reads have failed. */
    ghost var faults: nat

    constructor (output: Bytes, exitsOk: bool)
      ensures this.output == output && this.exitsOk == exitsOk && taken == 0 && faults == 0
    {
      this.output, this.exitsOk, taken, faults := output, exitsOk, 0, 0;
    }

    /** The next bytes of its output; none at the end. */
    method Read() returns (ok: bool, n: nat)
      requires taken <= |output|
      modifies this`taken, this`faults
      ensures taken == old(taken) + n <= |output|
      ensures ok ==> (n == 0 <==> old(taken) == |output|)
      ensures !ok ==> n == 0
      ensures faults == old(faults) + if ok then 0 else 1
    {
      var broken: bool := *;
      if broken {
        faults := faults + 1;
      }
      if broken || taken == |output| {
        return !broken, 0;
      }
      n :| 0 < n <= |output| - taken;
      ok, taken := true, taken + n;
    }
  }

  /** Hands over what an encoder owes beyond what was written. */
  method Emit(pw: PipeWriter, due: Bytes) returns (ok: bool)
    requires pw.written <= due
    modifies pw`written, pw`faults
    ensures old(pw.written) <= pw.written <= due && (ok ==> pw.written == due)
    ensures pw.faults == old(pw.faults) + if ok then 0 else 1
  {
    ok := pw.Write(due[|pw.written|..]);
  }

  lemma CopyKeeps(zstd: Encoder, age: Encoder, x: Bytes, y: Bytes)
    requires Streams(zstd) && Streams(age) && x <= y
    ensures age.part([]) <= age.part(zstd.part(x)) <= age.part(zstd.part(y))
  {
    assert zstd.part(x) <= zstd.part(y);
    assert [] <= zstd.part(x);
  }

  lemma CloseKeeps(zstd: Encoder, age: Encoder, x: Bytes)
    requires Streams(zstd) && Streams(age)
    ensures age.part(zstd.part(x)) <= age.part(zstd.whole(x)) <= age.whole(zstd.whole(x))
  {
    assert zstd.part(x) <= zstd.whole(x);
  }

  /** Copies the dump through both encoders into the pipe. The pipe is closed exactly once,
      cleanly if and only if no read and no write failed and the dump exited successfully;
      after a clean close the whole ciphertext was written, after any other a prefix of it. */
  method FeedPipe(zstd: Encoder, age: Encoder, dump: Dump, pw: PipeWriter)
    requires Streams(zstd) && Streams(age)
    requires dump.taken == 0 && pw.written == [] && pw.closed == None
    modifies dump, pw
    ensures pw.faults >= old(pw.faults) && dump.faults >= old(dump.faults)
    ensures pw.closed == Some(dump.exitsOk && pw.faults == old(pw.faults) && dump.faults == old(dump.faults))
    ensures pw.closed == Some(true) ==> pw.written == age.whole(zstd.whole(dump.output))
    ensures pw.written <= age.whole(zstd.whole(dump.output))
  {
    hide Streams;
    CopyKeeps(zstd, age, [], dump.output);
    CloseKeeps(zstd, age, dump.output);
    var started := Emit(pw, age.part([]));
    if !started {
      pw.Close(false);
      return;
    }
    var copying, copyOk := true, true;
    assert dump.output[..0] == [];
    CopyKeeps(zstd, age, [], []);
    while copying
      invariant dump.taken <= |dump.output|
      invariant pw.written <= age.part(zstd.part(dump.output[..dump.taken]))
      invariant if copying then copyOk else copyOk ==> dump.taken == |dump.output|
      invariant pw.faults >= old(pw.faults) && dump.faults >= old(dump.faults)
      invariant copyOk <==> pw.faults == old(pw.faults) && dump.faults == old(dump.faults)
      invariant pw.closed == None
      decreases copying, |dump.output| - dump.taken
    {
      ghost var was := dump.output[..dump.taken];
      var n;
      copyOk, n := dump.Read();
      if !copyOk || n == 0 {
        copying := false;
      } else {
        var x := dump.output[..dump.taken];
        CopyKeeps(zstd, age, was, x);
        copyOk := Emit(pw, age.part(zstd.part(x)));
        copying := copyOk;
      }
    }
    CopyKeeps(zstd, age, dump.output[..dump.taken], dump.output);
    // The child is reaped only once its output is drained.
    if !copyOk || !dump.exitsOk {
      pw.Close(false);
      return;
    }
    var x := dump.output;
    assert dump.output[..dump.taken] == x;
    var finished := Emit(pw, age.part(zstd.whole(x)));
    if finished {
      finished := Emit(pw, age.whole(zstd.whole(x)));
    }
    pw.Close(finished);
  }

  /** A backup from the dump to the manifest, with the pipe filled before it is drained. When
      no read, no write and no call fails, nobody cancels and the dump exits successfully, a
      ciphertext that is neither empty nor too long is stored whole with its manifest;
      whatever fails, success means just that, and a dump that did not exit successfully
      leaves nothing. */
  method BackUp(zstd: Encoder, age: Encoder, dump: Dump, pw: PipeWriter, server: PartServer, run: Context,
                partSize: nat, slots: nat)
    returns (r: Result<Record, Fault>)
    requires Streams(zstd) && Streams(age) && partSize > 0 && slots > 0
    requires dump.taken == 0 && pw.written == [] && pw.closed == None
    requires server.content == None && server.manifest == None && !server.missed
    modifies dump, pw, run, server
    ensures var whole := age.whole(zstd.whole(dump.output));
            && (server.content.Some? ==> dump.exitsOk && server.content == Some(whole))
            && (server.manifest.Some? ==> server.content.Some? && server.manifest == Some(Record(|whole|, whole)))
            && (r.Success? ==> server.manifest == Some(r.value))
            && (dump.exitsOk && 0 < |whole| <= 10000 * partSize && !run.done
                && dump.faults == old(dump.faults) && pw.faults == old(pw.faults)
                && server.faults == old(server.faults) ==>
                  r.Success?)
  {
    hide Streams;
    FeedPipe(zstd, age, dump, pw);
    var body := new Body(pw.written, pw.closed == Some(true));
    var phase, uploaded;
    r, phase, uploaded := Run(server, run, body, partSize, slots);
  }
}
