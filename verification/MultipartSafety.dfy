/** What every step of a backup keeps, and what follows for every reachable state. */
module MultipartSafety {
  import opened Wrappers
  import opened PartLists
  import opened Multipart

  // ---------------------------------------------------------------- counts

  function Sum(workers: seq<Worker>, f: Worker -> nat): nat {
    if workers == [] then 0 else Sum(workers[..|workers| - 1], f) + f(workers[|workers| - 1])
  }

  lemma {:induction false} SumUpdate(workers: seq<Worker>, f: Worker -> nat, i: nat, x: Worker)
    requires i < |workers|
    ensures Sum(workers[i := x], f) == Sum(workers, f) - f(workers[i]) + f(x)
  {
    var last := |workers| - 1;
    if i < last {
      assert workers[i := x][..last] == workers[..last][i := x];
      SumUpdate(workers[..last], f, i, x);
    } else {
      assert workers[i := x][..last] == workers[..last];
    }
  }

  lemma SumAppend(workers: seq<Worker>, f: Worker -> nat, x: Worker)
    ensures Sum(workers + [x], f) == Sum(workers, f) + f(x)
  {
    assert (workers + [x])[..|workers|] == workers;
  }

  lemma {:induction false} SumAtLeast(workers: seq<Worker>, f: Worker -> nat, i: nat)
    requires i < |workers|
    ensures f(workers[i]) <= Sum(workers, f)
  {
    if i >= |workers| - 1 {
    } else {
      SumAtLeast(workers[..|workers| - 1], f, i);
    }
  }

  lemma {:induction false} SumZero(workers: seq<Worker>, f: Worker -> nat)
    requires Sum(workers, f) > 0
    ensures exists i :: 0 <= i < |workers| && f(workers[i]) > 0
  {
    var last := |workers| - 1;
    if f(workers[last]) != 0 {
    } else {
      SumZero(workers[..last], f);
    }
  }

  /** A worker holds its slot until it gives it back. */
  function Holds(x: Worker): nat {
    if HasBuffer(x.step) || x.step.Releasing? then 1 else 0
  }

  predicate MainHolds(m: Main) {
    m.Taking? || m.Filling? || m.GivingBack? || m.Freeing?
  }

  function Counted(x: Worker): nat {
    if x.step.Listing? || Added(x.step) then x.n else 0
  }

  /** The worker has appended its part to the list. */
  predicate Added(s: Step) {
    (s.Returning? || s.Releasing? || s.Leaving? || s.Gone?) && s.ok
  }

  // ----------------------------------------------------------- the invariant

  predicate Alive(f: Feed) {
    Writing(f) || f == Reaping(false) || f == Closed(true)
  }

  predicate Succeeded(f: Feed) {
    f.ClosingZstd? || f.ClosingAge? || f == Closed(true)
  }

  /** What was drawn is a prefix of what the encoders owe; a clean close follows the whole
      output of a dump that exited successfully. */
  ghost predicate SourceOk(w: World, s: Source) {
    && s.copied <= |s.printed|
    && (s.feed.Starting? ==> s.copied == 0)
    && (Alive(s.feed) ==> s.drawn <= Due(w, s))
    && (s.feed == Reaping(false) ==> s.copied == |s.printed| && !s.process.Printing?)
    && (Succeeded(s.feed) ==> s.copied == |s.printed| && s.process == Exited(true))
    && (s.feed == Closed(true) ==> s.drawn == Due(w, s))
  }

  /** The stream was read to its clean end. */
  predicate StreamEnded(m: Main) {
    m == Waiting(false) || m == Freeing(false) || (m.GivingBack? && !m.err) || Joining(m)
  }

  /** All parts were uploaded and the upload is to be, or was, completed. */
  predicate Joining(m: Main) {
    m.Completing? || m.Heading? || m.Publishing? || m.Done?
    || ((m.Aborting? || m.Failed?) && (m.cause == AtComplete || m.cause == AtManifest))
  }

  predicate InLoop(m: Main) {
    m.Creating? || m.Acquiring? || m.Taking? || m.Filling?
  }

  /** Every byte drawn was hashed or waits in the reader's buffer. */
  predicate DrawnOk(s: Source, hashed: Bytes, m: Main, mem: map<nat, Bytes>) {
    && hashed <= s.drawn
    && (m.Filling? ==> m.buf in mem && m.n <= |mem[m.buf]| && s.drawn == hashed + mem[m.buf][..m.n])
    && (m.Creating? || m.Acquiring? || m.Taking? ==> s.drawn == hashed)
    && (StreamEnded(m) ==> s.drawn == hashed && s.feed == Closed(true))
  }

  predicate ChunksOk(w: World, chunks: seq<Bytes>, hashed: Bytes, total: nat, m: Main) {
    && |chunks| <= MAX_PARTS && Sized(w.partSize, chunks)
    && (InLoop(m) && chunks != [] ==> |chunks[|chunks| - 1]| == w.partSize)
    && hashed == Flat(chunks) && total == |hashed|
    && (m.Creating? ==> chunks == [])
  }

  predicate MainHasBuffer(m: Main) {
    m.Filling? || m.GivingBack?
  }

  /** No buffer has two owners, and a worker's buffer holds its chunk. */
  predicate BuffersOk(w: World, mem: map<nat, Bytes>, pool: set<nat>, m: Main, workers: seq<Worker>,
                      chunks: seq<Bytes>) {
    && |workers| == |chunks|
    && (forall b :: b in mem ==> |mem[b]| == w.partSize)
    && pool <= mem.Keys
    && (MainHasBuffer(m) ==> m.buf in mem && m.buf !in pool)
    && (m.Filling? ==> m.n <= w.partSize)
    && (forall i :: 0 <= i < |workers| && HasBuffer(workers[i].step) ==>
          var b := workers[i].step.buf;
          && b in mem && b !in pool && (MainHasBuffer(m) ==> b != m.buf)
          && chunks[i] <= mem[b])
    && (forall i, j :: 0 <= i < j < |workers| && HasBuffer(workers[i].step) && HasBuffer(workers[j].step) ==>
          workers[i].step.buf != workers[j].step.buf)
  }

  /** What is sent and stored for a part is its chunk. */
  predicate WorkerOk(x: Worker, i: nat, chunk: Bytes, stored: map<nat, Bytes>) {
    && x.n == |chunk|
    && (x.step.Sending? ==> x.step.sent <= chunk && (x.step.stored ==> x.step.sent == chunk && i + 1 in stored))
    && (x.step.Counting? || x.step.Listing? ==> x.step.tag == chunk && i + 1 in stored)
    && (Added(x.step) ==> i + 1 in stored)
  }

  predicate WorkersOk(workers: seq<Worker>, chunks: seq<Bytes>, stored: map<nat, Bytes>) {
    && |workers| == |chunks|
    && (forall i :: 0 <= i < |workers| ==> WorkerOk(workers[i], i, chunks[i], stored))
    && (forall pn :: pn in stored ==> 1 <= pn <= |chunks| && stored[pn] == chunks[pn - 1])
  }

  /** The part list holds exactly one entry for every worker that finished. */
  predicate ListedOk(listed: seq<Part>, workers: seq<Worker>, chunks: seq<Bytes>) {
    && |workers| == |chunks|
    && (forall p :: p in listed ==>
          1 <= p.number <= |chunks| && p.tag == chunks[p.number - 1] && Added(workers[p.number - 1].step))
    && (forall i :: 0 <= i < |workers| && Added(workers[i].step) ==> Part(i + 1, chunks[i]) in listed)
    && DistinctNumbers(listed)
  }

  ghost predicate SemOk(w: World, sem: nat, workers: seq<Worker>, m: Main) {
    sem == Sum(workers, Holds) + (if MainHolds(m) then 1 else 0) && sem <= w.slots
  }

  predicate SomeFailed(workers: seq<Worker>) {
    exists i :: 0 <= i < |workers| && workers[i].step == Gone(false)
  }

  predicate FailOk(workers: seq<Worker>, failed: bool, cancelled: bool) {
    (failed ==> cancelled) && (failed <==> SomeFailed(workers))
  }

  predicate AllGone(workers: seq<Worker>) {
    forall x :: x in workers ==> x.step.Gone?
  }

  predicate AllAdded(workers: seq<Worker>) {
    forall x :: x in workers ==> x.step == Gone(true)
  }

  predicate AfterJoin(m: Main) {
    Joining(m) || m.Aborting? || m.Failed?
  }

  /** Past the join no part is in flight, and an upload to complete has all its parts. */
  predicate JoinOk(m: Main, workers: seq<Worker>, chunks: seq<Bytes>) {
    && (AfterJoin(m) ==> AllGone(workers))
    && (Joining(m) ==> AllAdded(workers))
    && (m.Completing? ==> m.list == FullList(chunks))
  }

  predicate NeedsContent(m: Main) {
    m.Publishing? || m.Done? || m == Failed(AtManifest)
  }

  predicate NeedsManifest(m: Main) {
    m == Publishing(true) || m.Done?
  }

  /** What the server holds agrees with where the caller is. */
  predicate ServerOk(m: Main, srv: Server, missed: bool, hashed: Bytes, total: nat) {
    && (srv.content.Some? ==> Joining(m) && srv.content.value == hashed && !srv.open)
    && (srv.manifest.Some? ==> srv.content.Some? && srv.manifest.value == Record(total, hashed))
    && (NeedsContent(m) ==> srv.content.Some?)
    && (NeedsManifest(m) ==> srv.manifest.Some?)
    && (srv.manifest.Some? ==> NeedsManifest(m) || m == Failed(AtManifest))
    && ((m.Aborting? || m.Failed?) && m.cause == AtComplete ==> (missed <==> srv.content.Some?))
    && (m.Creating? ==> !srv.open && srv.stored == map[])
  }

  predicate PhaseOk(m: Main, phase: Phase, hashed: Bytes, total: nat) {
    && (phase == Finished <==> m.Done?)
    && (phase == Finalizing <==> m.Publishing? || m == Failed(AtManifest))
    && (m.Done? ==> m == Done(total, hashed))
    && (m.Aborting? ==> 0 < m.left <= ABORT_ATTEMPTS && (m.cause == AtStream || m.cause == AtComplete))
  }

  predicate OutcomeOk(m: Main, phase: Phase, srv: Server, missed: bool, workers: seq<Worker>,
                      chunks: seq<Bytes>, hashed: Bytes, total: nat) {
    JoinOk(m, workers, chunks) && ServerOk(m, srv, missed, hashed, total) && PhaseOk(m, phase, hashed, total)
  }

  ghost predicate Inv(w: World, st: State) {
    && SourceOk(w, st.src)
    && DrawnOk(st.src, st.hashed, st.main, st.mem)
    && ChunksOk(w, st.chunks, st.hashed, st.total, st.main)
    && BuffersOk(w, st.mem, st.sh.pool, st.main, st.workers, st.chunks)
    && WorkersOk(st.workers, st.chunks, st.sh.srv.stored)
    && ListedOk(st.sh.listed, st.workers, st.chunks)
    && SemOk(w, st.sh.sem, st.workers, st.main)
    && st.sh.uploaded == Sum(st.workers, Counted)
    && FailOk(st.workers, st.sh.failed, st.sh.cancelled)
    && OutcomeOk(st.main, st.phase, st.sh.srv, st.missed, st.workers, st.chunks, st.hashed, st.total)
  }

  lemma InitialInv(w: World, st: State)
    requires WorldOk(w) && Initial(st)
    ensures Inv(w, st)
  {
  }

  // -------------------------------------------------------------- the source

  /** The encoders' output grows with their input. */
  lemma CopyGrows(w: World, s: Source, n: nat)
    requires WorldOk(w) && s.feed.Copying? && s.copied + n <= |s.printed|
    ensures Due(w, s) <= Due(w, s.(copied := s.copied + n))
  {
    assert s.printed[..s.copied] <= s.printed[..s.copied + n];
    assert w.zstd.part(s.printed[..s.copied]) <= w.zstd.part(s.printed[..s.copied + n]);
  }

  /** Closing an encoder only adds to its output. */
  lemma ClosingGrows(w: World, s: Source, feed: Feed)
    requires WorldOk(w) && s.copied <= |s.printed| && (s.feed.Starting? ==> s.copied == 0)
    requires (s.feed.Starting? && feed.Copying?) || (s.feed == Reaping(false) && feed.ClosingZstd?)
          || (s.feed.ClosingZstd? && feed.ClosingAge?)
    ensures Due(w, s) <= Due(w, s.(feed := feed))
  {
    var x := s.printed[..s.copied];
    assert [] <= w.zstd.part(x) <= w.zstd.whole(x);
  }

  lemma SourceStep(w: World, s: Source, cut: bool, a: Action)
    requires WorldOk(w) && SourceOk(w, s) && SourceAction(a) && SourceEnabled(w, s, cut, a)
    ensures var s' := SourceNext(s, a);
            SourceOk(w, s') && s'.drawn == s.drawn && (s.feed == Closed(true) ==> s' == s)
  {
    hide WorldOk;
    var s' := SourceNext(s, a);
    if a.Copy? {
      CopyGrows(w, s, a.n);
    } else if a.StartCopy? || a.ZstdClosed? || (a.Reap? && s'.feed.ClosingZstd?) {
      ClosingGrows(w, s, s'.feed);
    } else {
      assert s'.printed[..s.copied] == s.printed[..s.copied];
    }
  }

  lemma SourceStepInv(w: World, st: State, a: Action)
    requires WorldOk(w) && Inv(w, st) && SourceAction(a) && SourceEnabled(w, st.src, st.cut, a)
    ensures Inv(w, st.(src := SourceNext(st.src, a)))
  {
    hide WorldOk, SourceOk, SourceEnabled, SourceNext, ChunksOk, BuffersOk, WorkersOk, ListedOk, SemOk, FailOk,
      OutcomeOk;
    SourceStep(w, st.src, st.cut, a);
  }

  /** A read takes the next bytes due. */
  lemma DrawStep(w: World, s: Source, k: nat)
    requires SourceOk(w, s) && 0 < k <= |Pending(w, s)|
    ensures SourceOk(w, s.(drawn := s.drawn + Pending(w, s)[..k]))
  {
  }

  // ------------------------------------------------------------- the workers

  /** What a worker's step does to the shared state. */
  lemma WorkerShape(sh: Shared, mem: map<nat, Bytes>, x: Worker, a: Action)
    requires WorkerAction(a) && WorkerEnabled(sh, mem, x, a)
    ensures var s, s', sh' := x.step, StepNext(sh, mem, x, a), SharedNext(sh, mem, x, a);
            && (if HasBuffer(s') then HasBuffer(s) && s'.buf == s.buf && sh'.pool == sh.pool
                else sh'.pool == sh.pool || (HasBuffer(s) && sh'.pool == sh.pool + {s.buf}))
            && (if s.Listing? && Added(s') then sh'.listed == sh.listed + [Part(a.i + 1, s.tag)] && !Added(s)
                else sh'.listed == sh.listed && (Added(s) <==> Added(s')))
            && sh'.srv == sh.srv.(stored := sh'.srv.stored)
            && (sh'.srv.stored == sh.srv.stored
                || (s.Sending? && |s.sent| == x.n && sh'.srv.stored == sh.srv.stored[a.i + 1 := s.sent]))
            && !s.Gone?
            && (sh'.failed <==> sh.failed || s' == Gone(false))
            && (sh'.failed ==> sh'.cancelled || sh.failed) && (sh.cancelled ==> sh'.cancelled)
  {
  }

  lemma WorkerNumbers(sh: Shared, mem: map<nat, Bytes>, x: Worker, a: Action)
    requires WorkerAction(a) && WorkerEnabled(sh, mem, x, a)
    ensures var x', sh' := x.(step := StepNext(sh, mem, x, a)), SharedNext(sh, mem, x, a);
            && sh'.sem + Holds(x) == sh.sem + Holds(x') && sh'.sem <= sh.sem
            && sh'.uploaded + Counted(x) == sh.uploaded + Counted(x')
  {
  }

  /** The worker that moved still agrees with its chunk. */
  lemma MovedWorkerOk(sh: Shared, mem: map<nat, Bytes>, x: Worker, a: Action, chunk: Bytes)
    requires WorkerAction(a) && WorkerEnabled(sh, mem, x, a)
    requires WorkerOk(x, a.i, chunk, sh.srv.stored)
    requires HasBuffer(x.step) && x.step.buf in mem ==> chunk <= mem[x.step.buf]
    ensures WorkerOk(x.(step := StepNext(sh, mem, x, a)), a.i, chunk, SharedNext(sh, mem, x, a).srv.stored)
  {
    if a.Send? {
      var s := x.step;
      assert s.sent + mem[s.buf][|s.sent|..|s.sent| + a.k] == chunk[..|s.sent| + a.k];
    }
  }

  lemma WorkerStepInv(w: World, st: State, a: Action, st': State)
    requires WorkerAction(a) && a.i < |st.workers| && WorkerEnabled(st.sh, st.mem, st.workers[a.i], a)
    requires st' == WorkerNext(st, a) && Inv(w, st)
    ensures Inv(w, st')
  {
    hide SourceOk, DrawnOk, ChunksOk, SemOk, BuffersOk, WorkersOk, ListedOk, FailOk, OutcomeOk,
      WorkerEnabled, StepNext, SharedNext, WorkerOk, Holds, Counted, Added, HasBuffer;
    var i, x := a.i, st.workers[a.i];
    WorkerShape(st.sh, st.mem, x, a);
    WorkerNumbers(st.sh, st.mem, x, a);
    var x' := st'.workers[i];
    WorkersLength(st.workers, st.chunks, st.sh.srv.stored);
    WorkerInBuffer(w, st, i);
    MovedWorkerOk(st.sh, st.mem, x, a, st.chunks[i]);
    SumUpdate(st.workers, Holds, i, x');
    SumUpdate(st.workers, Counted, i, x');
    SumAtLeast(st.workers, Holds, i);
    KeepsSem(w, st.sh.sem, st'.sh.sem, st.workers, i, x', st.main);
    KeepsBuffers(w, st.mem, st.sh.pool, st'.sh.pool, st.main, st.workers, i, x', st.chunks);
    KeepsContents(st.workers, i, x', st.chunks, st.sh.srv.stored, st'.sh.srv.stored);
    ListedTag(st.workers, i, st.chunks, st.sh.srv.stored);
    KeepsList(st.sh.listed, st'.sh.listed, st.workers, i, x', st.chunks);
    CreatingEmpty(w, st);
    KeepsOutcome(st, st', i);
  }

  lemma CreatingEmpty(w: World, st: State)
    requires ChunksOk(w, st.chunks, st.hashed, st.total, st.main)
    ensures st.main.Creating? ==> st.chunks == []
  {
  }

  lemma ListedTag(workers: seq<Worker>, i: nat, chunks: seq<Bytes>, stored: map<nat, Bytes>)
    requires WorkersOk(workers, chunks, stored) && i < |workers|
    ensures workers[i].step.Listing? ==> workers[i].step.tag == chunks[i]
  {
    assert WorkerOk(workers[i], i, chunks[i], stored);
  }

  lemma WorkersLength(workers: seq<Worker>, chunks: seq<Bytes>, stored: map<nat, Bytes>)
    requires WorkersOk(workers, chunks, stored)
    ensures |workers| == |chunks|
    ensures forall i :: 0 <= i < |workers| ==> WorkerOk(workers[i], i, chunks[i], stored)
  {
  }

  lemma WorkerInBuffer(w: World, st: State, i: nat)
    requires BuffersOk(w, st.mem, st.sh.pool, st.main, st.workers, st.chunks) && i < |st.workers| == |st.chunks|
    ensures HasBuffer(st.workers[i].step) ==>
      st.workers[i].step.buf in st.mem && st.chunks[i] <= st.mem[st.workers[i].step.buf]
  {
  }

  lemma KeepsSem(w: World, sem: nat, sem': nat, workers: seq<Worker>, i: nat, x: Worker, m: Main)
    requires i < |workers| && SemOk(w, sem, workers, m)
    requires sem' + Holds(workers[i]) == sem + Holds(x) && sem' <= sem
    requires Sum(workers[i := x], Holds) == Sum(workers, Holds) - Holds(workers[i]) + Holds(x)
    ensures SemOk(w, sem', workers[i := x], m)
  {
  }

  lemma KeepsBuffers(w: World, mem: map<nat, Bytes>, pool: set<nat>, pool': set<nat>, m: Main,
                     workers: seq<Worker>, i: nat, x: Worker, chunks: seq<Bytes>)
    requires i < |workers| && BuffersOk(w, mem, pool, m, workers, chunks)
    requires var s := workers[i].step;
             if HasBuffer(x.step) then HasBuffer(s) && x.step.buf == s.buf && pool' == pool
             else pool' == pool || (HasBuffer(s) && pool' == pool + {s.buf})
    ensures BuffersOk(w, mem, pool', m, workers[i := x], chunks)
  {
  }

  lemma KeepsContents(workers: seq<Worker>, i: nat, x: Worker, chunks: seq<Bytes>,
                      stored: map<nat, Bytes>, stored': map<nat, Bytes>)
    requires i < |workers| && WorkersOk(workers, chunks, stored) && WorkerOk(x, i, chunks[i], stored')
    requires var s := workers[i];
             stored' == stored || (s.step.Sending? && |s.step.sent| == s.n && stored' == stored[i + 1 := s.step.sent])
    ensures WorkersOk(workers[i := x], chunks, stored')
  {
    assert WorkerOk(workers[i], i, chunks[i], stored);
    assert stored' != stored ==> workers[i].step.sent == chunks[i];
    forall j | 0 <= j < |workers| && j != i
      ensures WorkerOk(workers[j], j, chunks[j], stored')
    {
      assert WorkerOk(workers[j], j, chunks[j], stored);
    }
  }

  lemma KeepsList(listed: seq<Part>, listed': seq<Part>, workers: seq<Worker>, i: nat, x: Worker, chunks: seq<Bytes>)
    requires i < |workers| && ListedOk(listed, workers, chunks)
    requires var s := workers[i].step;
             if s.Listing? && Added(x.step) then
               listed' == listed + [Part(i + 1, s.tag)] && !Added(s) && s.tag == chunks[i]
             else listed' == listed && (Added(s) <==> Added(x.step))
    ensures ListedOk(listed', workers[i := x], chunks)
  {
    hide Added;
    var added := listed' != listed;
    assert added ==> listed'[|listed|] == Part(i + 1, chunks[i]);
    forall p | p in listed
      ensures p in listed'
    {
    }
    forall p | p in listed'
      ensures p in listed || p == Part(i + 1, chunks[i])
    {
    }
  }

  lemma KeepsOutcome(st: State, st': State, i: nat)
    requires i < |st.workers| && FailOk(st.workers, st.sh.failed, st.sh.cancelled) && !st.workers[i].step.Gone?
    requires OutcomeOk(st.main, st.phase, st.sh.srv, st.missed, st.workers, st.chunks, st.hashed, st.total)
    requires |st.chunks| == |st.workers| && (st.main.Creating? ==> st.chunks == [])
    requires |st'.workers| == |st.workers| && st'.workers == st.workers[i := st'.workers[i]]
    requires st'.sh.srv == st.sh.srv.(stored := st'.sh.srv.stored)
    requires st'.sh.failed <==> st.sh.failed || st'.workers[i].step == Gone(false)
    requires (st'.sh.failed ==> st'.sh.cancelled || st.sh.failed) && (st.sh.cancelled ==> st'.sh.cancelled)
    ensures FailOk(st'.workers, st'.sh.failed, st'.sh.cancelled)
    ensures OutcomeOk(st.main, st.phase, st'.sh.srv, st.missed, st'.workers, st.chunks, st.hashed, st.total)
  {
    assert st.workers[i] in st.workers;
    if j :| 0 <= j < |st.workers| && st.workers[j].step == Gone(false) {
      assert st'.workers[j].step == Gone(false);
    }
  }

  // ------------------------------------------------------------ the read loop

  /** Before the join the server's side does not depend on where the loop is. */
  lemma LoopOutcome(st: State, m: Main)
    requires !AfterJoin(m) && !AfterJoin(st.main) && !m.Creating?
    requires OutcomeOk(st.main, st.phase, st.sh.srv, st.missed, st.workers, st.chunks, st.hashed, st.total)
    ensures OutcomeOk(m, st.phase, st.sh.srv, st.missed, st.workers, st.chunks, st.hashed, st.total)
  {
  }

  lemma SignalInv(w: World, st: State, a: Action, st': State)
    requires a.CreateReply? || a.Cancel? || a.Watch?
    requires MainEnabled(w, st, a) && st' == MainNext(w, st, a) && Inv(w, st)
    ensures Inv(w, st')
  {
    hide SourceOk, WorkersOk, ListedOk, Sized, Flat, Sum, Pending;
  }

  lemma FreeSlotInv(w: World, st: State, st': State)
    requires MainEnabled(w, st, FreeSlot) && st' == MainNext(w, st, FreeSlot) && Inv(w, st)
    ensures Inv(w, st')
  {
    hide SourceOk, WorkersOk, ListedOk, Sized, Flat, Sum, Pending, OutcomeOk;
    LoopOutcome(st, st'.main);
  }

  lemma SlotInv(w: World, st: State, a: Action, st': State)
    requires a.Acquire? || a.SeeCancelled?
    requires MainEnabled(w, st, a) && st' == MainNext(w, st, a) && Inv(w, st)
    ensures Inv(w, st')
  {
    hide SourceOk, WorkersOk, ListedOk, Sized, Flat, Sum, Pending, OutcomeOk;
    LoopOutcome(st, st'.main);
  }

  lemma EndReadInv(w: World, st: State, a: Action, st': State)
    requires a.EndOfStream? || a.ReadFails?
    requires MainEnabled(w, st, a) && st' == MainNext(w, st, a) && Inv(w, st)
    ensures Inv(w, st')
  {
    hide SourceOk, WorkersOk, ListedOk, Sized, Flat, Sum, Pending, OutcomeOk;
    LoopOutcome(st, st'.main);
    assert a.EndOfStream? ==> st.src.drawn == st.hashed + [];
  }

  lemma TakeInv(w: World, st: State, buf: nat, st': State)
    requires MainEnabled(w, st, Take(buf)) && st' == MainNext(w, st, Take(buf)) && Inv(w, st)
    ensures Inv(w, st')
  {
    hide SourceOk, WorkersOk, ListedOk, Sized, Flat, Sum, Pending, OutcomeOk;
    LoopOutcome(st, st'.main);
    assert st.hashed + st'.mem[buf][..0] == st.hashed;
  }

  lemma GiveBackInv(w: World, st: State, st': State)
    requires MainEnabled(w, st, GiveBack) && st' == MainNext(w, st, GiveBack) && Inv(w, st)
    ensures Inv(w, st')
  {
    hide SourceOk, WorkersOk, ListedOk, Sized, Flat, Sum, Pending, OutcomeOk;
    LoopOutcome(st, st'.main);
  }

  lemma ReadInv(w: World, st: State, k: nat, st': State)
    requires MainEnabled(w, st, Read(k)) && st' == MainNext(w, st, Read(k)) && Inv(w, st)
    ensures Inv(w, st')
  {
    hide SourceOk, WorkersOk, ListedOk, Sized, Flat, Sum, Pending, OutcomeOk;
    LoopOutcome(st, st'.main);
    DrawStep(w, st.src, k);
    var m, bytes := st.main, Pending(w, st.src)[..k];
    assert st'.mem[m.buf][..m.n + k] == st.mem[m.buf][..m.n] + bytes;
    assert st'.src.drawn == st.hashed + (st.mem[m.buf][..m.n] + bytes);
  }

  // ------------------------------------------------------------- dispatching

  /** A new worker takes over the reader's slot and buffer. */
  lemma NewWorkerBuffers(w: World, mem: map<nat, Bytes>, pool: set<nat>, m: Main, m': Main,
                         workers: seq<Worker>, x: Worker, chunks: seq<Bytes>, chunk: Bytes)
    requires BuffersOk(w, mem, pool, m, workers, chunks) && m.Filling? && !MainHasBuffer(m')
    requires x.step.Sending? && x.step.buf == m.buf && chunk <= mem[m.buf]
    ensures BuffersOk(w, mem, pool, m', workers + [x], chunks + [chunk])
  {
  }

  lemma NewWorkerContents(workers: seq<Worker>, x: Worker, chunks: seq<Bytes>, chunk: Bytes, stored: map<nat, Bytes>)
    requires WorkersOk(workers, chunks, stored) && WorkerOk(x, |workers|, chunk, stored)
    ensures WorkersOk(workers + [x], chunks + [chunk], stored)
  {
    hide WorkerOk;
  }

  lemma NewWorkerListed(listed: seq<Part>, workers: seq<Worker>, x: Worker, chunks: seq<Bytes>, chunk: Bytes)
    requires ListedOk(listed, workers, chunks) && x.step.Sending?
    ensures ListedOk(listed, workers + [x], chunks + [chunk])
  {
  }

  lemma NewWorkerFail(workers: seq<Worker>, x: Worker, failed: bool, cancelled: bool)
    requires FailOk(workers, failed, cancelled) && x.step.Sending?
    ensures FailOk(workers + [x], failed, cancelled)
  {
    if i :| 0 <= i < |workers| && workers[i].step == Gone(false) {
      assert (workers + [x])[i].step == Gone(false);
    }
  }

  lemma NewChunk(w: World, chunks: seq<Bytes>, chunk: Bytes, hashed: Bytes, total: nat, m: Main, m': Main)
    requires ChunksOk(w, chunks, hashed, total, m) && m.Filling? && |chunks| < MAX_PARTS
    requires 0 < |chunk| <= w.partSize && !m'.Creating? && (InLoop(m') ==> |chunk| == w.partSize)
    ensures ChunksOk(w, chunks + [chunk], hashed + chunk, total + |chunk|, m')
  {
    hide Flat;
    FlatAppend(chunks, chunk);
  }

  lemma DispatchInv(w: World, st: State, st': State)
    requires MainEnabled(w, st, Dispatch) && st' == MainNext(w, st, Dispatch) && Inv(w, st)
    requires |st.workers| < MAX_PARTS && w.partSize > 0
    ensures Inv(w, st')
  {
    hide SourceOk, Flat, Sum, Pending, ChunksOk, WorkersOk, BuffersOk, ListedOk, FailOk;
    var m := st.main;
    var chunk := st.mem[m.buf][..m.n];
    var x := Worker(m.n, Sending(m.buf, [], false, w.retries));
    SumAppend(st.workers, Holds, x);
    SumAppend(st.workers, Counted, x);
    WorkersLength(st.workers, st.chunks, st.sh.srv.stored);
    NewWorkerBuffers(w, st.mem, st.sh.pool, m, st'.main, st.workers, x, st.chunks, chunk);
    NewWorkerContents(st.workers, x, st.chunks, chunk, st.sh.srv.stored);
    NewWorkerFail(st.workers, x, st.sh.failed, st.sh.cancelled);
    NewWorkerListed(st.sh.listed, st.workers, x, st.chunks, chunk);
    NewChunk(w, st.chunks, chunk, st.hashed, st.total, m, st'.main);
  }

  lemma TooManyPartsInv(w: World, st: State, st': State)
    requires MainEnabled(w, st, Dispatch) && st' == MainNext(w, st, Dispatch) && Inv(w, st)
    requires |st.workers| == MAX_PARTS
    ensures Inv(w, st')
  {
    hide SourceOk, Flat, Sum, Pending, WorkersOk, ListedOk, Sized, OutcomeOk;
    LoopOutcome(st, st'.main);
  }

  // ----------------------------------------------------------- the join

  lemma JoinedList(listed: seq<Part>, workers: seq<Worker>, chunks: seq<Bytes>)
    requires ListedOk(listed, workers, chunks) && AllAdded(workers)
    ensures SortParts(listed) == FullList(chunks)
  {
    forall k | 1 <= k <= |chunks|
      ensures HasPart(listed, k)
    {
      assert workers[k - 1] in workers;
      var p := Part(k - 1 + 1, chunks[k - 1]);
      var i :| 0 <= i < |listed| && listed[i] == p;
      assert listed[i].number == k;
    }
    SortedIsFull(listed, chunks);
  }

  lemma AllSucceeded(workers: seq<Worker>, failed: bool, cancelled: bool)
    requires FailOk(workers, failed, cancelled) && !failed && forall x :: x in workers ==> x.step.Gone?
    ensures AllAdded(workers)
  {
  }

  /** Past the read loop the caller only moves on. */
  lemma MainMoved(w: World, st: State, m: Main)
    requires !InLoop(m) && !MainHolds(m) && !MainHolds(st.main) && (StreamEnded(m) ==> StreamEnded(st.main))
    requires DrawnOk(st.src, st.hashed, st.main, st.mem)
    requires ChunksOk(w, st.chunks, st.hashed, st.total, st.main)
    requires BuffersOk(w, st.mem, st.sh.pool, st.main, st.workers, st.chunks)
    requires SemOk(w, st.sh.sem, st.workers, st.main)
    ensures DrawnOk(st.src, st.hashed, m, st.mem)
    ensures ChunksOk(w, st.chunks, st.hashed, st.total, m)
    ensures BuffersOk(w, st.mem, st.sh.pool, m, st.workers, st.chunks)
    ensures SemOk(w, st.sh.sem, st.workers, m)
  {
    hide Sized, Flat, Sum;
  }

  lemma JoinedInv(w: World, st: State, st': State)
    requires MainEnabled(w, st, Joined) && st' == MainNext(w, st, Joined) && Inv(w, st)
    ensures Inv(w, st')
  {
    hide SourceOk, DrawnOk, ChunksOk, BuffersOk, SemOk, WorkersOk, ListedOk, Sum, AllAdded, FullList, SortParts;
    MainMoved(w, st, st'.main);
    if !st.sh.failed && !st.main.err {
      AllSucceeded(st.workers, st.sh.failed, st.sh.cancelled);
      JoinedList(st.sh.listed, st.workers, st.chunks);
    }
  }

  // -------------------------------------------------------- the completion

  lemma CallServerOk(m: Main, srv: Server, missed: bool, chunks: seq<Bytes>, hashed: Bytes, total: nat, a: Action)
    requires CallAction(a) && CallEnabled(m, srv, a) && ServerOk(m, srv, missed, hashed, total)
    requires (m.Completing? ==> m.list == FullList(chunks)) && hashed == Flat(chunks)
    requires m.Aborting? ==> m.cause != AtManifest
    ensures var record := Record(total, hashed);
            ServerOk(AfterReply(m, srv, record, a), AfterCall(m, srv, record, a),
                     if a.HeadReply? && !a.found then srv.content.Some? else missed, hashed, total)
  {
    hide Flat, Contents, FullList, Acceptable;
    FullContents(chunks);
  }

  lemma CallMoves(m: Main, srv: Server, record: Record, a: Action)
    requires CallAction(a) && CallEnabled(m, srv, a)
    ensures AfterCall(m, srv, record, a).stored == srv.stored
    ensures var m' := AfterReply(m, srv, record, a);
            AfterJoin(m) && AfterJoin(m') && (m'.Completing? ==> m' == m) && (Joining(m') ==> Joining(m))
  {
  }

  lemma CallPhase(m: Main, phase: Phase, srv: Server, hashed: Bytes, total: nat, a: Action)
    requires CallAction(a) && CallEnabled(m, srv, a) && PhaseOk(m, phase, hashed, total)
    ensures var m' := AfterReply(m, srv, Record(total, hashed), a);
            PhaseOk(m', AfterPhase(phase, m'), hashed, total)
  {
  }

  lemma JoinMoved(m: Main, m': Main, workers: seq<Worker>, chunks: seq<Bytes>)
    requires JoinOk(m, workers, chunks) && (Joining(m') ==> Joining(m)) && AfterJoin(m)
    requires m'.Completing? ==> m' == m
    ensures JoinOk(m', workers, chunks)
  {
  }

  lemma CallInv(w: World, st: State, a: Action, st': State)
    requires CallAction(a) && CallEnabled(st.main, st.sh.srv, a) && st' == CallNext(st, a) && Inv(w, st)
    ensures Inv(w, st')
  {
    hide SourceOk, DrawnOk, BuffersOk, SemOk, WorkersOk, ListedOk, FailOk, Sum, Flat, Sized, ServerOk,
      AfterCall, AfterReply, CallEnabled, CallAction;
    var record := Record(st.total, st.hashed);
    CallMoves(st.main, st.sh.srv, record, a);
    CallPhase(st.main, st.phase, st.sh.srv, st.hashed, st.total, a);
    CallServerOk(st.main, st.sh.srv, st.missed, st.chunks, st.hashed, st.total, a);
    JoinMoved(st.main, st'.main, st.workers, st.chunks);
    MainMoved(w, st, st'.main);
  }

  // ------------------------------------------------------------- every step

  lemma StepInv(w: World, st: State, a: Action)
    requires WorldOk(w) && Enabled(w, st, a) && Inv(w, st)
    ensures Inv(w, Next(w, st, a))
  {
    hide Inv, SourceEnabled, WorkerEnabled, MainEnabled, CallEnabled, SourceNext, WorkerNext, MainNext, CallNext,
      Streams;
    var st' := Next(w, st, a);
    if SourceAction(a) {
      SourceStepInv(w, st, a);
    } else if WorkerAction(a) {
      WorkerStepInv(w, st, a, st');
    } else if CallAction(a) {
      CallInv(w, st, a, st');
    } else {
      MainStepInv(w, st, a, st');
    }
  }

  lemma MainStepInv(w: World, st: State, a: Action, st': State)
    requires !SourceAction(a) && !WorkerAction(a) && !CallAction(a) && MainEnabled(w, st, a)
    requires st' == MainNext(w, st, a)
    requires w.partSize > 0 && Inv(w, st)
    ensures Inv(w, st')
  {
    hide Inv, MainEnabled, MainNext, AfterChunk;
    match a
    case Take(buf) => TakeInv(w, st, buf, st');
    case Read(k) => ReadInv(w, st, k, st');
    case GiveBack => GiveBackInv(w, st, st');
    case FreeSlot => FreeSlotInv(w, st, st');
    case Joined => JoinedInv(w, st, st');
    case Dispatch =>
      if |st.workers| == MAX_PARTS {
        TooManyPartsInv(w, st, st');
      } else {
        PartsBounded(w, st);
        DispatchInv(w, st, st');
      }
    case _ =>
      if a.CreateReply? || a.Cancel? || a.Watch? {
        SignalInv(w, st, a, st');
      } else if a.EndOfStream? || a.ReadFails? {
        EndReadInv(w, st, a, st');
      } else {
        SlotInv(w, st, a, st');
      }
  }

  lemma PartsBounded(w: World, st: State)
    requires Inv(w, st)
    ensures |st.workers| <= MAX_PARTS
  {
  }

  lemma {:induction false} RunInv(w: World, st: State, actions: seq<Action>, st': State)
    requires WorldOk(w) && Inv(w, st) && Leads(w, st, actions, st')
    ensures Inv(w, st')
    decreases |actions|
  {
    hide WorldOk, Inv, Enabled, Next;
    if actions == [] {
    } else {
      StepInv(w, st, actions[0]);
      RunInv(w, Next(w, st, actions[0]), actions[1..], st');
    }
  }

  lemma ReachableInv(w: World, st: State)
    requires WorldOk(w) && Reachable(w, st)
    ensures Inv(w, st)
  {
    hide WorldOk, Inv, Enabled, Next, Leads;
    var st0, actions :| Initial(st0) && Leads(w, st0, actions, st);
    InitialInv(w, st0);
    RunInv(w, st0, actions, st);
  }

  // ---------------------------------------------------------- main results

  /** The parts are those of the stream: numbered from 1 without a gap, all full but the
      last, at most 10000, all held by the server with these contents. */
  ghost predicate IsWholeUpload(w: World, st: State, list: seq<Part>) {
    && |list| <= MAX_PARTS
    && (forall i :: 0 <= i < |list| ==> list[i].number == i + 1)
    && (forall i :: 0 <= i < |list| ==> 0 < |list[i].tag| <= w.partSize)
    && (forall i :: 0 <= i < |list| - 1 ==> |list[i].tag| == w.partSize)
    && (forall pn :: 1 <= pn <= |list| ==> pn in st.sh.srv.stored && st.sh.srv.stored[pn] == list[pn - 1].tag)
    && Contents(list) == Ciphertext(w, st.src.printed)
  }

  lemma {:induction false} AllCounted(workers: seq<Worker>, chunks: seq<Bytes>)
    requires AllAdded(workers) && |workers| == |chunks|
    requires forall i :: 0 <= i < |workers| ==> workers[i].n == |chunks[i]|
    ensures Sum(workers, Counted) == |Flat(chunks)|
  {
    if workers == [] {
    } else {
      var n := |workers| - 1;
      assert workers[n] in workers;
      AllCounted(workers[..n], chunks[..n]);
    }
  }

  lemma JoiningFacts(w: World, st: State)
    requires Inv(w, st) && Joining(st.main)
    ensures st.src.process == Exited(true) && st.src.feed == Closed(true) && AllAdded(st.workers) && !st.sh.failed
    ensures st.hashed == Ciphertext(w, st.src.printed) && st.total == |st.hashed| == st.sh.uploaded
  {
    hide Sum, Flat, Sized, BuffersOk, ListedOk, SemOk, Counted, ServerOk, PhaseOk;
    assert st.src.printed[..st.src.copied] == st.src.printed;
    WorkersLength(st.workers, st.chunks, st.sh.srv.stored);
    AllCounted(st.workers, st.chunks);
    forall i | 0 <= i < |st.workers|
      ensures st.workers[i].step != Gone(false)
    {
      assert st.workers[i] in st.workers;
    }
  }

  lemma JoinedChunks(w: World, st: State)
    requires Inv(w, st) && Joining(st.main)
    ensures st.hashed == Flat(st.chunks) && Sized(w.partSize, st.chunks) && |st.chunks| <= MAX_PARTS
    ensures st.main.Completing? ==> st.main.list == FullList(st.chunks)
    ensures WorkersOk(st.workers, st.chunks, st.sh.srv.stored)
  {
    hide Sum, Flat, Sized, BuffersOk, ListedOk, SemOk, ServerOk, PhaseOk, WorkersOk, SourceOk, DrawnOk, FullList,
      FailOk;
  }

  lemma FullListIsWhole(w: World, st: State)
    requires Inv(w, st) && st.main.Completing?
    ensures IsWholeUpload(w, st, st.main.list)
  {
    hide Inv, Flat, WorkersOk, Ciphertext, Contents, AllAdded;
    JoiningFacts(w, st);
    JoinedChunks(w, st);
    FullContents(st.chunks);
    PartsStored(st.workers, st.chunks, st.sh.srv.stored);
  }

  lemma PartsStored(workers: seq<Worker>, chunks: seq<Bytes>, stored: map<nat, Bytes>)
    requires WorkersOk(workers, chunks, stored) && AllAdded(workers)
    ensures forall pn :: 1 <= pn <= |chunks| ==> pn in stored && stored[pn] == chunks[pn - 1]
  {
    forall pn | 1 <= pn <= |chunks|
      ensures pn in stored && stored[pn] == chunks[pn - 1]
    {
      assert workers[pn - 1] in workers && WorkerOk(workers[pn - 1], pn - 1, chunks[pn - 1], stored);
    }
  }

  /** When the upload is completed no part is in flight, the list is the whole stream of a
      dump that exited successfully, and hash, size and progress agree with it. */
  lemma CompleteIsSound(w: World, st: State)
    requires WorldOk(w) && Reachable(w, st) && st.main.Completing?
    ensures st.src.process == Exited(true) && st.src.feed == Closed(true)
    ensures forall x :: x in st.workers ==> x.step == Gone(true)
    ensures |st.main.list| <= 10000
    ensures forall i :: 0 <= i < |st.main.list| ==>
              var part := st.main.list[i];
              && part.number == i + 1 && 0 < |part.tag| <= w.partSize
              && (i < |st.main.list| - 1 ==> |part.tag| == w.partSize)
              && part.number in st.sh.srv.stored && st.sh.srv.stored[part.number] == part.tag
    ensures Contents(st.main.list) == st.hashed == w.age.whole(w.zstd.whole(st.src.printed))
    ensures st.total == |st.hashed| == st.sh.uploaded
  {
    hide WorldOk, Inv, Reachable, Contents;
    ReachableInv(w, st);
    JoiningFacts(w, st);
    FullListIsWhole(w, st);
  }

  /** Whatever object or manifest exists, at any time, is that of the whole dump. */
  lemma StoredIsWhole(w: World, st: State)
    requires WorldOk(w) && Reachable(w, st)
    ensures st.sh.srv.content.Some? ==>
      st.src.process == Exited(true) && st.sh.srv.content.value == w.age.whole(w.zstd.whole(st.src.printed))
    ensures st.sh.srv.manifest.Some? ==>
      st.sh.srv.content.Some? && st.sh.srv.manifest.value == Record(|st.sh.srv.content.value|, st.sh.srv.content.value)
  {
    hide WorldOk, Reachable, Sum, Flat, SourceOk, DrawnOk, ChunksOk, BuffersOk, WorkersOk, ListedOk, SemOk, FailOk,
      PhaseOk, JoinOk;
    ReachableInv(w, st);
    if st.sh.srv.content.Some? {
      JoiningFacts(w, st);
    }
  }

  /** A run without error stored both, says so, and counted every byte. */
  lemma DoneIsSound(w: World, st: State)
    requires WorldOk(w) && Reachable(w, st) && st.main.Done?
    ensures var c := w.age.whole(w.zstd.whole(st.src.printed));
            && st.src.process == Exited(true)
            && st.sh.srv.content == Some(c) && st.sh.srv.manifest == Some(Record(|c|, c))
            && st.main == Done(|c|, c) && st.sh.uploaded == |c| && st.phase == Finished
  {
    hide WorldOk, Reachable, Sum, Flat, SourceOk, DrawnOk, ChunksOk, BuffersOk, WorkersOk, ListedOk, SemOk, FailOk,
      JoinOk;
    ReachableInv(w, st);
    JoiningFacts(w, st);
  }

  /** A failed run leaves an object only if HEAD denied one that existed, or if only the
      manifest failed; a manifest only if that write's reply was lost. */
  lemma FailedLeaves(w: World, st: State)
    requires WorldOk(w) && Reachable(w, st) && st.main.Failed?
    ensures st.sh.srv.content.Some? <==> st.main.cause == AtManifest || (st.main.cause == AtComplete && st.missed)
    ensures st.sh.srv.manifest.Some? ==> st.main.cause == AtManifest
    ensures st.phase != Finished
  {
    hide WorldOk, Reachable, Sum, Flat, SourceOk, DrawnOk, ChunksOk, BuffersOk, WorkersOk, ListedOk, SemOk, FailOk,
      JoinOk;
    ReachableInv(w, st);
  }

  /** After a failed part, or a dump that did not exit successfully, nothing is completed. */
  lemma FailureCompletesNothing(w: World, st: State)
    requires WorldOk(w) && Reachable(w, st)
    requires st.sh.failed || st.src.process == Exited(false) || st.src.feed == Closed(false)
    ensures st.sh.srv.content == None && st.sh.srv.manifest == None && !st.main.Completing? && !st.main.Done?
  {
    hide WorldOk, Reachable, Sum, Flat, SourceOk, DrawnOk, ChunksOk, BuffersOk, WorkersOk, ListedOk, SemOk, FailOk,
      PhaseOk, JoinOk;
    ReachableInv(w, st);
    if Joining(st.main) {
      JoiningFacts(w, st);
    }
  }

  // -------------------------------------------------- slots and buffers

  /** The buffers the reader and the workers hold. */
  ghost function Held(st: State): set<nat> {
    (if MainHasBuffer(st.main) then {st.main.buf} else {}) + WorkersHold(st.workers)
  }

  ghost function WorkersHold(workers: seq<Worker>): set<nat> {
    set i | 0 <= i < |workers| && HasBuffer(workers[i].step) :: workers[i].step.buf
  }

  lemma {:induction false} HoldersBound(workers: seq<Worker>)
    ensures |WorkersHold(workers)| <= Sum(workers, Holds)
  {
    if workers != [] {
      var n := |workers| - 1;
      HoldersBound(workers[..n]);
      var front, last := WorkersHold(workers[..n]), if HasBuffer(workers[n].step) then {workers[n].step.buf} else {};
      assert WorkersHold(workers) == front + last;
      assert |front + last| <= |front| + |last|;
    } else {
      assert WorkersHold(workers) == {};
    }
  }

  lemma HeldBound(w: World, st: State)
    requires Inv(w, st)
    ensures st.sh.sem == Sum(st.workers, Holds) + (if MainHolds(st.main) then 1 else 0) && st.sh.sem <= w.slots
    ensures |Held(st)| <= w.slots && Held(st) !! st.sh.pool
  {
    hide SourceOk, DrawnOk, ChunksOk, WorkersOk, ListedOk, FailOk, OutcomeOk, Sum, HasBuffer;
    HoldersBound(st.workers);
    var mine := if MainHasBuffer(st.main) then {st.main.buf} else {};
    assert |mine + WorkersHold(st.workers)| <= |mine| + |WorkersHold(st.workers)|;
  }

  lemma InvBuffers(w: World, st: State)
    requires Inv(w, st)
    ensures |st.workers| == |st.chunks| && Flat(st.chunks) == st.hashed && st.hashed <= st.src.drawn
    ensures forall i, j :: 0 <= i < j < |st.workers| ==>
              HasBuffer(st.workers[i].step) && HasBuffer(st.workers[j].step) ==>
              st.workers[i].step.buf != st.workers[j].step.buf
    ensures forall i :: 0 <= i < |st.workers| && st.workers[i].step.Sending? ==>
              st.workers[i].step.buf in st.mem
                  && st.workers[i].step.sent <= st.chunks[i] <= st.mem[st.workers[i].step.buf]
  {
    hide SourceOk, ListedOk, FailOk, OutcomeOk, SemOk, Sum, Flat, WorkerOk;
    forall i | 0 <= i < |st.workers| && st.workers[i].step.Sending?
      ensures st.workers[i].step.sent <= st.chunks[i]
    {
      SentOk(st.workers[i], i, st.chunks[i], st.sh.srv.stored);
    }
  }

  lemma SentOk(x: Worker, i: nat, chunk: Bytes, stored: map<nat, Bytes>)
    requires WorkerOk(x, i, chunk, stored) && x.step.Sending?
    ensures x.step.sent <= chunk
  {
  }

  /** Occupancy of the semaphore is the workers in flight and the reader's slot, at most
      `slots` buffers are out, none is both out and in the pool or has two owners, and a
      worker sends, stores and lists its own chunk only. */
  lemma SlotsAndBuffers(w: World, st: State)
    requires WorldOk(w) && Reachable(w, st)
    ensures st.sh.sem == Sum(st.workers, Holds) + (if MainHolds(st.main) then 1 else 0) && st.sh.sem <= w.slots
    ensures |Held(st)| <= w.slots && Held(st) !! st.sh.pool
    ensures forall i, j :: 0 <= i < j < |st.workers| ==>
              HasBuffer(st.workers[i].step) && HasBuffer(st.workers[j].step) ==>
              st.workers[i].step.buf != st.workers[j].step.buf
    ensures |st.workers| == |st.chunks| && Flat(st.chunks) == st.hashed && st.hashed <= st.src.drawn
    ensures forall i :: 0 <= i < |st.workers| && st.workers[i].step.Sending? ==>
              st.workers[i].step.buf in st.mem
                  && st.workers[i].step.sent <= st.chunks[i] <= st.mem[st.workers[i].step.buf]
  {
    hide WorldOk, Reachable, Inv, Sum;
    ReachableInv(w, st);
    HeldBound(w, st);
    InvBuffers(w, st);
  }
}
