/** No backup gets stuck, and none runs forever. */
module MultipartProgress {
  import opened PartLists
  import opened Multipart
  import opened MultipartSafety

  // ---------------------------------------------------------------- a bound

  function Times(x: nat, y: nat): nat {
    x * y
  }

  /** The steps a worker may still take. */
  function WorkerRank(x: Worker): nat {
    match x.step
    case Sending(_, sent, stored, left) =>
      Times(left, x.n + 2) + (if |sent| <= x.n then x.n - |sent| else 0) + (if stored then 0 else 1) + 6
    case Counting(_, _) => 5
    case Listing(_, _) => 4
    case Returning(_, _) => 3
    case Releasing(_) => 2
    case Leaving(_) => 1
    case Gone(_) => 0
  }

  /** An upper bound for a new worker. */
  function WorkerCost(w: World): nat {
    Times(w.retries, w.partSize + 2) + w.partSize + 7
  }

  function PartCost(w: World): nat {
    WorkerCost(w) + w.partSize + 3
  }

  /** The steps of the read loop and what follows it, with `parts` still allowed. */
  function MainRank(w: World, m: Main, parts: nat): nat {
    match m
    case Creating => Times(parts, PartCost(w)) + w.partSize + 17
    case Acquiring => Times(parts, PartCost(w)) + w.partSize + 15
    case Taking => Times(parts, PartCost(w)) + w.partSize + 14
    case Filling(_, n) => Times(parts, PartCost(w)) + (if n <= w.partSize then w.partSize - n else 0) + 13
    case GivingBack(_, _) => 12
    case Freeing(_) => 11
    case Waiting(_) => 10
    case Completing(_) => 9
    case Heading => 8
    case Aborting(left, asked, _) => if left <= 3 then 2 * left + (if asked then 0 else 1) else 0
    case Publishing(sent) => if sent then 1 else 2
    case Done(_, _) => 0
    case Failed(_) => 0
  }

  function Rank(w: World, st: State): nat {
    MainRank(w, st.main, if |st.workers| <= MAX_PARTS then MAX_PARTS - |st.workers| else 0)
    + (if st.sh.srv.open then 1 else 0) + (if st.cut then 0 else 1)
    + Sum(st.workers, WorkerRank)
  }

  /** A step of the uploader or a reply to it, as opposed to one of the dump, of the feed, or
      a cancellation from outside. */
  predicate Own(a: Action) {
    !SourceAction(a) && !a.Cancel?
  }

  lemma TimesGrows(x: nat, a: nat, b: nat)
    requires a <= b
    ensures Times(x, a) <= Times(x, b)
  {
  }

  lemma TimesStep(n: nat, c: nat)
    requires n > 0
    ensures Times(n, c) == Times(n - 1, c) + c
  {
  }

  lemma WorkerRankFalls(sh: Shared, mem: map<nat, Bytes>, x: Worker, a: Action)
    requires WorkerAction(a) && WorkerEnabled(sh, mem, x, a)
    requires x.step.Sending? ==> |x.step.sent| <= x.n
    ensures WorkerRank(x.(step := StepNext(sh, mem, x, a))) < WorkerRank(x)
  {
    hide Times;
    if a.Retry? {
      TimesStep(x.step.left, x.n + 2);
    }
  }

  lemma WorkerStepFalls(w: World, st: State, a: Action, st': State)
    requires WorkerAction(a) && a.i < |st.workers| && WorkerEnabled(st.sh, st.mem, st.workers[a.i], a)
    requires st' == WorkerNext(st, a) && Inv(w, st)
    ensures Rank(w, st') < Rank(w, st)
  {
    hide SourceOk, DrawnOk, ChunksOk, BuffersOk, ListedOk, SemOk, FailOk, OutcomeOk, Sum, MainRank, WorkerRank,
      WorkerEnabled, StepNext, SharedNext;
    var x := st.workers[a.i];
    assert WorkerOk(x, a.i, st.chunks[a.i], st.sh.srv.stored);
    WorkerShape(st.sh, st.mem, x, a);
    WorkerRankFalls(st.sh, st.mem, x, a);
    SumUpdate(st.workers, WorkerRank, a.i, st'.workers[a.i]);
  }

  lemma CallFalls(m: Main, srv: Server, record: Record, a: Action, w: World, parts: nat)
    requires CallAction(a) && CallEnabled(m, srv, a)
    requires m.Aborting? ==> m.left <= 3
    ensures var m', srv' := AfterReply(m, srv, record, a), AfterCall(m, srv, record, a);
            MainRank(w, m', parts) + (if srv'.open then 1 else 0) < MainRank(w, m, parts) + (if srv.open then 1 else 0)
  {
    hide PartCost, Times;
  }

  lemma NewWorkerFalls(w: World, parts: nat, n: nat)
    requires n <= w.partSize && parts > 0
    ensures Times(w.retries, n + 2) + n + 7 <= WorkerCost(w)
    ensures Times(parts, PartCost(w)) == Times(parts - 1, PartCost(w)) + PartCost(w)
  {
    TimesGrows(w.retries, n + 2, w.partSize + 2);
    TimesStep(parts, PartCost(w));
  }

  lemma DispatchFalls(w: World, st: State, st': State)
    requires MainEnabled(w, st, Dispatch) && st' == MainNext(w, st, Dispatch)
    requires |st.workers| <= MAX_PARTS && (st.main.Filling? ==> st.main.n <= w.partSize)
    ensures Rank(w, st') < Rank(w, st)
  {
    hide Sum, WorkerCost, Times, Pending;
    if |st.workers| < MAX_PARTS {
      var parts := MAX_PARTS - |st.workers|;
      var x := Worker(st.main.n, Sending(st.main.buf, [], false, w.retries));
      SumAppend(st.workers, WorkerRank, x);
      NewWorkerFalls(w, parts, st.main.n);
      assert st'.workers == st.workers + [x];
    }
  }

  lemma MainFalls(w: World, st: State, a: Action, st': State)
    requires !SourceAction(a) && !WorkerAction(a) && !CallAction(a) && !a.Cancel? && !a.Dispatch?
    requires MainEnabled(w, st, a) && st' == MainNext(w, st, a)
    requires |st.workers| <= MAX_PARTS
    ensures Rank(w, st') < Rank(w, st)
  {
    hide Sum, PartCost, Pending, SortParts, Times;
  }

  /** Every step of the uploader brings its end nearer. */
  lemma OwnStepFalls(w: World, st: State, a: Action, st': State)
    requires Enabled(w, st, a) && st' == Next(w, st, a) && Own(a) && Inv(w, st)
    ensures Rank(w, st') < Rank(w, st)
  {
    hide SourceOk, DrawnOk, BuffersOk, WorkersOk, ListedOk, SemOk, FailOk, Sum, PartCost, MainEnabled, MainNext,
      WorkerNext,
      WorkerEnabled, CallEnabled, Flat, Sized, JoinOk, ServerOk, AfterReply, AfterCall, MainRank;
    if WorkerAction(a) {
      WorkerStepFalls(w, st, a, st');
    } else if CallAction(a) {
      WorkersBounded(w, st);
      CallFalls(st.main, st.sh.srv, Record(st.total, st.hashed), a, w, MAX_PARTS - |st.workers|);
    } else {
      WorkersBounded(w, st);
      if a.Dispatch? {
        DispatchFalls(w, st, st');
      } else {
        MainFalls(w, st, a, st');
      }
    }
  }

  lemma WorkersBounded(w: World, st: State)
    requires Inv(w, st)
    ensures |st.workers| <= MAX_PARTS
    ensures st.main.Filling? ==> st.main.n <= w.partSize
  {
  }

  lemma OtherStepStays(w: World, st: State, a: Action, st': State)
    requires Enabled(w, st, a) && st' == Next(w, st, a) && !Own(a)
    ensures Rank(w, st') == Rank(w, st)
  {
    hide Sum, MainRank, SourceEnabled, SourceNext;
  }

  function OwnSteps(actions: seq<Action>): nat {
    if actions == [] then 0 else (if Own(actions[0]) then 1 else 0) + OwnSteps(actions[1..])
  }

  lemma {:induction false} OwnStepsBounded(w: World, st: State, actions: seq<Action>, st': State)
    requires WorldOk(w) && Inv(w, st) && Leads(w, st, actions, st')
    ensures OwnSteps(actions) + Rank(w, st') <= Rank(w, st)
    decreases |actions|
  {
    hide WorldOk, Inv, Enabled, Next, Rank, Own;
    if actions == [] {
    } else {
      var next := Next(w, st, actions[0]);
      StepInv(w, st, actions[0]);
      if Own(actions[0]) {
        OwnStepFalls(w, st, actions[0], next);
      } else {
        OtherStepStays(w, st, actions[0], next);
      }
      OwnStepsBounded(w, next, actions[1..], st');
    }
  }

  /** However steps interleave, the uploader takes at most this many in all. */
  lemma RunsEnd(w: World, st0: State, actions: seq<Action>, st: State)
    requires WorldOk(w) && Initial(st0) && Leads(w, st0, actions, st)
    ensures OwnSteps(actions) <= Times(MAX_PARTS, PartCost(w)) + w.partSize + 18
  {
    hide PartCost, Leads, Times;
    InitialInv(w, st0);
    OwnStepsBounded(w, st0, actions, st);
    assert Sum(st0.workers, WorkerRank) == 0;
  }

  // -------------------------------------------------------- never stuck

  /** Everything drawn, nothing due: the read loop waits for a dump that neither prints nor exits. */
  predicate Stalled(w: World, st: State) {
    && st.main.Filling? && st.main.n < w.partSize && !st.cut && !st.sh.cancelled
    && Pending(w, st.src) == []
    && ((st.src.feed.Copying? && st.src.copied == |st.src.printed| && st.src.process.Printing?)
        || (st.src.feed.Reaping? && !st.src.process.Exited?))
  }

  /** A step of the feed goroutine. */
  predicate Feeding(a: Action) {
    SourceAction(a) && !a.Print? && !a.CloseStdout? && !a.Exit? && !a.FeedBreaks?
  }

  predicate Finished(m: Main) {
    m.Done? || m.Failed?
  }

  lemma {:induction false} Unused(s: set<nat>) returns (n: nat)
    ensures forall x :: x in s ==> x < n
    decreases s
  {
    if s == {} {
      n := 0;
    } else {
      var x :| x in s;
      var m := Unused(s - {x});
      n := if x < m then m else x + 1;
      forall y | y in s
        ensures y < n
      {
        assert y == x || y in s - {x};
      }
    }
  }

  lemma WorkerFacts(w: World, st: State, i: nat)
    requires i < |st.workers| && Inv(w, st)
    ensures var x := st.workers[i];
            && (x.step.Sending? ==> |x.step.sent| <= x.n && x.step.buf in st.mem && x.n <= |st.mem[x.step.buf]|)
            && (x.step.Releasing? ==> st.sh.sem > 0)
  {
    hide SourceOk, DrawnOk, ChunksOk, ListedOk, FailOk, OutcomeOk, Sum;
    SumAtLeast(st.workers, Holds, i);
    assert WorkerOk(st.workers[i], i, st.chunks[i], st.sh.srv.stored);
  }

  lemma WorkerCanStep(w: World, st: State, i: nat) returns (a: Action)
    requires i < |st.workers| && !st.workers[i].step.Gone? && Inv(w, st)
    ensures WorkerAction(a) && Enabled(w, st, a)
  {
    hide Inv;
    WorkerFacts(w, st, i);
    var x := st.workers[i];
    match x.step
    case Sending(buf, sent, _, _) => a := if |sent| < x.n then Send(i, 1) else Fail(i);
    case Counting(_, _) => a := Count(i);
    case Listing(_, _) => a := List(i);
    case Returning(_, _) => a := Return(i);
    case Releasing(_) => a := Release(i);
    case Leaving(_) => a := Leave(i);
  }

  lemma CallerFacts(w: World, st: State)
    requires Inv(w, st)
    ensures st.src.copied <= |st.src.printed|
    ensures st.main.Acquiring? ==> st.sh.sem <= w.slots
    ensures st.main.Freeing? ==> st.sh.sem > 0
    ensures st.main.Aborting? ==> st.main.left > 0
    ensures st.main.Filling? ==>
      st.main.buf in st.mem && |st.mem[st.main.buf]| == w.partSize && st.main.n <= w.partSize
  {
    hide ChunksOk, ListedOk, FailOk, WorkersOk, JoinOk, ServerOk, Sum, Due;
  }

  /** A full semaphore means that some worker is in flight. */
  lemma FullMeansBusy(w: World, st: State) returns (i: nat)
    requires WorldOk(w) && Inv(w, st) && st.main.Acquiring? && st.sh.sem == w.slots
    ensures i < |st.workers| && !st.workers[i].step.Gone?
  {
    hide SourceOk, DrawnOk, ChunksOk, BuffersOk, WorkersOk, ListedOk, FailOk, OutcomeOk, Sum;
    SumZero(st.workers, Holds);
    i :| 0 <= i < |st.workers| && Holds(st.workers[i]) > 0;
  }

  /** With nothing left to draw, the feed can move unless it waits for the dump. */
  lemma FeedCanStep(w: World, st: State) returns (a: Action)
    requires st.src.copied <= |st.src.printed| && st.main.Filling? && st.main.n < w.partSize
    requires !st.cut && !st.sh.cancelled
    requires Pending(w, st.src) == [] && !st.src.feed.Closed? && !Stalled(w, st)
    ensures Feeding(a) && SourceEnabled(w, st.src, st.cut, a)
  {
    hide Pending;
    match st.src.feed
    case Starting => a := StartCopy;
    case Copying => a := if st.src.copied < |st.src.printed| then Copy(1) else CopyDone;
    case Reaping(_) => a := Reap;
    case ClosingZstd => a := ZstdClosed;
    case ClosingAge => a := AgeClosed;
  }

  /** The reader in io.ReadFull, or what feeds it, can move, or the dump stalls. */
  lemma ReaderCanStep(w: World, st: State) returns (a: Action)
    requires WorldOk(w) && Inv(w, st) && st.main.Filling? && !Stalled(w, st)
    ensures Enabled(w, st, a) && (Own(a) || (Feeding(a) && !st.sh.cancelled))
  {
    hide Inv, Due, Pending, Stalled, SourceEnabled, WorkerEnabled, CallEnabled, Streams;
    CallerFacts(w, st);
    var m, feed := st.main, st.src.feed;
    if m.n == w.partSize {
      a := Dispatch;
    } else if st.cut || feed == Closed(false) {
      a := ReadFails;
    } else if feed == Closed(true) {
      a := if m.n == 0 then EndOfStream else Dispatch;
    } else if st.sh.cancelled {
      a := Watch;
    } else if Pending(w, st.src) != [] {
      a := Read(1);
    } else {
      a := FeedCanStep(w, st);
    }
  }

  /** A call under way gets a reply, if only an error. */
  lemma CallCanStep(w: World, st: State) returns (a: Action)
    requires st.main.Completing? || st.main.Heading? || (st.main.Aborting? && st.main.left > 0) || st.main.Publishing?
    ensures Enabled(w, st, a) && CallAction(a)
  {
    match st.main
    case Completing(_) => a := CompleteReply(false);
    case Heading => a := HeadReply(false);
    case Aborting(_, asked, _) => a := if asked then ListReply(false) else AbortCall(false);
    case Publishing(_) => a := ManifestReply(false);
  }

  /** The loop's own bookkeeping never waits. */
  lemma LoopCanStep(w: World, st: State) returns (a: Action)
    requires st.main.Creating? || (st.main.Acquiring? && st.sh.sem < w.slots) || st.main.Taking? || st.main.GivingBack?
             || (st.main.Freeing? && st.sh.sem > 0) || (st.main.Waiting? && AllGone(st.workers))
    ensures Enabled(w, st, a) && Own(a)
  {
    hide SourceEnabled, WorkerEnabled, CallEnabled, Pending;
    match st.main
    case Creating => a := CreateReply(false, false);
    case Acquiring => a := Acquire;
    case Taking =>
      var buf := Unused(st.mem.Keys);
      a := Take(buf);
    case GivingBack(_, _) => a := GiveBack;
    case Freeing(_) => a := FreeSlot;
    case Waiting(_) => a := Joined;
  }

  /** The caller outside the read can move, or waits for a worker that can. */
  lemma CallerCanStep(w: World, st: State) returns (a: Action)
    requires WorldOk(w) && Inv(w, st) && !st.main.Filling? && !Finished(st.main)
    ensures Enabled(w, st, a) && Own(a)
  {
    hide WorldOk, Inv, Enabled;
    CallerFacts(w, st);
    match st.main
    case Acquiring =>
      if st.sh.sem < w.slots {
        a := LoopCanStep(w, st);
      } else {
        var i := FullMeansBusy(w, st);
        a := WorkerCanStep(w, st, i);
      }
    case Waiting(_) =>
      if i: nat :| i < |st.workers| && !st.workers[i].step.Gone? {
        a := WorkerCanStep(w, st, i);
      } else {
        a := LoopCanStep(w, st);
      }
    case _ =>
      if st.main.Creating? || st.main.Taking? || st.main.GivingBack? || st.main.Freeing? {
        a := LoopCanStep(w, st);
      } else {
        a := CallCanStep(w, st);
      }
  }

  /** In every reachable unfinished state some step is possible unless the dump stalls, and
      once anything has been cancelled the uploader itself can step, stalled or not. */
  lemma NeverStuck(w: World, st: State) returns (a: Action)
    requires WorldOk(w) && Reachable(w, st) && !Finished(st.main) && !Stalled(w, st)
    ensures Enabled(w, st, a) && (Own(a) || (Feeding(a) && !st.sh.cancelled))
  {
    hide WorldOk, Inv, Reachable, Stalled, Enabled, Own, Feeding, Finished;
    ReachableInv(w, st);
    if st.main.Filling? {
      a := ReaderCanStep(w, st);
    } else {
      a := CallerCanStep(w, st);
    }
  }

  /** With no part in flight, a stalled dump is the one thing that blocks everything. */
  lemma StalledIsBlocked(w: World, st: State, a: Action)
    requires Stalled(w, st) && AllGone(st.workers) && (Own(a) || Feeding(a))
    ensures !Enabled(w, st, a)
  {
    hide Due, SortParts, Contents;
    if WorkerAction(a) && a.i < |st.workers| {
      assert st.workers[a.i] in st.workers;
    }
  }

  /** A failed part is never stalled: its cancellation closes the pipe and wakes the reader. */
  lemma FailureWakes(w: World, st: State)
    requires WorldOk(w) && Reachable(w, st) && st.sh.failed
    ensures !Stalled(w, st)
  {
    hide WorldOk, Reachable, SourceOk, DrawnOk, ChunksOk, BuffersOk, WorkersOk, ListedOk, SemOk, OutcomeOk,
      SomeFailed, Sum;
    ReachableInv(w, st);
  }
}
