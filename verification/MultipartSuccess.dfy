/** A backup fails for a reason: a run in which nothing failed, nobody cancelled and the dump
    exited successfully can always go on without a failure, and ends in success unless its
    stream is too long or the server has nothing to complete. */
module MultipartSuccess {
  import opened Wrappers
  import opened PartLists
  import opened Multipart
  import opened MultipartSafety
  import opened MultipartProgress

  /** Something failed, or the run was cancelled from outside. */
  predicate Adverse(a: Action) {
    match a
    case Exit(ok) => !ok
    case CreateReply(_, ok) => !ok
    case CompleteReply(ok) => !ok
    case HeadReply(found) => !found
    case ManifestReply(ok) => !ok
    case _ => a.FeedBreaks? || a.Cancel? || a.Fail?
  }

  /** More was taken from the pipe than 10000 parts hold. */
  predicate TooLong(w: World, st: State) {
    |st.src.drawn| > 10000 * w.partSize
  }

  predicate NotFailed(s: Step) {
    s.Returning? || s.Releasing? || s.Leaving? || s.Gone? ==> s.ok
  }

  predicate NoneFailed(workers: seq<Worker>) {
    forall i :: 0 <= i < |workers| ==> NotFailed(workers[i].step)
  }

  predicate OnTrack(m: Main) {
    && !m.Heading? && !m.Aborting? && !m.Failed?
    && (m.GivingBack? || m.Freeing? || m.Waiting? ==> !m.err)
  }

  /** Nothing has failed so far. */
  predicate Good(st: State) {
    && st.src.process != Exited(false) && Alive(st.src.feed)
    && OnTrack(st.main) && NoneFailed(st.workers) && !st.sh.failed
    && (st.sh.cancelled || st.cut ==> Joining(st.main))
    && (st.sh.srv.open <==> !st.main.Creating? && st.sh.srv.content.None?)
  }

  lemma GoodSourceStep(w: World, st: State, a: Action)
    requires Inv(w, st) && Good(st) && SourceAction(a) && SourceEnabled(w, st.src, st.cut, a) && !Adverse(a)
    ensures Good(st.(src := SourceNext(st.src, a)))
  {
    hide Due, ChunksOk, BuffersOk, WorkersOk, ListedOk, SemOk, FailOk, OutcomeOk, Sum, NoneFailed;
  }

  lemma GoodWorkerStep(st: State, a: Action)
    requires Good(st) && WorkerAction(a) && a.i < |st.workers|
    requires WorkerEnabled(st.sh, st.mem, st.workers[a.i], a) && !Adverse(a)
    ensures Good(WorkerNext(st, a))
  {
    hide Alive, Joining, OnTrack, StepNext, SharedNext, WorkerEnabled, NotFailed, Adverse;
    GoodMove(st.sh, st.mem, st.workers[a.i], a);
  }

  lemma GoodMove(sh: Shared, mem: map<nat, Bytes>, x: Worker, a: Action)
    requires WorkerAction(a) && WorkerEnabled(sh, mem, x, a) && !Adverse(a) && NotFailed(x.step)
    ensures NotFailed(StepNext(sh, mem, x, a))
    ensures var sh' := SharedNext(sh, mem, x, a);
            && sh'.failed == sh.failed && sh'.cancelled == sh.cancelled
            && sh'.srv.open == sh.srv.open && sh'.srv.content == sh.srv.content
  {
  }

  lemma GoodCallStep(w: World, st: State, a: Action)
    requires Inv(w, st) && Good(st) && CallAction(a) && CallEnabled(st.main, st.sh.srv, a) && !Adverse(a)
    ensures Good(CallNext(st, a))
  {
    hide SourceOk, ChunksOk, BuffersOk, WorkersOk, ListedOk, SemOk, FailOk, JoinOk, PhaseOk, Sum, NoneFailed, Alive,
      Contents, DrawnOk;
  }

  /** A part beyond the last allowed one was read after that many full ones. */
  lemma BeyondLimit(w: World, st: State)
    requires Inv(w, st) && MainEnabled(w, st, Dispatch) && |st.workers| == MAX_PARTS
    requires w.partSize > 0
    ensures TooLong(w, st)
  {
    hide SourceOk, BuffersOk, ListedOk, SemOk, FailOk, OutcomeOk, Sum, Flat, Pending;
    WorkersLength(st.workers, st.chunks, st.sh.srv.stored);
    FullLength(w.partSize, st.chunks);
  }

  lemma {:induction false} FullLength(partSize: nat, chunks: seq<Bytes>)
    requires forall i :: 0 <= i < |chunks| ==> |chunks[i]| == partSize
    ensures |Flat(chunks)| == |chunks| * partSize
  {
    if chunks == [] {
    } else {
      var n := |chunks| - 1;
      FullLength(partSize, chunks[..n]);
      OneMore(n, partSize);
    }
  }

  lemma OneMore(n: nat, m: nat)
    ensures n * m + m == (n + 1) * m
  {
  }

  lemma CreatingHasNothing(w: World, st: State)
    requires Inv(w, st)
    ensures st.main.Creating? ==> st.sh.srv.content.None?
  {
    hide SourceOk, ChunksOk, BuffersOk, WorkersOk, ListedOk, SemOk, FailOk, DrawnOk, JoinOk, PhaseOk;
  }

  lemma GoodDispatch(w: World, st: State)
    requires MainEnabled(w, st, Dispatch) && w.partSize > 0 && Inv(w, st) && Good(st)
    ensures var st' := MainNext(w, st, Dispatch); Good(st') || TooLong(w, st')
  {
    hide Inv, Pending, Alive;
    if |st.workers| == MAX_PARTS {
      BeyondLimit(w, st);
    }
  }

  lemma GoodMainStep(w: World, st: State, a: Action)
    requires !SourceAction(a) && !WorkerAction(a) && !CallAction(a) && MainEnabled(w, st, a) && !Adverse(a)
    requires !a.Dispatch? && Inv(w, st) && Good(st)
    ensures Good(MainNext(w, st, a))
  {
    hide Inv, Pending, SortParts, Alive, NoneFailed, AfterChunk;
    CreatingHasNothing(w, st);
    assert a.ReadFails? ==> st.cut || !Alive(st.src.feed) by { FeedIsAlive(st.src.feed); }
  }

  lemma FeedIsAlive(f: Feed)
    requires Alive(f)
    ensures f != Closed(false)
  {
  }

  lemma GoodStep(w: World, st: State, a: Action)
    requires WorldOk(w) && Enabled(w, st, a) && Inv(w, st) && Good(st) && !Adverse(a)
    ensures Good(Next(w, st, a)) || TooLong(w, Next(w, st, a))
  {
    hide Inv, Good, Adverse, TooLong, SourceEnabled, WorkerEnabled, MainEnabled, CallEnabled, SourceNext, WorkerNext,
      MainNext, CallNext, Streams;
    if SourceAction(a) {
      GoodSourceStep(w, st, a);
    } else if WorkerAction(a) {
      GoodWorkerStep(st, a);
    } else if CallAction(a) {
      GoodCallStep(w, st, a);
    } else if a.Dispatch? {
      GoodDispatch(w, st);
    } else {
      GoodMainStep(w, st, a);
    }
  }

  /** What was taken from the pipe stays taken. */
  lemma DrawnGrows(w: World, st: State, a: Action)
    requires Enabled(w, st, a)
    ensures |st.src.drawn| <= |Next(w, st, a).src.drawn|
  {
    hide SourceEnabled, WorkerEnabled, CallEnabled, MainEnabled, MainNext, StepNext, SharedNext, AfterReply, AfterCall,
      AfterPhase;
    if !SourceAction(a) && !WorkerAction(a) && !CallAction(a) {
      DrawnGrowsMain(w, st, a);
    }
  }

  lemma DrawnGrowsMain(w: World, st: State, a: Action)
    requires !SourceAction(a) && !WorkerAction(a) && !CallAction(a) && MainEnabled(w, st, a)
    ensures |st.src.drawn| <= |MainNext(w, st, a).src.drawn|
  {
    hide Pending, SortParts;
  }

  lemma {:induction false} GoodRun(w: World, st: State, actions: seq<Action>, st': State)
    requires WorldOk(w) && Inv(w, st) && (Good(st) || TooLong(w, st)) && Leads(w, st, actions, st')
    requires forall a :: a in actions ==> !Adverse(a)
    ensures Inv(w, st') && (Good(st') || TooLong(w, st'))
    decreases |actions|
  {
    hide WorldOk, Inv, Good, Adverse, Enabled, Next;
    if actions == [] {
    } else {
      var next := Next(w, st, actions[0]);
      assert actions[0] in actions;
      StepInv(w, st, actions[0]);
      DrawnGrows(w, st, actions[0]);
      if !TooLong(w, st) {
        GoodStep(w, st, actions[0]);
      }
      GoodRun(w, next, actions[1..], st');
    }
  }

  /** Whatever the interleaving, a run without any failure that is over has succeeded, unless
      its stream did not fit into 10000 parts. */
  lemma GoodRunsSucceed(w: World, st0: State, actions: seq<Action>, st: State)
    requires WorldOk(w) && Initial(st0) && Leads(w, st0, actions, st)
    requires forall a :: a in actions ==> !Adverse(a)
    ensures st.main.Failed? ==> |st.src.drawn| > 10000 * w.partSize
    ensures st.sh.failed || st.src.feed == Closed(false) ==> |st.src.drawn| > 10000 * w.partSize
  {
    hide WorldOk, Inv, Leads, Adverse, NoneFailed;
    InitialInv(w, st0);
    InitialGood(st0);
    GoodRun(w, st0, actions, st);
  }

  lemma GoodWorkerGoes(w: World, st: State, i: nat) returns (a: Action)
    requires i < |st.workers| && !st.workers[i].step.Gone? && Inv(w, st) && Good(st)
    ensures Own(a) && Enabled(w, st, a) && !Adverse(a)
  {
    hide Inv, NoneFailed, Alive;
    WorkerFacts(w, st, i);
    OpenForWorkers(w, st, i);
    var x := st.workers[i];
    match x.step
    case Sending(_, sent, stored, _) =>
      a := if |sent| < x.n then Send(i, 1) else if stored then Succeed(i) else Store(i);
    case Counting(_, _) => a := Count(i);
    case Listing(_, _) => a := List(i);
    case Returning(_, _) => a := Return(i);
    case Releasing(_) => a := Release(i);
    case Leaving(_) => a := Leave(i);
  }

  /** While a part is in flight the upload is open. */
  lemma OpenForWorkers(w: World, st: State, i: nat)
    requires i < |st.workers| && !st.workers[i].step.Gone? && Inv(w, st) && Good(st)
    ensures st.sh.srv.open
  {
    hide SourceOk, BuffersOk, ListedOk, SemOk, FailOk, DrawnOk, PhaseOk, Sum, Flat, Sized, NoneFailed, Alive;
    assert st.workers[i] in st.workers;
    WorkersLength(st.workers, st.chunks, st.sh.srv.stored);
  }

  /** A list of parts to complete is accepted unless the stream is empty. */
  lemma GoodListAcceptable(w: World, st: State)
    requires WorldOk(w) && Inv(w, st) && st.main.Completing? && st.src.drawn != []
    ensures st.sh.srv.open ==> Acceptable(st.sh.srv, st.main.list)
  {
    hide Inv, WorldOk, Contents, Ciphertext, Streams;
    FullListIsWhole(w, st);
    NothingDrawn(w, st);
    var list := st.main.list;
    assert list == [] ==> Contents(list) == [] by { ContentsOfNone(); }
  }

  lemma ContentsOfNone()
    ensures Contents([]) == []
  {
  }

  lemma NothingDrawn(w: World, st: State)
    requires Inv(w, st) && st.main.Completing?
    ensures st.src.drawn == Ciphertext(w, st.src.printed)
  {
    hide Sum, Flat, Sized, BuffersOk, ListedOk, SemOk, OutcomeOk, ChunksOk, WorkersOk, FailOk;
    assert st.src.printed[..st.src.copied] == st.src.printed;
  }

  /** Calls succeed when the server has what they need. */
  lemma GoodCallGoes(w: World, st: State) returns (a: Action)
    requires st.main.Completing? || st.main.Publishing?
    requires st.main.Completing? && st.sh.srv.content.None? ==> Acceptable(st.sh.srv, st.main.list)
    ensures Enabled(w, st, a) && CallAction(a) && !Adverse(a)
  {
    match st.main
    case Completing(_) => a := if st.sh.srv.content.Some? then CompleteReply(true) else CompleteEffect;
    case Publishing(sent) => a := if sent then ManifestReply(true) else ManifestEffect;
  }

  lemma GoodReaderGoes(w: World, st: State) returns (a: Action)
    requires WorldOk(w) && Inv(w, st) && st.main.Filling? && !Stalled(w, st) && Good(st)
    ensures Enabled(w, st, a) && (Own(a) || Feeding(a)) && !Adverse(a)
  {
    hide Inv, Due, Pending, Stalled, SourceEnabled, WorkerEnabled, CallEnabled, Streams, NoneFailed;
    CallerFacts(w, st);
    var m, feed := st.main, st.src.feed;
    if m.n == w.partSize {
      a := Dispatch;
    } else if feed == Closed(true) {
      a := if m.n == 0 then EndOfStream else Dispatch;
    } else if Pending(w, st.src) != [] {
      a := Read(1);
    } else {
      a := FeedCanStep(w, st);
    }
  }

  lemma GoodLoopGoes(w: World, st: State) returns (a: Action)
    requires st.main.Creating? || (st.main.Acquiring? && st.sh.sem < w.slots) || st.main.Taking? || st.main.GivingBack?
             || (st.main.Freeing? && st.sh.sem > 0) || (st.main.Waiting? && AllGone(st.workers))
    ensures Enabled(w, st, a) && Own(a) && !Adverse(a)
  {
    hide SourceEnabled, WorkerEnabled, CallEnabled, Pending;
    match st.main
    case Creating => a := CreateReply(true, true);
    case Acquiring => a := Acquire;
    case Taking =>
      var buf := Unused(st.mem.Keys);
      a := Take(buf);
    case GivingBack(_, _) => a := GiveBack;
    case Freeing(_) => a := FreeSlot;
    case Waiting(_) => a := Joined;
  }

  lemma GoodStateGoes(w: World, st: State) returns (a: Action)
    requires WorldOk(w) && Inv(w, st) && Good(st) && !st.main.Done? && !Stalled(w, st)
    requires st.main.Completing? ==> st.src.drawn != []
    ensures Enabled(w, st, a) && (Own(a) || Feeding(a)) && !Adverse(a)
  {
    hide WorldOk, Inv, Enabled, Stalled, Adverse, NoneFailed, Feeding, Alive, Acceptable;
    CallerFacts(w, st);
    if st.main.Filling? {
      a := GoodReaderGoes(w, st);
    } else if st.main.Completing? || st.main.Publishing? {
      if st.main.Completing? {
        GoodListAcceptable(w, st);
      }
      a := GoodCallGoes(w, st);
    } else if st.main.Waiting? {
      if i: nat :| i < |st.workers| && !st.workers[i].step.Gone? {
        a := GoodWorkerGoes(w, st, i);
      } else {
        a := GoodLoopGoes(w, st);
      }
    } else if st.main.Acquiring? && st.sh.sem >= w.slots {
      var i := FullMeansBusy(w, st);
      a := GoodWorkerGoes(w, st, i);
    } else {
      a := GoodLoopGoes(w, st);
    }
  }

  /** A run without any failure can go on without one until it is over, unless the dump
      stalls, the stream is too long, or there is nothing to complete. */
  lemma GoodRunsGoOn(w: World, st0: State, actions: seq<Action>, st: State) returns (a: Action)
    requires WorldOk(w) && Initial(st0) && Leads(w, st0, actions, st)
    requires forall a :: a in actions ==> !Adverse(a)
    requires !st.main.Done? && |st.src.drawn| <= 10000 * w.partSize
    requires !Stalled(w, st) && (st.main.Completing? ==> st.src.drawn != [])
    ensures Enabled(w, st, a) && (Own(a) || Feeding(a)) && !Adverse(a)
  {
    hide WorldOk, Inv, Leads, Adverse, NoneFailed, Stalled, Enabled, Own, Feeding, Alive;
    InitialInv(w, st0);
    InitialGood(st0);
    GoodRun(w, st0, actions, st);
    a := GoodStateGoes(w, st);
  }

  lemma InitialGood(st: State)
    requires Initial(st)
    ensures Good(st)
  {
  }

  // -------------------------------------------------- what a failed run tries

  /** How often the abort was called. */
  function Aborts(actions: seq<Action>): nat {
    if actions == [] then 0 else (if actions[0].AbortCall? then 1 else 0) + Aborts(actions[1..])
  }

  /** k aborts so far fit where the caller is. */
  predicate AbortsFit(m: Main, open: bool, k: nat) {
    match m
    case Aborting(left, asked, cause) =>
      1 <= left <= 3 && k + left == 3 + (if asked then 1 else 0) && (cause == AtStream || cause == AtComplete)
    case Failed(cause) =>
      if cause == AtStream || cause == AtComplete then 1 <= k <= 3 && (open ==> k == 3) else k == 0
    case _ => k == 0
  }

  lemma CallAbortsFit(m: Main, srv: Server, record: Record, a: Action, k: nat)
    requires CallAction(a) && CallEnabled(m, srv, a) && AbortsFit(m, srv.open, k)
    ensures AbortsFit(AfterReply(m, srv, record, a), AfterCall(m, srv, record, a).open,
                      k + if a.AbortCall? then 1 else 0)
  {
  }

  lemma MainAbortsFit(w: World, st: State, a: Action, k: nat)
    requires !SourceAction(a) && !WorkerAction(a) && !CallAction(a) && MainEnabled(w, st, a)
    requires AbortsFit(st.main, st.sh.srv.open, k)
    ensures AbortsFit(MainNext(w, st, a).main, MainNext(w, st, a).sh.srv.open, k)
  {
    hide Pending, SortParts;
  }

  lemma StepAbortsFit(w: World, st: State, a: Action, k: nat)
    requires Enabled(w, st, a) && AbortsFit(st.main, st.sh.srv.open, k)
    ensures AbortsFit(Next(w, st, a).main, Next(w, st, a).sh.srv.open, k + if a.AbortCall? then 1 else 0)
  {
    hide AbortsFit, SourceEnabled, WorkerEnabled, MainEnabled, CallEnabled, SourceNext, MainNext, StepNext, AfterReply,
      AfterCall;
    if CallAction(a) {
      CallAbortsFit(st.main, st.sh.srv, Record(st.total, st.hashed), a, k);
    } else if !SourceAction(a) && !WorkerAction(a) {
      MainAbortsFit(w, st, a, k);
    }
  }

  lemma {:induction false} RunAbortsFit(w: World, st: State, actions: seq<Action>, st': State, k: nat)
    requires Leads(w, st, actions, st') && AbortsFit(st.main, st.sh.srv.open, k)
    ensures AbortsFit(st'.main, st'.sh.srv.open, k + Aborts(actions))
    decreases |actions|
  {
    hide AbortsFit, Enabled, Next;
    if actions == [] {
    } else {
      StepAbortsFit(w, st, actions[0], k);
      RunAbortsFit(w, Next(w, st, actions[0]), actions[1..], st', k + if actions[0].AbortCall? then 1 else 0);
    }
  }

  /** A run that fails while streaming or completing has called the abort once to three times,
      three times if the upload is still open; any other run has not called it at all. */
  lemma FailedRunsAbort(w: World, st0: State, actions: seq<Action>, st: State)
    requires Initial(st0) && Leads(w, st0, actions, st) && (st.main.Failed? || st.main.Done?)
    ensures if st.main == Failed(AtStream) || st.main == Failed(AtComplete)
            then 1 <= Aborts(actions) <= 3 && (st.sh.srv.open ==> Aborts(actions) == 3)
            else Aborts(actions) == 0
  {
    hide Leads, Aborts;
    RunAbortsFit(w, st0, actions, st, 0);
  }
}
