/** Two runs that fail and leave something behind: an object whose completion HEAD denied,
    and a manifest whose reply was lost. */
module MultipartExample {
  import opened Wrappers
  import opened PartLists
  import opened Multipart

  /** Encoders that pass their input on, and parts of one byte sent one at a time. */
  function Plain(): World {
    World(1, 1, 0, Encoder((x: Bytes) => x, (x: Bytes) => x), Encoder((x: Bytes) => x, (x: Bytes) => x))
  }

  lemma PlainIsOk()
    ensures WorldOk(Plain())
  {
  }

  lemma {:induction false} LeadsOn(w: World, st: State, actions: seq<Action>, st': State, a: Action)
    requires Leads(w, st, actions, st') && Enabled(w, st', a)
    ensures Leads(w, st, actions + [a], Next(w, st', a))
    decreases |actions|
  {
    hide Enabled, Next;
    if actions == [] {
      assert [] + [a] == [a] && [a][1..] == [];
      assert Leads(w, Next(w, st, a), [], Next(w, st', a));
    } else {
      LeadsOn(w, Next(w, st, actions[0]), actions[1..], st', a);
      assert (actions + [a])[1..] == actions[1..] + [a];
    }
  }

  lemma Reach(w: World, st: State, a: Action, st': State)
    requires Reachable(w, st) && Enabled(w, st, a) && st' == Next(w, st, a)
    ensures Reachable(w, st')
  {
    hide Enabled, Next, Initial;
    var st0, actions :| Initial(st0) && Leads(w, st0, actions, st);
    LeadsOn(w, st0, actions, st, a);
  }

  lemma ReachMain(st: State, a: Action, st': State)
    requires !SourceAction(a) && !WorkerAction(a) && !CallAction(a) && MainEnabled(Plain(), st, a)
    requires st' == MainNext(Plain(), st, a) && Reachable(Plain(), st)
    ensures Reachable(Plain(), st')
  {
    hide Reachable, MainEnabled, MainNext, Plain;
    Reach(Plain(), st, a, st');
  }

  lemma ReachCall(st: State, a: Action, st': State)
    requires CallAction(a) && CallEnabled(st.main, st.sh.srv, a) && st' == CallNext(st, a) && Reachable(Plain(), st)
    ensures Reachable(Plain(), st')
  {
    hide Reachable, CallEnabled, CallNext, Plain;
    Reach(Plain(), st, a, st');
  }

  lemma ReachWorker(st: State, a: Action, st': State)
    requires WorkerAction(a) && a.i < |st.workers| && WorkerEnabled(st.sh, st.mem, st.workers[a.i], a)
    requires st' == WorkerNext(st, a) && Reachable(Plain(), st)
    ensures Reachable(Plain(), st')
  {
    hide Reachable, WorkerEnabled, WorkerNext, Plain;
    Reach(Plain(), st, a, st');
  }

  const DUMP: Bytes := [0]

  /** The dump printed one byte and exited; the feed has copied it. */
  function Fed(): State {
    State(Source(Exited(true), DUMP, 1, Copying, []), false, Creating, Streaming, map[], [], 0, [],
          Shared(0, {}, [], 0, false, false, Server(false, map[], None, None)), [], false)
  }

  lemma FedIsReachable()
    ensures Reachable(Plain(), Fed())
  {
    var w := Plain();
    var src := Source(Printing, [], 0, Starting, []);
    var s0 := Fed().(src := src);
    assert Leads(w, s0, [], s0);
    var s1 := s0.(src := src.(printed := DUMP));
    var s2 := s1.(src := s1.src.(process := Exited(true)));
    var s3 := s2.(src := s2.src.(feed := Copying));
    Reach(w, s0, Print(DUMP), s1);
    Reach(w, s1, Exit(true), s2);
    Reach(w, s2, StartCopy, s3);
    Reach(w, s3, Copy(1), Fed());
  }

  /** The byte was read into the one buffer and handed to a worker. */
  function Dispatched(): State {
    Fed().(src := Fed().src.(drawn := DUMP), main := Acquiring, mem := map[0 := DUMP], hashed := DUMP, total := 1,
           workers := [Worker(1, Sending(0, [], false, 0))], chunks := [DUMP],
           sh := Shared(1, {}, [], 0, false, false, Server(true, map[], None, None)))
  }

  /** A slot and a new buffer are taken, nothing is read yet. */
  function Ready(): State {
    Fed().(main := Filling(0, 0), mem := map[0 := [0]], sh := Dispatched().sh)
  }

  lemma Taken(st: State)
    requires st.mem == map[] && st.main.Taking? && st.sh.pool == {}
    ensures MainNext(Plain(), st, Take(0)) == st.(main := Filling(0, 0), mem := map[0 := [0]])
  {
    var buf: Bytes := seq(1, _ => 0);
    assert buf == [0];
    assert st.mem[0 := buf] == map[0 := [0]];
    assert st.sh.pool - {0} == {};
  }

  lemma AcquiredIsReachable()
    ensures Reachable(Plain(), Ready().(main := Taking, mem := map[]))
  {
    hide Reachable;
    var s0 := Fed();
    FedIsReachable();
    var s1 := s0.(main := Acquiring, sh := s0.sh.(srv := Ready().sh.srv));
    ReachMain(s0, CreateReply(true, true), s1);
    ReachMain(s1, Acquire, s1.(main := Taking, sh := Ready().sh));
  }

  lemma ReadyIsReachable()
    ensures Reachable(Plain(), Ready())
  {
    hide Reachable, MainNext;
    AcquiredIsReachable();
    var s := Ready().(main := Taking, mem := map[]);
    Taken(s);
    ReachMain(s, Take(0), Ready());
  }

  /** The one byte is in the buffer. */
  function Filled(): State {
    Ready().(main := Filling(0, 1), src := Dispatched().src)
  }

  lemma FilledIsReachable()
    ensures Reachable(Plain(), Filled())
  {
    hide Reachable;
    ReadyIsReachable();
    assert Pending(Plain(), Ready().src) == DUMP && DUMP[..1] == DUMP && [] + DUMP == DUMP;
    var zero: Bytes := [0];
    assert zero[..0] + DUMP[..1] + zero[1..] == DUMP;
    assert Ready().mem[0 := DUMP] == Filled().mem;
    ReachMain(Ready(), Read(1), Filled());
  }

  lemma DispatchedIsReachable()
    ensures Reachable(Plain(), Dispatched())
  {
    hide Reachable;
    FilledIsReachable();
    assert DUMP[..1] == DUMP && [] + DUMP == DUMP && [] + [DUMP] == [DUMP];
    var x := Worker(1, Sending(0, [], false, 0));
    assert [] + [x] == [x];
    ReachMain(Filled(), Dispatch, Dispatched());
  }

  /** The worker has sent its part and gone. */
  function Sent(): State {
    Dispatched().(workers := [Worker(1, Gone(true))],
                  sh := Shared(0, {0}, [Part(1, DUMP)], 1, false, false, Server(true, map[1 := DUMP], None, None)))
  }

  /** The part is stored, counted and listed. */
  function PartListed(): State {
    var sh := Sent().sh.(sem := 1, pool := {});
    Dispatched().(workers := [Worker(1, Returning(0, true))], sh := sh)
  }

  function With(st: State, step: Step, sh: Shared): State {
    st.(workers := [Worker(1, step)], sh := sh)
  }

  lemma WorkerNextOf(st: State, from: Step, sh: Shared, a: Action)
    requires WorkerAction(a) && a.i == 0 && WorkerEnabled(sh, st.mem, Worker(1, from), a)
    ensures var x := Worker(1, from);
            WorkerNext(With(st, from, sh), a) == With(st, StepNext(sh, st.mem, x, a), SharedNext(sh, st.mem, x, a))
  {
    hide WorkerEnabled, StepNext, SharedNext, WorkerAction;
    var x := Worker(1, from);
    assert [x][0 := Worker(1, StepNext(sh, st.mem, x, a))] == [Worker(1, StepNext(sh, st.mem, x, a))];
  }

  /** One step of the only worker. */
  lemma Moves(st: State, from: Step, sh: Shared, a: Action, to: Step, sh': Shared)
    requires WorkerAction(a) && a.i == 0 && WorkerEnabled(sh, st.mem, Worker(1, from), a)
    requires to == StepNext(sh, st.mem, Worker(1, from), a) && sh' == SharedNext(sh, st.mem, Worker(1, from), a)
    requires Reachable(Plain(), With(st, from, sh))
    ensures Reachable(Plain(), With(st, to, sh'))
  {
    hide Reachable, WorkerEnabled, StepNext, SharedNext, Plain, WorkerAction, WorkerNext;
    WorkerNextOf(st, from, sh, a);
    ReachWorker(With(st, from, sh), a, With(st, to, sh'));
  }

  lemma StoredIsReachable()
    ensures var sh := Dispatched().sh.(srv := Sent().sh.srv);
            Reachable(Plain(), With(Dispatched(), Counting(0, DUMP), sh))
  {
    hide Reachable, Plain;
    DispatchedIsReachable();
    var s, sh := Dispatched(), Dispatched().sh;
    var stored := sh.(srv := Sent().sh.srv);
    assert s == With(s, Sending(0, [], false, 0), sh);
    Moves(s, Sending(0, [], false, 0), sh, Send(0, 1), Sending(0, DUMP, false, 0), sh);
    Moves(s, Sending(0, DUMP, false, 0), sh, Store(0), Sending(0, DUMP, true, 0), stored);
    Moves(s, Sending(0, DUMP, true, 0), stored, Succeed(0), Counting(0, DUMP), stored);
  }

  lemma ListedIsReachable()
    ensures Reachable(Plain(), PartListed())
  {
    hide Reachable, Plain;
    StoredIsReachable();
    var s, stored := Dispatched(), Dispatched().sh.(srv := Sent().sh.srv);
    var counted := stored.(uploaded := 1);
    Moves(s, Counting(0, DUMP), stored, Count(0), Listing(0, DUMP), counted);
    Moves(s, Listing(0, DUMP), counted, List(0), Returning(0, true), PartListed().sh);
  }

  lemma SentIsReachable()
    ensures Reachable(Plain(), Sent())
  {
    hide Reachable, Plain;
    ListedIsReachable();
    var s, sh := Dispatched(), PartListed().sh;
    Moves(s, Returning(0, true), sh, Return(0), Releasing(true), sh.(pool := {0}));
    Moves(s, Releasing(true), sh.(pool := {0}), Release(0), Leaving(true), Sent().sh);
    Moves(s, Leaving(true), Sent().sh, Leave(0), Gone(true), Sent().sh);
  }

  /** The feed has closed the pipe cleanly. */
  function Ended(): State {
    Sent().(src := Sent().src.(feed := Closed(true)))
  }

  lemma EndedIsReachable()
    ensures Reachable(Plain(), Ended())
  {
    hide Reachable;
    SentIsReachable();
    var w, s0 := Plain(), Sent();
    assert DUMP[..1] == DUMP;
    var s1 := s0.(src := s0.src.(feed := Reaping(false)));
    var s2 := s0.(src := s0.src.(feed := ClosingZstd));
    var s3 := s0.(src := s0.src.(feed := ClosingAge));
    Reach(w, s0, CopyDone, s1);
    Reach(w, s1, Reap, s2);
    Reach(w, s2, ZstdClosed, s3);
    Reach(w, s3, AgeClosed, Ended());
  }

  /** All parts are joined and the object is complete, its reply still to come. */
  function Completed(): State {
    Ended().(main := Completing([Part(1, DUMP)]),
             sh := Ended().sh.(cancelled := true, srv := Server(false, map[1 := DUMP], Some(DUMP), None)))
  }

  /** The loop has seen the end and given its slot and buffer back. */
  lemma LoopEnds()
    ensures Reachable(Plain(), Ended().(main := Waiting(false)))
  {
    hide Reachable;
    EndedIsReachable();
    var s0 := Ended();
    var s1 := s0.(main := Taking, sh := s0.sh.(sem := 1));
    var s2 := s0.(main := Filling(0, 0), sh := s0.sh.(sem := 1, pool := {}));
    var s3 := s2.(main := GivingBack(0, false));
    var s4 := s0.(main := Freeing(false), sh := s0.sh.(sem := 1));
    ReachMain(s0, Acquire, s1);
    ReachMain(s1, Take(0), s2);
    ReachMain(s2, EndOfStream, s3);
    ReachMain(s3, GiveBack, s4);
    ReachMain(s4, FreeSlot, s0.(main := Waiting(false)));
  }

  lemma JoinedIsReachable()
    ensures Reachable(Plain(), Completed().(sh := Ended().sh.(cancelled := true)))
  {
    hide Reachable, Contents, SortParts;
    LoopEnds();
    OnePart();
    var s := Ended().(main := Waiting(false));
    ReachMain(s, Joined, s.(main := Completed().main, sh := s.sh.(cancelled := true)));
  }

  lemma CompletedIsReachable()
    ensures Reachable(Plain(), Completed())
  {
    hide Reachable, Contents, SortParts;
    JoinedIsReachable();
    OnePart();
    ReachCall(Completed().(sh := Ended().sh.(cancelled := true)), CompleteEffect, Completed());
  }

  lemma OnePart()
    ensures SortParts([Part(1, DUMP)]) == [Part(1, DUMP)] && Contents([Part(1, DUMP)]) == DUMP
  {
    var list := [Part(1, DUMP)];
    assert list[..0] == [];
    assert SortParts([]) == [] && Contents([]) == [];
  }

  /** The reply to the completion is lost and HEAD fails: the run reports an error, and the
      complete object stays. */
  lemma FailedUploadLeavesObject() returns (st: State)
    ensures WorldOk(Plain()) && Reachable(Plain(), st)
    ensures st.main == Failed(AtComplete) && st.sh.srv.content == Some(DUMP)
  {
    hide Reachable;
    PlainIsOk();
    CompletedIsReachable();
    var s0 := Completed();
    var s1 := s0.(main := Heading);
    var s2 := s0.(main := Aborting(3, false, AtComplete), missed := true);
    var s3 := s2.(main := Aborting(3, true, AtComplete));
    st := s3.(main := Failed(AtComplete), cut := true);
    ReachCall(s0, CompleteReply(false), s1);
    ReachCall(s1, HeadReply(false), s2);
    ReachCall(s2, AbortCall(false), s3);
    ReachCall(s3, ListReply(true), st);
  }

  /** The reply to the manifest is lost: the run reports an error, and the backup is valid. */
  lemma FailedRunLeavesManifest() returns (st: State)
    ensures WorldOk(Plain()) && Reachable(Plain(), st)
    ensures st.main == Failed(AtManifest) && st.sh.srv.content == Some(DUMP)
    ensures st.sh.srv.manifest == Some(Record(1, DUMP))
  {
    hide Reachable;
    PlainIsOk();
    CompletedIsReachable();
    var s0 := Completed();
    var s1 := s0.(main := Publishing(false), phase := Finalizing);
    var s2 := s1.(main := Publishing(true), sh := s1.sh.(srv := s1.sh.srv.(manifest := Some(Record(1, DUMP)))));
    st := s2.(main := Failed(AtManifest));
    ReachCall(s0, CompleteReply(true), s1);
    ReachCall(s1, ManifestEffect, s2);
    ReachCall(s2, ManifestReply(false), st);
  }
}
