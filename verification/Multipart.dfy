/** One backup as a transition system: the dump and the feed goroutine, the pipe, the read
    loop, the part workers, the cancellation watcher, the S3 server and the caller that
    completes the upload and writes the manifest. Any component may take the next step. */
module Multipart {
  import opened Wrappers
  import opened PartLists

  const ABORT_ATTEMPTS: nat := 3

  /** A streaming encoder: its output after some input, and its output once closed. */
  datatype Encoder = Encoder(part: Bytes -> Bytes, whole: Bytes -> Bytes)

  ghost predicate Streams(e: Encoder) {
    && (forall x: Bytes, y: Bytes :: x <= y ==> e.part(x) <= e.part(y))
    && (forall x: Bytes :: e.part(x) <= e.whole(x))
  }

  /** What is fixed over a run. */
  datatype World = World(partSize: nat, slots: nat, retries: nat, zstd: Encoder, age: Encoder)

  ghost predicate WorldOk(w: World) {
    w.partSize > 0 && w.slots > 0 && Streams(w.zstd) && Streams(w.age)
  }

  // ------------------------------------------------------------ the source

  /** The dump process: printing, done printing, or gone with an exit status. */
  datatype Process = Printing | Quiet | Exited(ok: bool)

  datatype Feed =
    | Starting
    | Copying
    | Reaping(copyFailed: bool)
    | ClosingZstd
    | ClosingAge
    | Closed(clean: bool)

  /** `printed` is what the dump wrote, `copied` how much of it the feed has encoded, and
      `drawn` what the read loop has taken from the pipe. */
  datatype Source = Source(process: Process, printed: Bytes, copied: nat, feed: Feed, drawn: Bytes)

  ghost function Ciphertext(w: World, dump: Bytes): Bytes {
    w.age.whole(w.zstd.whole(dump))
  }

  predicate Writing(f: Feed) {
    f.Starting? || f.Copying? || f.ClosingZstd? || f.ClosingAge?
  }

  /** All the encoders have handed to the pipe so far. */
  function Due(w: World, s: Source): Bytes
    requires s.copied <= |s.printed|
  {
    var x := s.printed[..s.copied];
    match s.feed
    case Starting => w.age.part([])
    case Copying => w.age.part(w.zstd.part(x))
    case Reaping(_) => w.age.part(w.zstd.part(x))
    case ClosingZstd => w.age.part(w.zstd.whole(x))
    case ClosingAge => w.age.whole(w.zstd.whole(x))
    case Closed(_) => w.age.whole(w.zstd.whole(x))
  }

  /** A write hands over the bytes the reader has not taken, and blocks until it has. */
  function Pending(w: World, s: Source): Bytes {
    if s.copied <= |s.printed| && Writing(s.feed) && |s.drawn| <= |Due(w, s)| then Due(w, s)[|s.drawn|..]
    else []
  }

  // ---------------------------------------------------------- the uploader

  datatype Step =
    | Sending(buf: nat, sent: Bytes, stored: bool, left: nat)
    | Counting(buf: nat, tag: Bytes)
    | Listing(buf: nat, tag: Bytes)
    | Returning(buf: nat, ok: bool)
    | Releasing(ok: bool)
    | Leaving(ok: bool)
    | Gone(ok: bool)

  /** The worker of one part of n bytes. */
  datatype Worker = Worker(n: nat, step: Step)

  datatype Cause = AtCreate | AtStream | AtComplete | AtManifest

  /** Where Run, upload and streamParts are; they share one goroutine. */
  datatype Main =
    | Creating
    | Acquiring
    | Taking
    | Filling(buf: nat, n: nat)
    | GivingBack(buf: nat, err: bool)
    | Freeing(err: bool)
    | Waiting(err: bool)
    | Completing(list: seq<Part>)
    | Heading
    | Aborting(left: nat, asked: bool, cause: Cause)
    | Publishing(sent: bool)
    | Done(bytes: nat, hash: Bytes)
    | Failed(cause: Cause)

  datatype Phase = Streaming | Finalizing | Finished

  /** A hash is represented by the bytes it absorbed. */
  datatype Record = Record(bytes: nat, hash: Bytes)

  datatype Server = Server(open: bool, stored: map<nat, Bytes>, content: Option<Bytes>, manifest: Option<Record>)

  /** What the goroutines share: the semaphore, the buffer pool, the part list, the progress
      counter, the error group, and the server. `failed` says that a worker returned an
      error and `cancelled` that the group's context is done. */
  datatype Shared = Shared(
    sem: nat,
    pool: set<nat>,
    listed: seq<Part>,
    uploaded: nat,
    failed: bool,
    cancelled: bool,
    srv: Server)

  /** `cut` says the reader's end of the pipe is closed. `chunks` remembers what each worker
      was given and `missed` that HEAD denied an existing object. */
  datatype State = State(
    src: Source,
    cut: bool,
    main: Main,
    phase: Phase,
    mem: map<nat, Bytes>,
    hashed: Bytes,
    total: nat,
    workers: seq<Worker>,
    sh: Shared,
    chunks: seq<Bytes>,
    missed: bool)

  datatype Action =
    // the dump, and failures of the encoders
    | Print(bytes: Bytes)
    | CloseStdout
    | Exit(ok: bool)
    | FeedBreaks
    | Cancel
    // the feed goroutine
    | StartCopy
    | Copy(n: nat)
    | CopyDone
    | WriteFails
    | Reap
    | ZstdClosed
    | AgeClosed
    // the watcher
    | Watch
    // the caller
    | CreateReply(effect: bool, ok: bool)
    | Acquire
    | SeeCancelled
    | Take(buf: nat)
    | Read(k: nat)
    | Dispatch
    | EndOfStream
    | ReadFails
    | GiveBack
    | FreeSlot
    | Joined
    | CompleteEffect
    | CompleteReply(ok: bool)
    | HeadReply(found: bool)
    | AbortCall(effect: bool)
    | ListReply(gone: bool)
    | ManifestEffect
    | ManifestReply(ok: bool)
    // the workers
    | Send(i: nat, k: nat)
    | Store(i: nat)
    | Retry(i: nat)
    | Succeed(i: nat)
    | Fail(i: nat)
    | Count(i: nat)
    | List(i: nat)
    | Return(i: nat)
    | Release(i: nat)
    | Leave(i: nat)

  predicate SourceAction(a: Action) {
    a.Print? || a.CloseStdout? || a.Exit? || a.FeedBreaks? || a.StartCopy? || a.Copy? || a.CopyDone?
    || a.WriteFails? || a.Reap? || a.ZstdClosed? || a.AgeClosed?
  }

  predicate WorkerAction(a: Action) {
    a.Send? || a.Store? || a.Retry? || a.Succeed? || a.Fail? || a.Count? || a.List? || a.Return?
    || a.Release? || a.Leave?
  }

  // ------------------------------------------------------------- the steps

  predicate AtEnd(st: State) {
    st.src.feed == Closed(true) && !st.cut
  }

  predicate SourceEnabled(w: World, s: Source, cut: bool, a: Action)
    requires SourceAction(a)
  {
    match a
    case Print(_) => s.process.Printing?
    case CloseStdout => s.process.Printing?
    case Exit(_) => !s.process.Exited?
    case FeedBreaks => Writing(s.feed)
    case StartCopy => s.feed.Starting? && Pending(w, s) == []
    case Copy(n) => s.feed.Copying? && Pending(w, s) == [] && 0 < n && s.copied + n <= |s.printed|
    case CopyDone => s.feed.Copying? && Pending(w, s) == [] && s.copied == |s.printed| && !s.process.Printing?
    case WriteFails => Writing(s.feed) && Pending(w, s) != [] && cut
    case Reap => s.feed.Reaping? && s.process.Exited?
    case ZstdClosed => s.feed.ClosingZstd? && Pending(w, s) == []
    case AgeClosed => s.feed.ClosingAge? && Pending(w, s) == []
  }

  function SourceNext(s: Source, a: Action): Source
    requires SourceAction(a)
    requires a.Reap? ==> s.feed.Reaping? && s.process.Exited?
  {
    match a
    case Print(bytes) => s.(printed := s.printed + bytes)
    case CloseStdout => s.(process := Quiet)
    case Exit(ok) => s.(process := Exited(ok))
    case FeedBreaks => s.(feed := if s.feed.Copying? then Reaping(true) else Closed(false))
    case StartCopy => s.(feed := Copying)
    case Copy(n) => s.(copied := s.copied + n)
    case CopyDone => s.(feed := Reaping(false))
    case WriteFails => s.(feed := if s.feed.Copying? then Reaping(true) else Closed(false))
    case Reap => s.(feed := if s.feed.copyFailed || !s.process.ok then Closed(false) else ClosingZstd)
    case ZstdClosed => s.(feed := ClosingAge)
    case AgeClosed => s.(feed := Closed(true))
  }

  predicate HasBuffer(s: Step) {
    s.Sending? || s.Counting? || s.Listing? || s.Returning?
  }

  predicate WorkerEnabled(sh: Shared, mem: map<nat, Bytes>, x: Worker, a: Action)
    requires WorkerAction(a)
  {
    match a
    case Send(_, k) => x.step.Sending? && 0 < k <= x.n - |x.step.sent| && x.step.buf in mem && x.n <= |mem[x.step.buf]|
    case Store(_) => x.step.Sending? && |x.step.sent| == x.n && !x.step.stored && sh.srv.open
    case Retry(_) => x.step.Sending? && x.step.left > 0
    case Succeed(_) => x.step.Sending? && x.step.stored
    case Fail(_) => x.step.Sending?
    case Count(_) => x.step.Counting?
    case List(_) => x.step.Listing?
    case Return(_) => x.step.Returning?
    case Release(_) => x.step.Releasing? && sh.sem > 0
    case Leave(_) => x.step.Leaving?
  }

  function StepNext(sh: Shared, mem: map<nat, Bytes>, x: Worker, a: Action): Step
    requires WorkerAction(a) && WorkerEnabled(sh, mem, x, a)
  {
    var s := x.step;
    match a
    case Send(_, k) => s.(sent := s.sent + mem[s.buf][|s.sent|..|s.sent| + k])
    case Store(_) => s.(stored := true)
    case Retry(_) => s.(sent := [], stored := false, left := s.left - 1)
    case Succeed(_) => Counting(s.buf, s.sent)
    case Fail(_) => Returning(s.buf, false)
    case Count(_) => Listing(s.buf, s.tag)
    case List(_) => Returning(s.buf, true)
    case Return(_) => Releasing(s.ok)
    case Release(_) => Leaving(s.ok)
    case Leave(_) => Gone(s.ok)
  }

  function SharedNext(sh: Shared, mem: map<nat, Bytes>, x: Worker, a: Action): Shared
    requires WorkerAction(a) && WorkerEnabled(sh, mem, x, a)
  {
    match a
    case Store(i) => sh.(srv := sh.srv.(stored := sh.srv.stored[i + 1 := x.step.sent]))
    case Count(_) => sh.(uploaded := sh.uploaded + x.n)
    case List(i) => sh.(listed := sh.listed + [Part(i + 1, x.step.tag)])
    case Return(_) => sh.(pool := sh.pool + {x.step.buf})
    case Release(_) => sh.(sem := sh.sem - 1)
    case Leave(_) => sh.(failed := sh.failed || !x.step.ok, cancelled := sh.cancelled || !x.step.ok)
    case _ => sh
  }

  function WorkerNext(st: State, a: Action): State
    requires WorkerAction(a) && a.i < |st.workers| && WorkerEnabled(st.sh, st.mem, st.workers[a.i], a)
  {
    var x := st.workers[a.i];
    st.(workers := st.workers[a.i := x.(step := StepNext(st.sh, st.mem, x, a))],
        sh := SharedNext(st.sh, st.mem, x, a))
  }

  /** The server completes a non-empty ascending list of parts it holds. */
  predicate Acceptable(srv: Server, list: seq<Part>) {
    && srv.open && list != [] && Ascending(list)
    && forall i :: 0 <= i < |list| ==> list[i].number in srv.stored && srv.stored[list[i].number] == list[i].tag
  }

  /** Calls to the server once the parts are joined, and their replies. */
  predicate CallAction(a: Action) {
    a.CompleteEffect? || a.CompleteReply? || a.HeadReply? || a.AbortCall? || a.ListReply?
    || a.ManifestEffect? || a.ManifestReply?
  }

  predicate CallEnabled(m: Main, srv: Server, a: Action)
    requires CallAction(a)
  {
    match a
    case CompleteEffect => m.Completing? && Acceptable(srv, m.list)
    case CompleteReply(ok) => m.Completing? && (ok ==> srv.content.Some?)
    case HeadReply(found) => m.Heading? && (found ==> srv.content.Some?)
    case AbortCall(_) => m.Aborting? && m.left > 0 && !m.asked
    case ListReply(gone) => m.Aborting? && m.left > 0 && m.asked && (gone ==> !srv.open)
    case ManifestEffect => m.Publishing? && !m.sent
    case ManifestReply(ok) => m.Publishing? && (ok ==> m.sent)
  }

  function AfterReply(m: Main, srv: Server, record: Record, a: Action): Main
    requires CallAction(a) && CallEnabled(m, srv, a)
  {
    match a
    case CompleteEffect => m
    case CompleteReply(ok) => if ok then Publishing(false) else Heading
    case HeadReply(found) => if found then Publishing(false) else Aborting(ABORT_ATTEMPTS, false, AtComplete)
    case AbortCall(_) => m.(asked := true)
    case ListReply(gone) => if gone || m.left == 1 then Failed(m.cause) else Aborting(m.left - 1, false, m.cause)
    case ManifestEffect => Publishing(true)
    case ManifestReply(ok) => if ok then Done(record.bytes, record.hash) else Failed(AtManifest)
  }

  function AfterCall(m: Main, srv: Server, record: Record, a: Action): Server
    requires CallAction(a) && CallEnabled(m, srv, a)
  {
    match a
    case CompleteEffect => srv.(open := false, content := Some(Contents(m.list)))
    case AbortCall(effect) => srv.(open := srv.open && !effect)
    case ManifestEffect => srv.(manifest := Some(record))
    case _ => srv
  }

  function AfterPhase(phase: Phase, m: Main): Phase {
    match m
    case Publishing(_) => Finalizing
    case Done(_, _) => Finished
    case _ => phase
  }

  function CallNext(st: State, a: Action): State
    requires CallAction(a) && CallEnabled(st.main, st.sh.srv, a)
  {
    var record := Record(st.total, st.hashed);
    var m := AfterReply(st.main, st.sh.srv, record, a);
    st.(main := m,
        sh := st.sh.(srv := AfterCall(st.main, st.sh.srv, record, a)),
        phase := AfterPhase(st.phase, m),
        missed := if a.HeadReply? && !a.found then st.sh.srv.content.Some? else st.missed,
        cut := st.cut || (a.ListReply? && m.Failed?))
  }

  ghost predicate MainEnabled(w: World, st: State, a: Action)
    requires !SourceAction(a) && !WorkerAction(a) && !CallAction(a)
  {
    var m := st.main;
    match a
    case Cancel => true
    case Watch => st.sh.cancelled && !st.cut && !m.Creating?
    case CreateReply(effect, ok) => m.Creating? && (ok ==> effect)
    case Acquire => m.Acquiring? && st.sh.sem < w.slots
    case SeeCancelled => m.Acquiring? && st.sh.cancelled
    case Take(buf) => m.Taking? && (buf in st.sh.pool || buf !in st.mem)
    case Read(k) => m.Filling? && m.buf in st.mem && |st.mem[m.buf]| == w.partSize && !st.cut
                    && 0 < k <= |Pending(w, st.src)| && m.n + k <= w.partSize
    case Dispatch => m.Filling? && m.buf in st.mem && |st.mem[m.buf]| == w.partSize
                     && (m.n == w.partSize || (0 < m.n < w.partSize && AtEnd(st)))
    case EndOfStream => m.Filling? && m.n == 0 && AtEnd(st)
    case ReadFails => m.Filling? && m.n < w.partSize && (st.cut || st.src.feed == Closed(false))
    case GiveBack => m.GivingBack?
    case FreeSlot => m.Freeing? && st.sh.sem > 0
    case Joined => m.Waiting? && forall x :: x in st.workers ==> x.step.Gone?
  }

  /** A part of n bytes leaves the reader: numbered, hashed and handed to a worker, unless
      the part limit is reached. */
  function AfterChunk(w: World, st: State): State
    requires st.main.Filling? && st.main.buf in st.mem && st.main.n <= |st.mem[st.main.buf]|
  {
    var m := st.main;
    var chunk := st.mem[m.buf][..m.n];
    if |st.workers| == MAX_PARTS then st.(main := GivingBack(m.buf, true))
    else st.(
      hashed := st.hashed + chunk,
      total := st.total + m.n,
      workers := st.workers + [Worker(m.n, Sending(m.buf, [], false, w.retries))],
      chunks := st.chunks + [chunk],
      main := if m.n < w.partSize then Waiting(false) else Acquiring)
  }

  ghost function MainNext(w: World, st: State, a: Action): State
    requires !SourceAction(a) && !WorkerAction(a) && !CallAction(a) && MainEnabled(w, st, a)
  {
    var m := st.main;
    match a
    case Cancel => st.(sh := st.sh.(cancelled := true))
    case Watch => st.(cut := true)
    case CreateReply(effect, ok) =>
      st.(sh := st.sh.(srv := st.sh.srv.(open := effect)), cut := st.cut || !ok,
          main := if ok then Acquiring else Failed(AtCreate))
    case Acquire => st.(sh := st.sh.(sem := st.sh.sem + 1), main := Taking)
    case SeeCancelled => st.(main := Waiting(true))
    case Take(buf) =>
      st.(sh := st.sh.(pool := st.sh.pool - {buf}),
          mem := if buf in st.mem then st.mem else st.mem[buf := seq(w.partSize, _ => 0)],
          main := Filling(buf, 0))
    case Read(k) =>
      var bytes := Pending(w, st.src)[..k];
      st.(src := st.src.(drawn := st.src.drawn + bytes),
          mem := st.mem[m.buf := st.mem[m.buf][..m.n] + bytes + st.mem[m.buf][m.n + k..]],
          main := Filling(m.buf, m.n + k))
    case Dispatch => AfterChunk(w, st)
    case EndOfStream => st.(main := GivingBack(m.buf, false))
    case ReadFails => st.(main := GivingBack(m.buf, true))
    case GiveBack => st.(sh := st.sh.(pool := st.sh.pool + {m.buf}), main := Freeing(m.err))
    case FreeSlot => st.(sh := st.sh.(sem := st.sh.sem - 1), main := Waiting(m.err))
    case Joined =>
      st.(sh := st.sh.(cancelled := true),
          main := if st.sh.failed || m.err then Aborting(ABORT_ATTEMPTS, false, AtStream)
                  else Completing(SortParts(st.sh.listed)))
  }

  ghost predicate Enabled(w: World, st: State, a: Action) {
    if SourceAction(a) then SourceEnabled(w, st.src, st.cut, a)
    else if WorkerAction(a) then a.i < |st.workers| && WorkerEnabled(st.sh, st.mem, st.workers[a.i], a)
    else if CallAction(a) then CallEnabled(st.main, st.sh.srv, a)
    else MainEnabled(w, st, a)
  }

  ghost function Next(w: World, st: State, a: Action): State
    requires Enabled(w, st, a)
  {
    if SourceAction(a) then st.(src := SourceNext(st.src, a))
    else if WorkerAction(a) then WorkerNext(st, a)
    else if CallAction(a) then CallNext(st, a)
    else MainNext(w, st, a)
  }

  ghost predicate Leads(w: World, st: State, actions: seq<Action>, st': State)
    decreases |actions|
  {
    if actions == [] then st' == st
    else Enabled(w, st, actions[0]) && Leads(w, Next(w, st, actions[0]), actions[1..], st')
  }

  /** The dump has been started and nothing has been sent. */
  predicate Initial(st: State) {
    st == State(Source(Printing, [], 0, Starting, []), false, Creating, Streaming, map[], [], 0, [],
                Shared(0, {}, [], 0, false, false, Server(false, map[], None, None)), [], false)
  }

  ghost predicate Reachable(w: World, st: State) {
    exists st0, actions :: Initial(st0) && Leads(w, st0, actions, st)
  }
}
