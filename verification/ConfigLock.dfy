/** Concurrent commands on one config file: each takes the lock, loads, changes, writes and
    lets go, and may fail or die anywhere. */
module ConfigLock {
  import opened Wrappers
  import opened ConfigStore

  /** What each command makes of the configuration it loads; None if it refuses. */
  type Changes = map<nat, Config -> Option<Config>>

  datatype Progress = Waiting | Holding | Loaded(cfg: Config) | Written | Ended

  /** `taken` lists the commands in the order they got the lock, `log` those that wrote. */
  datatype System = System(lock: Option<nat>, file: Config, at: map<nat, Progress>, taken: seq<nat>, log: seq<nat>)

  datatype Action = TryLock(p: nat) | Load(p: nat, ok: bool) | Save(p: nat, ok: bool) | Unlock(p: nat) | Die(p: nat)

  predicate Enabled(w: Changes, st: System, a: Action) {
    a.p in st.at && a.p in w &&
    match a
    case TryLock(p) => st.at[p].Waiting?
    case Load(p, _) => st.at[p].Holding?
    case Save(p, _) => st.at[p].Loaded?
    case Unlock(p) => st.at[p].Written?
    case Die(p) => !st.at[p].Ended?
  }

  function Left(st: System, p: nat): System {
    st.(at := st.at[p := Ended], lock := if st.lock == Some(p) then None else st.lock)
  }

  function Next(w: Changes, st: System, a: Action): System
    requires Enabled(w, st, a)
  {
    match a
    case TryLock(p) =>
      if st.lock.Some? then st.(at := st.at[p := Ended])
      else st.(at := st.at[p := Holding], lock := Some(p), taken := st.taken + [p])
    case Load(p, ok) => if ok then st.(at := st.at[p := Loaded(st.file)]) else Left(st, p)
    case Save(p, ok) =>
      var changed := w[p](st.at[p].cfg);
      if ok && changed.Some? then st.(file := changed.value, at := st.at[p := Written], log := st.log + [p])
      else Left(st, p)
    case Unlock(p) => Left(st, p)
    case Die(p) => Left(st, p)
  }

  ghost predicate Leads(w: Changes, st: System, actions: seq<Action>, st': System)
    decreases |actions|
  {
    if actions == [] then st' == st
    else Enabled(w, st, actions[0]) && Leads(w, Next(w, st, actions[0]), actions[1..], st')
  }

  /** The commands of a log, one after the other. */
  function Replay(w: Changes, start: Config, log: seq<nat>): Option<Config> {
    if log == [] then Some(start)
    else
      var before, p := Replay(w, start, log[..|log| - 1]), log[|log| - 1];
      if before.None? || p !in w then None else w[p](before.value)
  }

  predicate Subsequence(a: seq<nat>, b: seq<nat>)
    decreases |b|
  {
    if a == [] then true
    else b != [] && (Subsequence(a, b[..|b| - 1])
                     || (a[|a| - 1] == b[|b| - 1] && Subsequence(a[..|a| - 1], b[..|b| - 1])))
  }

  predicate InLock(m: Progress) {
    m.Holding? || m.Loaded? || m.Written?
  }

  /** The lock is held by the command between taking it and letting go, and what that
      command loaded is the file. */
  predicate Held(st: System) {
    && (forall p :: p in st.at ==> (InLock(st.at[p]) <==> st.lock == Some(p)))
    && (forall p :: p in st.at && st.at[p].Loaded? ==> st.at[p].cfg == st.file)
  }

  /** The log explains the file, and has each command that wrote once. */
  ghost predicate Logged(w: Changes, start: Config, st: System) {
    && Replay(w, start, st.log) == Some(st.file)
    && (forall p :: p in st.log ==> p in st.at && (st.at[p].Written? || st.at[p].Ended?))
    && (forall i, j :: 0 <= i < j < |st.log| ==> st.log[i] != st.log[j])
    && (forall p :: p in st.at && st.at[p].Written? ==> p in st.log)
  }

  predicate Ordered(st: System) {
    && Subsequence(st.log, st.taken)
    && (forall p :: p in st.at && (st.at[p].Holding? || st.at[p].Loaded?) ==>
          st.taken != [] && st.taken[|st.taken| - 1] == p && Subsequence(st.log, st.taken[..|st.taken| - 1]))
  }

  ghost predicate Inv(w: Changes, start: Config, st: System) {
    Held(st) && Logged(w, start, st) && Ordered(st)
  }

  predicate Initial(st: System) {
    st.lock == None && st.taken == [] && st.log == [] && forall p :: p in st.at ==> st.at[p] == Waiting
  }

  lemma ReplayStep(w: Changes, start: Config, log: seq<nat>, p: nat)
    requires p in w && Replay(w, start, log).Some?
    ensures Replay(w, start, log + [p]) == w[p](Replay(w, start, log).value)
  {
    assert (log + [p])[..|log|] == log;
  }

  lemma SubsequenceGrows(a: seq<nat>, b: seq<nat>, p: nat)
    requires Subsequence(a, b)
    ensures Subsequence(a, b + [p]) && Subsequence(a + [p], b + [p])
  {
    assert (b + [p])[..|b|] == b && (a + [p])[..|a|] == a;
  }

  /** A command that has not written moves on without touching the file. */
  lemma MovedLogged(w: Changes, start: Config, st: System, p: nat, m: Progress, lock: Option<nat>, taken: seq<nat>)
    requires Logged(w, start, st) && p in st.at && !st.at[p].Written? && !st.at[p].Ended? && !m.Written?
    ensures Logged(w, start, st.(at := st.at[p := m], lock := lock, taken := taken))
  {
    hide Replay;
  }

  lemma TakeOrdered(st: System, p: nat)
    requires Held(st) && Ordered(st) && p in st.at && st.lock.None?
    ensures Ordered(st.(at := st.at[p := Holding], lock := Some(p), taken := st.taken + [p]))
  {
    hide Subsequence;
    SubsequenceGrows(st.log, st.taken, p);
    assert (st.taken + [p])[..|st.taken|] == st.taken;
  }

  lemma TryLockInv(w: Changes, start: Config, st: System, p: nat, st': System)
    requires Inv(w, start, st) && Enabled(w, st, TryLock(p)) && st' == Next(w, st, TryLock(p))
    ensures Inv(w, start, st')
  {
    hide Logged, Subsequence;
    if st.lock.None? {
      MovedLogged(w, start, st, p, Holding, Some(p), st.taken + [p]);
      TakeOrdered(st, p);
    } else {
      MovedLogged(w, start, st, p, Ended, st.lock, st.taken);
    }
  }

  lemma SaveLogged(w: Changes, start: Config, st: System, p: nat, file: Config)
    requires Held(st) && Logged(w, start, st) && p in st.at && st.at[p].Loaded? && p in w
    requires w[p](st.at[p].cfg) == Some(file)
    ensures Logged(w, start, st.(file := file, at := st.at[p := Written], log := st.log + [p]))
  {
    hide Replay;
    ReplayStep(w, start, st.log, p);
  }

  lemma SaveOrdered(st: System, p: nat, file: Config)
    requires Held(st) && Ordered(st) && p in st.at && st.at[p].Loaded?
    ensures Ordered(st.(file := file, at := st.at[p := Written], log := st.log + [p]))
  {
    hide Subsequence;
    var front := st.taken[..|st.taken| - 1];
    SubsequenceGrows(st.log, front, p);
    assert front + [p] == st.taken;
  }

  lemma SaveInv(w: Changes, start: Config, st: System, p: nat, st': System)
    requires Inv(w, start, st) && Enabled(w, st, Save(p, true)) && w[p](st.at[p].cfg).Some?
    requires st' == Next(w, st, Save(p, true))
    ensures Inv(w, start, st')
  {
    hide Logged, Ordered;
    SaveLogged(w, start, st, p, st'.file);
    SaveOrdered(st, p, st'.file);
  }

  lemma LeftInv(w: Changes, start: Config, st: System, p: nat)
    requires Inv(w, start, st) && p in st.at
    ensures Inv(w, start, Left(st, p))
  {
    hide Replay, Subsequence;
  }

  lemma StepInv(w: Changes, start: Config, st: System, a: Action)
    requires Inv(w, start, st) && Enabled(w, st, a)
    ensures Inv(w, start, Next(w, st, a))
  {
    hide Replay, Subsequence;
    match a
    case TryLock(p) => TryLockInv(w, start, st, p, Next(w, st, a));
    case Load(p, ok) =>
      if !ok {
        LeftInv(w, start, st, p);
      }
    case Save(p, ok) =>
      if ok && w[p](st.at[p].cfg).Some? {
        SaveInv(w, start, st, p, Next(w, st, a));
      } else {
        LeftInv(w, start, st, p);
      }
    case Unlock(p) => LeftInv(w, start, st, p);
    case Die(p) => LeftInv(w, start, st, p);
  }

  lemma {:induction false} RunInv(w: Changes, start: Config, st: System, actions: seq<Action>, st': System)
    requires Inv(w, start, st) && Leads(w, st, actions, st')
    ensures Inv(w, start, st')
    decreases |actions|
  {
    hide Inv, Enabled, Next;
    if actions == [] {
    } else {
      StepInv(w, start, st, actions[0]);
      RunInv(w, start, Next(w, st, actions[0]), actions[1..], st');
    }
  }

  /** However commands interleave, fail and die, the file is what the commands that wrote it
      make of it one after the other, in the order they got the lock; none writes twice, and
      no write is lost. */
  lemma NoLostUpdate(w: Changes, st: System, actions: seq<Action>, st': System)
    requires Initial(st) && Leads(w, st, actions, st')
    ensures Replay(w, st.file, st'.log) == Some(st'.file)
    ensures Subsequence(st'.log, st'.taken)
    ensures forall i, j :: 0 <= i < j < |st'.log| ==> st'.log[i] != st'.log[j]
    ensures forall p :: p in st'.at && st'.at[p].Written? ==> p in st'.log
    ensures forall p :: p in st'.at ==>
              (st'.lock == Some(p) <==> st'.at[p].Holding? || st'.at[p].Loaded? || st'.at[p].Written?)
  {
    RunInv(w, st.file, st, actions, st');
  }

  /** A command that finds the lock free, is not disturbed and does not refuse gets through
      all its steps: it applies its change to the file as it finds it and lets go. */
  lemma GetsThrough(w: Changes, st: System, p: nat)
    requires p in w && p in st.at && st.at[p] == Waiting && st.lock == None && w[p](st.file).Some?
    ensures Leads(w, st, [TryLock(p), Load(p, true), Save(p, true), Unlock(p)],
                  System(None, w[p](st.file).value, st.at[p := Ended], st.taken + [p], st.log + [p]))
  {
    hide Leads;
    var last := System(None, w[p](st.file).value, st.at[p := Ended], st.taken + [p], st.log + [p]);
    var s1 := Next(w, st, TryLock(p));
    var s2 := Next(w, s1, Load(p, true));
    var s3 := Next(w, s2, Save(p, true));
    LeadsNone(w, last);
    assert [TryLock(p)] + [Load(p, true), Save(p, true), Unlock(p)]
        == [TryLock(p), Load(p, true), Save(p, true), Unlock(p)];
    assert [Load(p, true)] + [Save(p, true), Unlock(p)] == [Load(p, true), Save(p, true), Unlock(p)];
    assert [Save(p, true)] + [Unlock(p)] == [Save(p, true), Unlock(p)];
    assert [Unlock(p)] + [] == [Unlock(p)];
    assert Next(w, s3, Unlock(p)) == last;
    LeadsOne(w, s3, Unlock(p), [], last);
    LeadsOne(w, s2, Save(p, true), [Unlock(p)], last);
    LeadsOne(w, s1, Load(p, true), [Save(p, true), Unlock(p)], last);
    LeadsOne(w, st, TryLock(p), [Load(p, true), Save(p, true), Unlock(p)], last);
  }

  lemma LeadsNone(w: Changes, st: System)
    ensures Leads(w, st, [], st)
  {
  }

  lemma LeadsOne(w: Changes, st: System, a: Action, actions: seq<Action>, st': System)
    requires Enabled(w, st, a) && Leads(w, Next(w, st, a), actions, st')
    ensures Leads(w, st, [a] + actions, st')
  {
    hide Next, Enabled;
    assert ([a] + actions)[1..] == actions;
  }
}
