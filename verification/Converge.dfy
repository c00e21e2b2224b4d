/** While no upload is running, any number of passes of one policy, interleaved and stopped
    anywhere, followed by one full pass, leave what one uninterrupted pass leaves. */
module Converge {
  import opened Backups
  import opened Text
  import opened Store
  import opened Listing
  import opened Retention
  import opened Protocol
  import opened Prune
  import Safety

  /** The steps of passes of one policy. */
  predicate PassStep(a: Action, policy: Policy) {
    match a
    case Complete(_, _) => false
    case Publish(_, _) => false
    case ForeignPut(_, _) => false
    case ForeignDelete(_) => false
    case Begin(_, q) => q == policy
    case _ => true
  }

  /** The pass a world and a policy describe. */
  function PassOf(w: World, policy: Policy): Pass {
    Pass(w.scope, w.owner, policy)
  }

  // ------------------------------------------------------------- invariant

  /** What was removed of the original bucket. */
  ghost function Gone(origin: Bucket, store: Bucket): set<string> {
    origin.Keys - store.Keys
  }

  ghost predicate Partial(origin: Bucket, store: Bucket, p: Pass)
    requires IsScope(p.scope)
  {
    store == origin - Gone(origin, store) && Interruptible(origin, p, Gone(origin, store))
  }

  ghost predicate SeenIn(origin: Bucket, scope: string, seen: map<string, nat>) {
    forall k :: k in seen ==> k in origin && scope <= k && seen[k] == origin[k].size
  }

  /** Every original key the listing has passed without seeing it was deleted. */
  ghost predicate NothingMissed(origin: Bucket, store: Bucket, scope: string, seen: map<string, nat>) {
    forall k :: k in origin && scope <= k && k !in seen ==> k !in store
  }

  ghost predicate NothingMissedUpTo(origin: Bucket, store: Bucket, scope: string, seen: map<string, nat>,
                                    token: string) {
    forall k :: k in origin && scope <= k && !Below(token, k) && k !in seen ==> k !in store
  }

  /** A manifest that may go: the full pass removes it too, and its ciphertext is gone. */
  ghost predicate MayGo(origin: Bucket, store: Bucket, p: Pass, k: string)
    requires IsScope(p.scope)
  {
    && k in RemovedBy(origin, p)
    && forall b :: b in Dropped(origin, p) && b.manifestKey == k ==> b.key !in store
  }

  ghost predicate InfosFrom(origin: Bucket, p: Pass, read: set<string>, infos: set<BackupInfo>)
    requires IsScope(p.scope)
  {
    && infos <= WithState(origin, p, State.Valid)
    && forall b :: b in WithState(origin, p, State.Valid) && StemOf(b.key) in read ==> b in infos
  }

  ghost predicate PassSince(origin: Bucket, store: Bucket, p: Pass, q: PassState)
    requires IsScope(p.scope)
  {
    match q
    case Paging(policy, token, seen) =>
      policy == p.policy && SeenIn(origin, p.scope, seen)
      && NothingMissedUpTo(origin, store, p.scope, seen, token)
    case Reading(policy, seen, read, infos, _, dangling) =>
      && policy == p.policy && SeenIn(origin, p.scope, seen)
      && NothingMissed(origin, store, p.scope, seen)
      && InfosFrom(origin, p, read, infos)
      && (forall k :: k in dangling ==> MayGo(origin, store, p, k))
    case Deleting(drop, dangling, stage, done) =>
      && drop <= Dropped(origin, p)
      && (forall k :: k in dangling ==> MayGo(origin, store, p, k))
      && (forall b :: b in drop && (stage == Ciphers ==> b.key in done) ==> b.key !in store)
  }

  ghost predicate Since(origin: Bucket, st: System, p: Pass)
    requires IsScope(p.scope)
  {
    && Partial(origin, st.store, p)
    && forall id :: id in st.passes ==> PassSince(origin, st.store, p, st.passes[id])
  }

  lemma PassSinceShrinks(origin: Bucket, store: Bucket, store': Bucket, p: Pass, q: PassState)
    requires IsScope(p.scope) && PassSince(origin, store, p, q) && store'.Keys <= store.Keys
    ensures PassSince(origin, store', p, q)
  {
    hide RemovedBy, WithState, Dropped, Below;
  }

  /** Changing one pass, and only shrinking the store, keeps the other passes' part. */
  lemma SinceStep(origin: Bucket, st: System, st': System, p: Pass, changed: nat)
    requires IsScope(p.scope) && Since(origin, st, p) && Partial(origin, st'.store, p)
    requires st'.store.Keys <= st.store.Keys
    requires forall id :: id in st'.passes && id != changed ==> id in st.passes && st'.passes[id] == st.passes[id]
    requires changed in st'.passes ==> PassSince(origin, st'.store, p, st'.passes[changed])
    ensures Since(origin, st', p)
  {
    hide PassSince, Partial;
    forall id | id in st'.passes && id != changed
      ensures PassSince(origin, st'.store, p, st'.passes[id])
    {
      PassSinceShrinks(origin, st.store, st'.store, p, st.passes[id]);
    }
  }

  // ------------------------------------------------------------------ steps

  lemma BeginSince(origin: Bucket, store: Bucket, p: Pass)
    requires IsScope(p.scope)
    ensures PassSince(origin, store, p, Paging(p.policy, "", map[]))
  {
  }

  lemma PageSeenIn(origin: Bucket, store: Bucket, scope: string, token: string, seen: map<string, nat>, page: Page)
    requires store == origin - Gone(origin, store) && SeenIn(origin, scope, seen) && PageOf(store, scope, token, page)
    ensures SeenIn(origin, scope, AddPage(seen, page.items))
  {
    hide AddPage, PageOf;
    Safety.SeenAfterPage(store, scope, token, seen, page);
  }

  lemma PageMissesNothing(origin: Bucket, store: Bucket, scope: string, token: string, seen: map<string, nat>,
                          page: Page, k: string)
    requires PageOf(store, scope, token, page) && NothingMissedUpTo(origin, store, scope, seen, token)
    requires k in origin && scope <= k && Covered(page, k) && k !in AddPage(seen, page.items)
    ensures k !in store
  {
    hide AddPage, Below;
    AddPageKeys(seen, page.items);
    assert PageKeys(page) == PageKeys(Page(page.items, true));
    assert k in Remaining(store, scope, token) <==> k in store && Below(token, k);
  }

  lemma NextPageSince(origin: Bucket, store: Bucket, p: Pass, q: PassState, page: Page)
    requires IsScope(p.scope) && Partial(origin, store, p) && q.Paging? && PassSince(origin, store, p, q)
    requires PageOf(store, p.scope, q.token, page)
    ensures var seen := AddPage(q.seen, page.items);
            PassSince(origin, store, p,
              if page.more then Paging(q.policy, page.items[|page.items| - 1].key, seen)
              else Reading(q.policy, seen, {}, {}, {}, {}))
  {
    hide AddPage, PageOf, Interruptible, RemovedBy, WithState, Dropped, Below;
    PageSeenIn(origin, store, p.scope, q.token, q.seen, page);
    if page.more {
      Safety.MoreMeansItems(store, p.scope, q.token, page);
    }
    forall k | k in origin && p.scope <= k && Covered(page, k) && k !in AddPage(q.seen, page.items)
      ensures k !in store
    {
      PageMissesNothing(origin, store, p.scope, q.token, q.seen, page, k);
    }
  }

  /** A pair read now is the pair of the original bucket. */
  lemma PairIsOriginal(w: World, origin: Bucket, store: Bucket, p: Pass, seen: map<string, nat>, stem: string)
    requires IsScope(p.scope) && store == origin - Gone(origin, store) && SeenIn(origin, p.scope, seen)
    requires w.owner == p.owner && IsPair(seen, stem)
    requires ManifestKey(stem) in store || MAX_MANIFEST_BYTES < seen[ManifestKey(stem)]
    ensures p.scope <= stem && CipherKey(stem) in origin && ManifestKey(stem) in origin
    ensures var info := PairInfo(w, store, seen, stem); var entry := Entry(origin, stem, p.owner);
            (info.state == State.Valid <==> entry.state == State.Valid) && (info.state == State.Valid ==> info == entry)
  {
    StemOfArtifacts(stem);
    StemInScope(p.scope, CipherKey(stem));
    hide CipherKey, ManifestKey, StemOf, HasSuffix, Trusted, CreatedAtFromStem;
  }

  lemma ReadPairSince(w: World, origin: Bucket, store: Bucket, p: Pass, q: PassState, stem: string)
    requires IsScope(p.scope) && Partial(origin, store, p) && q.Reading? && PassSince(origin, store, p, q)
    requires p == PassOf(w, p.policy) && IsPair(q.seen, stem)
    requires ManifestKey(stem) in store || MAX_MANIFEST_BYTES < q.seen[ManifestKey(stem)]
    ensures var info := PairInfo(w, store, q.seen, stem);
            PassSince(origin, store, p,
              q.(read := q.read + {stem}, infos := if info.state == State.Valid then q.infos + {info} else q.infos))
  {
    hide CipherKey, ManifestKey, PairInfo, RemovedBy, Interruptible, Entries, Entry;
    PairIsOriginal(w, origin, store, p, q.seen, stem);
    StemEntry(origin, p, stem);
    forall b | b in WithState(origin, p, State.Valid) && StemOf(b.key) == stem
      ensures b == Entry(origin, stem, p.owner)
    {
      var s := EntryStem(origin, p, b);
      StemOfArtifacts(s);
    }
  }

  lemma SameManifestSameBackup(origin: Bucket, p: Pass, b: BackupInfo, stem: string)
    requires IsScope(p.scope) && b in WithState(origin, p, State.Valid) && b.manifestKey == ManifestKey(stem)
    ensures b.key == CipherKey(stem) && CipherKey(stem) in origin
  {
    hide CipherKey, ManifestKey, Entries, Entry;
    var s := EntryStem(origin, p, b);
    CipherKeyInjective(s, stem);
  }

  lemma DanglingMayGo(origin: Bucket, store: Bucket, p: Pass, seen: map<string, nat>, stem: string)
    requires IsScope(p.scope) && Partial(origin, store, p) && SeenIn(origin, p.scope, seen)
    requires NothingMissed(origin, store, p.scope, seen) && IsDangling(seen, stem)
    requires ManifestKey(stem) in store && OursToDelete(store[ManifestKey(stem)], p.owner)
    ensures MayGo(origin, store, p, ManifestKey(stem))
  {
    hide CipherKey, ManifestKey, Entries, KeepSet, OursToDelete, RemovedBy, StemOf;
    StemOfArtifacts(stem);
    StemInScope(p.scope, ManifestKey(stem));
    RemovedCases(origin, p, ManifestKey(stem));
    assert CipherKey(stem) !in store;
    if CipherKey(stem) in origin {
      GoneCipherWasDropped(origin, p, stem);
    } else {
      DanglingEntry(origin, p, stem);
    }
    forall b | b in Dropped(origin, p) && b.manifestKey == ManifestKey(stem)
      ensures b.key !in store
    {
      SameManifestSameBackup(origin, p, b, stem);
    }
  }

  lemma ReadDanglingSince(origin: Bucket, store: Bucket, p: Pass, q: PassState, stem: string)
    requires IsScope(p.scope) && Partial(origin, store, p) && q.Reading? && PassSince(origin, store, p, q)
    requires IsDangling(q.seen, stem) && ManifestKey(stem) in store
    ensures PassSince(origin, store, p, q.(
              checked := q.checked + {stem},
              dangling := if OursToDelete(store[ManifestKey(stem)], p.owner) then q.dangling + {ManifestKey(stem)}
                          else q.dangling))
  {
    hide CipherKey, ManifestKey, RemovedBy, Interruptible, WithState, Dropped, OursToDelete, MayGo;
    if OursToDelete(store[ManifestKey(stem)], p.owner) {
      DanglingMayGo(origin, store, p, q.seen, stem);
    }
  }

  /** Every pass that gets to select selects from a set holding everything kept. */
  lemma SelectSince(origin: Bucket, store: Bucket, p: Pass, q: PassState)
    requires IsScope(p.scope) && Partial(origin, store, p) && q.Reading? && PassSince(origin, store, p, q)
    requires forall stem :: IsPair(q.seen, stem) ==> stem in q.read
    ensures PassSince(origin, store, p, Deleting(q.infos - KeepSet(q.infos, q.policy), q.dangling, Ciphers, {}))
  {
    hide CipherKey, ManifestKey, RemovedBy, Kept, Entries, Entry, DistinctKeys, MayGo;
    var valid := WithState(origin, p, State.Valid);
    forall b | b in KeepSet(valid, p.policy)
      ensures b in q.infos
    {
      KeptIsUntouched(origin, p, b);
      var stem := EntryStem(origin, p, b);
      StemOfArtifacts(stem);
      Safety.PrefixOfConcat(p.scope, stem, CIPHERTEXT_SUFFIX);
      Safety.PrefixOfConcat(p.scope, stem, MANIFEST_SUFFIX);
      KeysAre(stem);
      assert IsPair(q.seen, stem);
    }
    ValidKeysDistinct(origin, p);
    SelectionStable(valid, q.infos, p.policy);
  }

  lemma KeysAre(stem: string)
    ensures CipherKey(stem) == stem + CIPHERTEXT_SUFFIX && ManifestKey(stem) == stem + MANIFEST_SUFFIX
  {
  }

  lemma TodoMayGo(origin: Bucket, store: Bucket, p: Pass, q: PassState)
    requires IsScope(p.scope) && q.Deleting? && PassSince(origin, store, p, q)
    ensures Todo(q) <= RemovedBy(origin, p)
    ensures forall b :: b in Dropped(origin, p) && b.manifestKey in Todo(q) ==> b.key !in store
  {
    hide Entries, KeepSet, RemovedBy;
    forall k | k in Todo(q)
      ensures k in RemovedBy(origin, p)
    {
      RemovedCases(origin, p, k);
    }
    forall b | b in Dropped(origin, p) && b.manifestKey in Todo(q)
      ensures b.key !in store
    {
      if q.stage != Leftovers {
        var d :| d in q.drop && (if q.stage == Ciphers then d.key else d.manifestKey) == b.manifestKey;
        ManifestsAreNotDroppedCiphers(origin, p, b, d);
        if q.stage == Manifests {
          SameManifest(origin, p, b, d);
        }
      }
    }
  }

  lemma SameManifest(origin: Bucket, p: Pass, b: BackupInfo, d: BackupInfo)
    requires IsScope(p.scope) && b in WithState(origin, p, State.Valid) && d in WithState(origin, p, State.Valid)
    requires b.manifestKey == d.manifestKey
    ensures b.key == d.key
  {
    hide CipherKey, ManifestKey, Entries, Entry;
    var s := EntryStem(origin, p, b);
    var t := EntryStem(origin, p, d);
    CipherKeyInjective(s, t);
  }

  lemma DeletePartial(origin: Bucket, store: Bucket, p: Pass, q: PassState, gone: set<string>)
    requires IsScope(p.scope) && Partial(origin, store, p) && q.Deleting? && PassSince(origin, store, p, q)
    requires gone <= Todo(q)
    ensures Partial(origin, store - gone, p)
  {
    hide RemovedBy, Dropped, Todo, PassSince;
    TodoMayGo(origin, store, p, q);
    var after := store - gone;
    assert Gone(origin, after) == Gone(origin, store) + (gone * origin.Keys);
    forall b | b in Dropped(origin, p) && b.manifestKey in Gone(origin, after)
      ensures b.key in Gone(origin, after)
    {
      DroppedKeyExists(origin, p, b);
    }
  }

  lemma DroppedKeyExists(origin: Bucket, p: Pass, b: BackupInfo)
    requires IsScope(p.scope) && b in Dropped(origin, p)
    ensures b.key in origin
  {
    hide Entries, KeepSet;
    var s := EntryStem(origin, p, b);
  }

  lemma DeleteBatchSince(origin: Bucket, st: System, st': System, p: Pass, id: nat,
                         batch: set<string>, gone: set<string>, ok: bool)
    requires IsScope(p.scope) && Since(origin, st, p) && id in st.passes && st.passes[id].Deleting?
    requires batch <= Todo(st.passes[id]) && gone <= batch && (ok ==> gone == batch)
    requires st' == AfterDelete(st, id, batch, gone, ok)
    ensures Since(origin, st', p)
  {
    hide RemovedBy, Dropped, Todo, Partial, MayGo;
    var q := st.passes[id];
    assert PassSince(origin, st.store, p, q);
    DeletePartial(origin, st.store, p, q, gone);
    PassSinceShrinks(origin, st.store, st'.store, p, q);
    SinceStep(origin, st, st', p, id);
  }

  lemma NextStageSince(origin: Bucket, store: Bucket, p: Pass, q: PassState)
    requires IsScope(p.scope) && q.Deleting? && PassSince(origin, store, p, q) && Todo(q) <= q.done
    ensures q.stage != Leftovers ==> PassSince(origin, store, p, q.(stage := Manifests, done := {}))
    ensures q.stage != Leftovers ==> PassSince(origin, store, p, q.(stage := Leftovers, done := {}))
  {
    hide RemovedBy, Dropped, MayGo;
    if q.stage == Ciphers {
      forall b | b in q.drop
        ensures b.key in q.done
      {
        assert b.key in Todo(q);
      }
    }
  }

  lemma StepSince(w: World, origin: Bucket, st: System, policy: Policy, a: Action)
    requires IsScope(w.scope) && Since(origin, st, PassOf(w, policy))
    requires Enabled(w, st, a) && PassStep(a, policy)
    ensures Since(origin, Next(w, st, a), PassOf(w, policy))
  {
    hide CipherKey, ManifestKey, Partial, PassSince, PageOf, AddPage, PairInfo, KeepSet, AfterDelete, Todo,
      OursToDelete, Foreign, Forged;
    var p := PassOf(w, policy);
    var st' := Next(w, st, a);
    if a.DeleteBatch? {
      DeleteBatchSince(origin, st, st', p, a.id, a.batch, a.gone, a.ok);
    } else {
      match a {
        case Begin(id, _) => BeginSince(origin, st.store, p);
        case NextPage(id, page) => NextPageSince(origin, st.store, p, st.passes[id], page);
        case ReadPair(id, stem) => ReadPairSince(w, origin, st.store, p, st.passes[id], stem);
        case ReadDangling(id, stem) => ReadDanglingSince(origin, st.store, p, st.passes[id], stem);
        case Select(id) => SelectSince(origin, st.store, p, st.passes[id]);
        case NextStage(id) => NextStageSince(origin, st.store, p, st.passes[id]);
        case Stop(id) =>
      }
      SinceStep(origin, st, st', p, a.id);
    }
  }

  lemma {:induction false} RunSince(w: World, origin: Bucket, st: System, policy: Policy,
                                    actions: seq<Action>, st': System)
    requires IsScope(w.scope) && Since(origin, st, PassOf(w, policy))
    requires Leads(w, st, actions, st') && forall a :: a in actions ==> PassStep(a, policy)
    ensures Since(origin, st', PassOf(w, policy))
    decreases |actions|
  {
    hide Since, PassStep, Enabled, Next;
    if actions == [] {
    } else {
      StepSince(w, origin, st, policy, actions[0]);
      RunSince(w, origin, Next(w, st, actions[0]), policy, actions[1..], st');
    }
  }

  /** Whatever passes of one policy do together, crashing or not, the bucket they leave is
      one a single interrupted pass may leave: one more full pass ends where one pass over
      the original bucket ends, and the pass after it finds nothing to remove. */
  lemma PassesConverge(w: World, st: System, policy: Policy, actions: seq<Action>, st': System)
    requires IsScope(w.scope) && st.passes == map[]
    requires Leads(w, st, actions, st') && forall a :: a in actions ==> PassStep(a, policy)
    ensures var p := PassOf(w, policy);
            && Interrupted(st.store, st'.store, p)
            && AfterPass(st'.store, p) == AfterPass(st.store, p)
            && RemovedBy(AfterPass(st'.store, p), p) == {}
  {
    var p := PassOf(w, policy);
    assert Gone(st.store, st.store) == {};
    RunSince(w, st.store, st, policy, actions, st');
    PassAfterInterruption(st.store, st'.store, p);
    PassIdempotent(st'.store, p);
  }
}
