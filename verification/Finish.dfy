/** While no upload is running, a pass that gets to its end has removed everything one
    uninterrupted pass over the original bucket removes, whatever other passes of the same
    policy did meanwhile. */
module Finish {
  import opened Backups
  import opened Store
  import opened Listing
  import opened Retention
  import opened Protocol
  import opened Prune
  import opened Converge
  import Safety

  /** Of the dangling manifests read so far none that may go was left out. */
  ghost predicate NoneOmitted(origin: Bucket, p: Pass, seen: map<string, nat>, checked: set<string>,
                              dangling: set<string>) {
    forall stem :: stem in checked && IsDangling(seen, stem) && ManifestKey(stem) in origin
                   && OursToDelete(origin[ManifestKey(stem)], p.owner) ==>
      ManifestKey(stem) in dangling
  }

  /** The keys a pass still has to delete. */
  ghost function Left(q: PassState): set<string>
    requires q.Deleting?
  {
    var ciphers, manifests := set b | b in q.drop :: b.key, set b | b in q.drop :: b.manifestKey;
    match q.stage
    case Ciphers => (ciphers - q.done) + manifests + q.dangling
    case Manifests => (manifests - q.done) + q.dangling
    case Leftovers => q.dangling - q.done
  }

  /** Whatever one full pass removes and is still there, this pass will come to. */
  ghost predicate Thorough(origin: Bucket, store: Bucket, p: Pass, q: PassState)
    requires IsScope(p.scope)
  {
    match q
    case Paging(_, _, _) => true
    case Reading(_, seen, _, _, checked, dangling) => NoneOmitted(origin, p, seen, checked, dangling)
    case Deleting(_, _, _, _) => forall k :: k in RemovedBy(origin, p) && k in store ==> k in Left(q)
  }

  ghost predicate AllThorough(origin: Bucket, st: System, p: Pass)
    requires IsScope(p.scope)
  {
    forall id :: id in st.passes ==> Thorough(origin, st.store, p, st.passes[id])
  }

  lemma OthersThorough(origin: Bucket, st: System, st': System, p: Pass, changed: nat)
    requires IsScope(p.scope) && AllThorough(origin, st, p) && st'.store.Keys <= st.store.Keys
    requires forall id :: id in st'.passes && id != changed ==> id in st.passes && st'.passes[id] == st.passes[id]
    requires changed in st'.passes ==> Thorough(origin, st'.store, p, st'.passes[changed])
    ensures AllThorough(origin, st', p)
  {
    hide RemovedBy, Left, NoneOmitted;
    forall id | id in st'.passes && id != changed
      ensures Thorough(origin, st'.store, p, st'.passes[id])
    {
      assert Thorough(origin, st.store, p, st.passes[id]);
    }
  }

  lemma ReadDanglingThorough(origin: Bucket, store: Bucket, p: Pass, q: PassState, stem: string)
    requires IsScope(p.scope) && Partial(origin, store, p) && q.Reading? && Thorough(origin, store, p, q)
    requires IsDangling(q.seen, stem) && ManifestKey(stem) in store
    ensures Thorough(origin, store, p, q.(
              checked := q.checked + {stem},
              dangling := if OursToDelete(store[ManifestKey(stem)], p.owner) then q.dangling + {ManifestKey(stem)}
                          else q.dangling))
  {
    hide CipherKey, ManifestKey, RemovedBy, Interruptible, OursToDelete;
    assert store[ManifestKey(stem)] == origin[ManifestKey(stem)];
  }

  /** A manifest that is still there, its ciphertext unseen, was found deletable. */
  lemma LeftoverFound(origin: Bucket, store: Bucket, p: Pass, q: PassState, stem: string)
    requires IsScope(p.scope) && q.Reading? && PassSince(origin, store, p, q) && Thorough(origin, store, p, q)
    requires forall s :: IsDangling(q.seen, s) ==> s in q.checked
    requires p.scope <= stem && ManifestKey(stem) in origin && ManifestKey(stem) in store
    requires CipherKey(stem) !in q.seen && OursToDelete(origin[ManifestKey(stem)], p.owner)
    ensures ManifestKey(stem) in q.dangling
  {
    hide CipherKey, OursToDelete, RemovedBy, WithState, Dropped, MayGo;
    assert p.scope <= ManifestKey(stem);
    assert IsDangling(q.seen, stem);
  }

  /** A dropped backup of which something is left is dropped by the pass, or its manifest is
      among the dangling ones found. */
  lemma DroppedFound(origin: Bucket, store: Bucket, p: Pass, q: PassState, b: BackupInfo)
    requires IsScope(p.scope) && Partial(origin, store, p) && q.Reading? && PassSince(origin, store, p, q)
    requires Thorough(origin, store, p, q)
    requires forall s :: IsPair(q.seen, s) ==> s in q.read
    requires forall s :: IsDangling(q.seen, s) ==> s in q.checked
    requires b in Dropped(origin, p) && (b.key in store || b.manifestKey in store)
    ensures b in q.infos || (b.key !in store && b.manifestKey in q.dangling)
  {
    hide CipherKey, ManifestKey, OursToDelete, RemovedBy, KeepSet, Entries, Entry, MayGo;
    var stem := EntryStem(origin, p, b);
    StemOfArtifacts(stem);
    Safety.PrefixOfConcat(p.scope, stem, CIPHERTEXT_SUFFIX);
    Safety.PrefixOfConcat(p.scope, stem, MANIFEST_SUFFIX);
    KeysAre(stem);
    DroppedKeyExists(origin, p, b);
    assert b.key in store ==> b.manifestKey in store by {
      assert b.manifestKey in Gone(origin, store) ==> b.key in Gone(origin, store);
    }
    if CipherKey(stem) in q.seen {
      assert IsPair(q.seen, stem);
    } else {
      ValidIsOurs(origin, p, b);
      LeftoverFound(origin, store, p, q, stem);
    }
  }

  lemma SelectThorough(origin: Bucket, store: Bucket, p: Pass, q: PassState)
    requires IsScope(p.scope) && Partial(origin, store, p) && q.Reading? && PassSince(origin, store, p, q)
    requires Thorough(origin, store, p, q)
    requires forall s :: IsPair(q.seen, s) ==> s in q.read
    requires forall s :: IsDangling(q.seen, s) ==> s in q.checked
    ensures Thorough(origin, store, p, Deleting(q.infos - KeepSet(q.infos, q.policy), q.dangling, Ciphers, {}))
  {
    hide CipherKey, ManifestKey, OursToDelete, RemovedBy, KeepSet, Entries, Entry, MayGo, Interruptible;
    var next := Deleting(q.infos - KeepSet(q.infos, q.policy), q.dangling, Ciphers, {});
    SameKept(origin, store, p, q);
    forall k | k in RemovedBy(origin, p) && k in store
      ensures k in Left(next)
    {
      RemovedCases(origin, p, k);
      if b :| b in Dropped(origin, p) && (b.key == k || b.manifestKey == k) {
        DroppedFound(origin, store, p, q, b);
        assert b in q.infos ==> b in next.drop;
      } else {
        var b :| b in WithState(origin, p, Dangling) && b.manifestKey == k && k in origin
                 && OursToDelete(origin[k], p.owner);
        var stem := EntryStem(origin, p, b);
        LeftoverFound(origin, store, p, q, stem);
      }
    }
  }

  /** The pass keeps what one full pass keeps. */
  lemma SameKept(origin: Bucket, store: Bucket, p: Pass, q: PassState)
    requires IsScope(p.scope) && Partial(origin, store, p) && q.Reading? && PassSince(origin, store, p, q)
    requires forall s :: IsPair(q.seen, s) ==> s in q.read
    ensures q.policy == p.policy
    ensures KeepSet(q.infos, p.policy) == KeepSet(WithState(origin, p, State.Valid), p.policy)
  {
    hide CipherKey, ManifestKey, RemovedBy, Kept, Entries, Entry, DistinctKeys, MayGo;
    var valid := WithState(origin, p, State.Valid);
    forall b | b in KeepSet(valid, p.policy)
      ensures b in q.infos
    {
      KeptIsUntouched(origin, p, b);
      var stem := EntryStem(origin, p, b);
      StemOfArtifacts(stem);
      Safety.PrefixOfConcat(p.scope, stem, CIPHERTEXT_SUFFIX);
      Safety.PrefixOfConcat(p.scope, stem, MANIFEST_SUFFIX);
      KeysAre(stem);
      assert IsPair(q.seen, stem);
    }
    ValidKeysDistinct(origin, p);
    SelectionStable(valid, q.infos, p.policy);
  }

  lemma DeleteThorough(origin: Bucket, store: Bucket, p: Pass, q: PassState, batch: set<string>)
    requires IsScope(p.scope) && q.Deleting? && Thorough(origin, store, p, q) && batch <= Todo(q)
    ensures Thorough(origin, store - batch, p, q.(done := q.done + batch))
  {
    hide RemovedBy;
    var next := q.(done := q.done + batch);
    forall k | k in RemovedBy(origin, p) && k in store && k !in batch
      ensures k in Left(next)
    {
      assert k in Left(q);
    }
  }

  lemma NextStageThorough(origin: Bucket, store: Bucket, p: Pass, q: PassState)
    requires IsScope(p.scope) && q.Deleting? && Thorough(origin, store, p, q) && Todo(q) <= q.done
    ensures q.stage == Ciphers ==> Thorough(origin, store, p, q.(stage := Manifests, done := {}))
    ensures q.stage == Manifests ==> Thorough(origin, store, p, q.(stage := Leftovers, done := {}))
    ensures q.stage == Leftovers ==> RemovedBy(origin, p) !! store.Keys
  {
    hide RemovedBy;
    forall k | k in RemovedBy(origin, p) && k in store
      ensures k in Left(q)
    {
    }
  }

  lemma StepThorough(w: World, origin: Bucket, st: System, policy: Policy, a: Action)
    requires IsScope(w.scope) && Since(origin, st, PassOf(w, policy)) && AllThorough(origin, st, PassOf(w, policy))
    requires Enabled(w, st, a) && PassStep(a, policy)
    ensures AllThorough(origin, Next(w, st, a), PassOf(w, policy))
  {
    hide CipherKey, ManifestKey, Partial, PassSince, PageOf, AddPage, PairInfo, KeepSet, Todo, OursToDelete, Foreign,
      Forged, Thorough, RemovedBy, AfterDelete;
    var p := PassOf(w, policy);
    var st' := Next(w, st, a);
    match a {
      case Begin(id, _) => EmptyThorough(origin, st.store, p, Paging(policy, "", map[]));
      case NextPage(id, page) =>
        assert st'.passes[id].Paging? || (st'.passes[id].Reading? && st'.passes[id].checked == {});
        EmptyThorough(origin, st.store, p, st'.passes[id]);
      case ReadPair(id, stem) => ReadPairThorough(origin, st.store, p, st.passes[id], st'.passes[id]);
      case ReadDangling(id, stem) => ReadDanglingThorough(origin, st.store, p, st.passes[id], stem);
      case Select(id) => SelectThorough(origin, st.store, p, st.passes[id]);
      case DeleteBatch(id, batch, gone, ok) =>
        DeleteThorough(origin, st.store, p, st.passes[id], batch);
        DeletedState(st, id, batch, gone, ok);
      case NextStage(id) => NextStageThorough(origin, st.store, p, st.passes[id]);
      case Stop(id) =>
    }
    OthersThorough(origin, st, st', p, a.id);
  }

  lemma DeletedState(st: System, id: nat, batch: set<string>, gone: set<string>, ok: bool)
    requires id in st.passes && st.passes[id].Deleting? && (ok ==> gone == batch)
    ensures var st' := AfterDelete(st, id, batch, gone, ok); var q := st.passes[id];
            && st'.store.Keys <= st.store.Keys
            && (if ok then st'.passes == st.passes[id := q.(done := q.done + batch)] && st'.store == st.store - batch
                else st'.passes == st.passes - {id})
  {
  }

  lemma EmptyThorough(origin: Bucket, store: Bucket, p: Pass, q: PassState)
    requires IsScope(p.scope) && (q.Paging? || (q.Reading? && q.checked == {}))
    ensures Thorough(origin, store, p, q)
  {
  }

  lemma ReadPairThorough(origin: Bucket, store: Bucket, p: Pass, q: PassState, q': PassState)
    requires IsScope(p.scope) && Thorough(origin, store, p, q) && q.Reading? && q'.Reading?
    requires q'.seen == q.seen && q'.checked == q.checked && q'.dangling == q.dangling
    ensures Thorough(origin, store, p, q')
  {
  }

  lemma {:induction false} RunThorough(w: World, origin: Bucket, st: System, policy: Policy,
                                       actions: seq<Action>, st': System)
    requires IsScope(w.scope) && Since(origin, st, PassOf(w, policy)) && AllThorough(origin, st, PassOf(w, policy))
    requires Leads(w, st, actions, st') && forall a :: a in actions ==> PassStep(a, policy)
    ensures Since(origin, st', PassOf(w, policy)) && AllThorough(origin, st', PassOf(w, policy))
    decreases |actions|
  {
    hide Since, AllThorough, PassStep, Enabled, Next;
    if actions == [] {
    } else {
      StepSince(w, origin, st, policy, actions[0]);
      StepThorough(w, origin, st, policy, actions[0]);
      RunThorough(w, origin, Next(w, st, actions[0]), policy, actions[1..], st');
    }
  }

  /** When a pass is through with its last stage, the bucket is what one uninterrupted pass
      over the original bucket leaves. */
  lemma FinishedPassIsWhole(w: World, st: System, policy: Policy, actions: seq<Action>, st': System, id: nat)
    requires IsScope(w.scope) && st.passes == map[]
    requires Leads(w, st, actions, st') && forall a :: a in actions ==> PassStep(a, policy)
    requires id in st'.passes && st'.passes[id].Deleting? && st'.passes[id].stage == Leftovers
    requires Enabled(w, st', NextStage(id))
    ensures st'.store == AfterPass(st.store, PassOf(w, policy))
  {
    hide RemovedBy, PassStep, Leads, Thorough, Interruptible, PassSince;
    var p := PassOf(w, policy);
    assert Since(st.store, st, p) by { StartSince(st, p); }
    RunThorough(w, st.store, st, policy, actions, st');
    NextStageThorough(st.store, st'.store, p, st'.passes[id]);
    RemovedIs(st.store, p);
    assert Gone(st.store, st'.store) <= RemovedBy(st.store, p);
    assert st'.store == st.store - RemovedBy(st.store, p);
  }

  lemma StartSince(st: System, p: Pass)
    requires IsScope(p.scope) && st.passes == map[]
    ensures Since(st.store, st, p)
  {
    assert Gone(st.store, st.store) == {};
  }
}
