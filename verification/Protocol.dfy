/** The bucket protocol as a transition system: any number of uploads and retention passes,
    and writers of foreign objects, interleaved one S3 call at a time. */
module Protocol {
  import opened Wrappers
  import opened Backups
  import opened Text
  import opened Store
  import opened Listing
  import opened Retention
  import Prune

  /** What is fixed over a run: the scope, its owner, the stems the uploads of the run will
      ever use, each with the manifest it writes, and a policy whose counters those of every
      pass reach. */
  datatype World = World(scope: string, owner: Option<Owner>, names: map<string, Manifest>, floor: Policy)

  /** The policy keeps at least as much as the floor. */
  predicate Reaches(floor: Policy, policy: Policy) {
    floor.daily <= policy.daily && floor.weekly <= policy.weekly && floor.monthly <= policy.monthly
  }

  /** Below every valid policy: its only claim is the newest backup. */
  const LEAST := Policy(-1, 0, 0)

  lemma LeastIsReached(policy: Policy)
    requires policy.Valid()
    ensures Reaches(LEAST, policy) && !LEAST.AllZero()
  {
  }

  /** Backup ids are fresh and of one length, and every manifest describes its own backup. */
  ghost predicate WorldOk(w: World) {
    && IsScope(w.scope) && !w.floor.AllZero()
    && (forall s, t :: s in w.names && t in w.names ==> |s| == |t|)
    && (forall s :: s in w.names ==> w.scope <= s && Trusted(CipherKey(s), w.names[s], w.owner))
  }

  datatype Stage = Ciphers | Manifests | Leftovers

  /** Where a retention pass is. `seen` holds the listed keys with their sizes, `infos` the
      valid backups read so far, `dangling` the dangling manifests found deletable. */
  datatype PassState =
    | Paging(policy: Policy, token: string, seen: map<string, nat>)
    | Reading(policy: Policy, seen: map<string, nat>, read: set<string>, infos: set<BackupInfo>,
              checked: set<string>, dangling: set<string>)
    | Deleting(drop: set<BackupInfo>, dangling: set<string>, stage: Stage, done: set<string>)

  /** `completed` and `published` record which uploads ever completed their ciphertext, with
      its size, and ever wrote their manifest. */
  datatype System = System(
    store: Bucket,
    completed: map<string, nat>,
    published: set<string>,
    passes: map<nat, PassState>)

  datatype Action =
    | Complete(stem: string, size: nat)
    | Publish(stem: string, size: nat)
    | ForeignPut(key: string, obj: Obj)
    | ForeignDelete(key: string)
    | Begin(id: nat, policy: Policy)
    | NextPage(id: nat, page: Page)
    | ReadPair(id: nat, stem: string)
    | ReadDangling(id: nat, stem: string)
    | Select(id: nat)
    | DeleteBatch(id: nat, batch: set<string>, gone: set<string>, ok: bool)
    | NextStage(id: nat)
    | Stop(id: nat)

  // ------------------------------------------------------- pieces of a step

  /** A key outsiders may touch: not one of a backup's own, nor an extension of its stem. */
  ghost predicate Foreign(w: World, k: string) {
    forall s :: s in w.names ==> !(s + "." <= k)
  }

  /** Outsiders do not forge manifests that would make a ciphertext deletable. */
  predicate Forged(w: World, k: string, o: Obj) {
    HasSuffix(k, MANIFEST_SUFFIX) && o.parsed.Some?
    && Trusted(CipherKey(StemOf(k)), o.parsed.value, w.owner)
  }

  function AddPage(seen: map<string, nat>, items: seq<Item>): map<string, nat> {
    if items == [] then seen
    else AddPage(seen, items[..|items| - 1])[items[|items| - 1].key := items[|items| - 1].size]
  }

  predicate IsPair(seen: map<string, nat>, stem: string) {
    CipherKey(stem) in seen && ManifestKey(stem) in seen
  }

  predicate IsDangling(seen: map<string, nat>, stem: string) {
    CipherKey(stem) !in seen && ManifestKey(stem) in seen
  }

  /** The entry for a listed pair: the size check uses the listing, the rest the object. */
  function PairInfo(w: World, store: Bucket, seen: map<string, nat>, stem: string): BackupInfo
    requires IsPair(seen, stem)
  {
    var parsed := if ManifestKey(stem) in store then store[ManifestKey(stem)].parsed else None;
    ManifestEntry(CipherKey(stem), ManifestKey(stem), Obj(seen[ManifestKey(stem)], parsed), w.owner)
      .(bytes := seen[CipherKey(stem)])
  }

  ghost function Todo(p: PassState): set<string>
    requires p.Deleting?
  {
    match p.stage
    case Ciphers => set b | b in p.drop :: b.key
    case Manifests => set b | b in p.drop :: b.manifestKey
    case Leftovers => p.dangling
  }

  ghost predicate Enabled(w: World, st: System, a: Action) {
    match a
    case Complete(s, _) => s in w.names && s !in st.completed
    case Publish(s, size) => s in st.completed && s in w.names && size <= MAX_MANIFEST_BYTES
    case ForeignPut(k, o) => Foreign(w, k) && !Forged(w, k, o)
    case ForeignDelete(k) => Foreign(w, k)
    case Begin(id, policy) => id !in st.passes && policy.Valid() && Reaches(w.floor, policy)
    case NextPage(id, page) =>
      id in st.passes && st.passes[id].Paging? && PageOf(st.store, w.scope, st.passes[id].token, page)
    case ReadPair(id, stem) =>
      && id in st.passes && st.passes[id].Reading? && IsPair(st.passes[id].seen, stem)
      && (ManifestKey(stem) in st.store || MAX_MANIFEST_BYTES < st.passes[id].seen[ManifestKey(stem)])
    case ReadDangling(id, stem) =>
      id in st.passes && st.passes[id].Reading? && IsDangling(st.passes[id].seen, stem)
      && ManifestKey(stem) in st.store
    case Select(id) =>
      && id in st.passes && st.passes[id].Reading?
      && (forall stem :: IsPair(st.passes[id].seen, stem) ==> stem in st.passes[id].read)
      && (forall stem :: IsDangling(st.passes[id].seen, stem) ==> stem in st.passes[id].checked)
    case DeleteBatch(id, batch, gone, ok) =>
      && id in st.passes && st.passes[id].Deleting?
      && batch <= Todo(st.passes[id]) && |batch| <= DELETE_BATCH && gone <= batch && (ok ==> gone == batch)
    case NextStage(id) =>
      id in st.passes && st.passes[id].Deleting? && Todo(st.passes[id]) <= st.passes[id].done
    case Stop(id) => id in st.passes
  }

  ghost function AfterDelete(st: System, id: nat, batch: set<string>, gone: set<string>, ok: bool): System
    requires id in st.passes && st.passes[id].Deleting?
  {
    var p := st.passes[id];
    st.(store := st.store - gone,
        passes := if ok then st.passes[id := p.(done := p.done + batch)] else st.passes - {id})
  }

  ghost function Next(w: World, st: System, a: Action): System
    requires Enabled(w, st, a)
  {
    match a
    case Complete(s, size) =>
      st.(store := st.store[CipherKey(s) := Obj(size, None)], completed := st.completed[s := size])
    case Publish(s, size) =>
      st.(store := st.store[ManifestKey(s) := Obj(size, Some(w.names[s]))], published := st.published + {s})
    case ForeignPut(k, o) => st.(store := st.store[k := o])
    case ForeignDelete(k) => st.(store := st.store - {k})
    case Begin(id, policy) => st.(passes := st.passes[id := Paging(policy, "", map[])])
    case NextPage(id, page) =>
      var p := st.passes[id];
      var seen := AddPage(p.seen, page.items);
      st.(passes := st.passes[id :=
        if page.more then Paging(p.policy, page.items[|page.items| - 1].key, seen)
        else Reading(p.policy, seen, {}, {}, {}, {})])
    case ReadPair(id, stem) =>
      var p := st.passes[id];
      var info := PairInfo(w, st.store, p.seen, stem);
      st.(passes := st.passes[id := p.(
        read := p.read + {stem},
        infos := if info.state == State.Valid then p.infos + {info} else p.infos)])
    case ReadDangling(id, stem) =>
      var p := st.passes[id];
      var k := ManifestKey(stem);
      st.(passes := st.passes[id := p.(
        checked := p.checked + {stem},
        dangling := if Prune.OursToDelete(st.store[k], w.owner) then p.dangling + {k} else p.dangling)])
    case Select(id) =>
      var p := st.passes[id];
      st.(passes := st.passes[id := Deleting(p.infos - KeepSet(p.infos, p.policy), p.dangling, Ciphers, {})])
    case DeleteBatch(id, batch, gone, ok) => AfterDelete(st, id, batch, gone, ok)
    case NextStage(id) =>
      var p := st.passes[id];
      st.(passes := match p.stage
        case Ciphers => st.passes[id := p.(stage := Manifests, done := {})]
        case Manifests => st.passes[id := p.(stage := Leftovers, done := {})]
        case Leftovers => st.passes - {id})
    case Stop(id) => st.(passes := st.passes - {id})
  }

  /** From st the actions lead to st'. */
  ghost predicate Leads(w: World, st: System, actions: seq<Action>, st': System)
    decreases |actions|
  {
    if actions == [] then st' == st
    else Enabled(w, st, actions[0]) && Leads(w, Next(w, st, actions[0]), actions[1..], st')
  }

  /** Before the first upload: only foreign objects, no pass. */
  ghost predicate Initial(w: World, st: System) {
    && WorldOk(w)
    && st.completed == map[] && st.published == {} && st.passes == map[]
    && forall k :: k in st.store ==> Foreign(w, k) && !Forged(w, k, st.store[k])
  }

  // ------------------------------------------------------------- lemmas

  lemma {:induction false} AddPageKeys(seen: map<string, nat>, items: seq<Item>)
    ensures forall k :: k in AddPage(seen, items) <==> k in seen || k in PageKeys(Page(items, true))
    ensures forall k :: k in AddPage(seen, items) && k !in PageKeys(Page(items, true)) ==>
              AddPage(seen, items)[k] == seen[k]
  {
    if items == [] {
    } else {
      var front, last := items[..|items| - 1], items[|items| - 1];
      AddPageKeys(seen, front);
      forall k
        ensures k in PageKeys(Page(items, true)) <==> k in PageKeys(Page(front, true)) || k == last.key
      {
        if k in PageKeys(Page(front, true)) {
          var i :| 0 <= i < |front| && front[i].key == k;
          assert items[i].key == k;
        }
        assert items[|items| - 1].key == last.key;
      }
    }
  }

  /** Listed sizes are the sizes of the objects. */
  lemma {:induction false} AddPageSizes(bucket: Bucket, seen: map<string, nat>, items: seq<Item>, k: string)
    requires forall i :: 0 <= i < |items| ==>
      items[i].key in bucket && items[i].size == bucket[items[i].key].size
    requires k in PageKeys(Page(items, true))
    ensures k in AddPage(seen, items) && k in bucket && AddPage(seen, items)[k] == bucket[k].size
  {
    AddPageKeys(seen, items);
    var last := items[|items| - 1];
    if k == last.key {
    } else {
      var i :| 0 <= i < |items| && items[i].key == k;
      assert items[..|items| - 1][i].key == k;
      AddPageSizes(bucket, seen, items[..|items| - 1], k);
    }
  }

  /** Only the two artifacts of a backup sort between its ciphertext and its manifest. */
  lemma BetweenSiblings(s: string, k: string)
    requires Below(CipherKey(s), k) && Below(k, ManifestKey(s))
    ensures s + "." <= k
  {
    assert CipherKey(s) == (s + ".") + "dump.zst.age";
    assert ManifestKey(s) == (s + ".") + "manifest.json";
    BetweenSharesPrefix(s + ".", "dump.zst.age", "manifest.json", k);
  }

  lemma CipherBelowManifest(s: string)
    ensures Below(CipherKey(s), ManifestKey(s))
  {
    assert CipherKey(s) == (s + ".") + "dump.zst.age";
    assert ManifestKey(s) == (s + ".") + "manifest.json";
    BelowCommonPrefix(s + ".", "dump.zst.age", "manifest.json");
  }

  /** Artifacts of one backup do not extend the stem of another of the same length. */
  lemma OwnKeysSeparate(s: string, t: string)
    requires |s| == |t| && (s + "." <= CipherKey(t) || s + "." <= ManifestKey(t))
    ensures s == t
  {
    if s + "." <= CipherKey(t) {
      assert s == (s + ".")[..|s|] == CipherKey(t)[..|s|] == t;
    } else {
      assert s == (s + ".")[..|s|] == ManifestKey(t)[..|s|] == t;
    }
  }

  lemma OwnKeysExtendStem(s: string)
    ensures s + "." <= CipherKey(s) && s + "." <= ManifestKey(s)
  {
    assert CipherKey(s)[..|s| + 1] == s + ".";
    assert ManifestKey(s)[..|s| + 1] == s + ".";
  }
}
