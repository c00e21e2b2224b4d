/** What every interleaving of uploads, passes, crashes and foreign writes keeps: the newest
    backup ever published survives, and no published backup is ever left without its
    manifest. */
module Safety {
  import opened Wrappers
  import opened Backups
  import opened Text
  import opened Store
  import opened Listing
  import opened Retention
  import opened Protocol
  import Prune

  /** The entry of one of our own backups. */
  ghost function Info(w: World, st: System, s: string): BackupInfo
    requires WorldOk(w) && s in w.names && s in st.completed
  {
    BackupInfo(CipherKey(s), ManifestKey(s), State.Valid, w.names[s].createdAt.value, st.completed[s], Some(w.names[s]))
  }

  ghost predicate Known(w: World, st: System) {
    && WorldOk(w)
    && st.published <= st.completed.Keys <= w.names.Keys
  }

  ghost predicate Published(w: World, st: System, s: string) {
    Known(w, st) && s in st.published
  }

  /** The ciphertext was completed and is no longer there. */
  ghost predicate Deleted(st: System, s: string) {
    s in st.completed && CipherKey(s) !in st.store
  }

  /** All backups ever published. */
  ghost function Ever(w: World, st: System): set<BackupInfo>
    requires Known(w, st)
  {
    set s | s in st.published :: Info(w, st, s)
  }

  /** Selecting from all backups ever published, the floor does not keep it. */
  ghost predicate Superseded(w: World, st: System, s: string) {
    Published(w, st, s) && Info(w, st, s) !in KeepSet(Ever(w, st), w.floor)
  }

  // ------------------------------------------------------------- invariant

  ghost predicate StoreOk(w: World, st: System) {
    && Known(w, st)
    && (forall s :: s in w.names && CipherKey(s) in st.store ==>
          s in st.completed && st.store[CipherKey(s)].size == st.completed[s])
    && (forall s :: s in w.names && ManifestKey(s) in st.store ==>
          && s in st.published
          && st.store[ManifestKey(s)].size <= MAX_MANIFEST_BYTES
          && st.store[ManifestKey(s)].parsed == Some(w.names[s]))
  }

  ghost predicate OnlyOwn(w: World, st: System) {
    && (forall k, s :: k in st.store && s in w.names && s + "." <= k ==> k == CipherKey(s) || k == ManifestKey(s))
    && (forall k :: k in st.store && Foreign(w, k) ==> !Forged(w, k, st.store[k]))
  }

  ghost predicate HistoryOk(w: World, st: System) {
    && Known(w, st)
    && (forall s :: s in w.names && Deleted(st, s) ==> Superseded(w, st, s))
    && (forall s :: s in st.published && ManifestKey(s) !in st.store ==> Deleted(st, s))
  }

  /** What a listing has seen of our own backups. */
  ghost predicate SeenOk(w: World, st: System, seen: map<string, nat>) {
    && Known(w, st)
    && (forall s :: s in w.names && CipherKey(s) in seen ==>
          s in st.completed && seen[CipherKey(s)] == st.completed[s])
    && (forall s :: s in w.names && ManifestKey(s) in seen ==>
          s in st.published && seen[ManifestKey(s)] <= MAX_MANIFEST_BYTES)
    && (forall s :: s in w.names && IsDangling(seen, s) ==> Deleted(st, s))
    && (forall k :: k in seen ==> w.scope <= k)
  }

  /** A page boundary falls between the two artifacts of a backup only on the ciphertext. */
  ghost predicate TokenOk(w: World, token: string, seen: map<string, nat>) {
    forall s :: s in w.names && s + "." <= token ==>
      token == ManifestKey(s) || (token == CipherKey(s) && token in seen)
  }

  ghost predicate IsInfo(w: World, st: System, b: BackupInfo) {
    exists s :: Published(w, st, s) && b == Info(w, st, s)
  }

  ghost predicate DanglingOk(w: World, st: System, dangling: set<string>) {
    && (forall k :: k in dangling ==> HasSuffix(k, MANIFEST_SUFFIX) && w.scope <= k)
    && (forall s :: s in w.names && ManifestKey(s) in dangling ==> Deleted(st, s))
  }

  ghost predicate DropOk(w: World, st: System, drop: set<BackupInfo>) {
    forall b :: b in drop ==>
      exists s :: Published(w, st, s) && b == Info(w, st, s) && Superseded(w, st, s)
  }

  ghost predicate PassOk(w: World, st: System, p: PassState) {
    match p
    case Paging(policy, token, seen) =>
      Reaches(w.floor, policy) && SeenOk(w, st, seen) && TokenOk(w, token, seen)
    case Reading(policy, seen, _, infos, _, dangling) =>
      && Reaches(w.floor, policy) && SeenOk(w, st, seen)
      && (forall b :: b in infos ==> IsInfo(w, st, b))
      && DanglingOk(w, st, dangling)
    case Deleting(drop, dangling, stage, done) =>
      && DropOk(w, st, drop)
      && DanglingOk(w, st, dangling)
      && (forall b :: b in drop && (stage == Ciphers ==> b.key in done) ==> b.key !in st.store)
  }

  ghost predicate Inv(w: World, st: System) {
    && StoreOk(w, st) && OnlyOwn(w, st) && HistoryOk(w, st)
    && forall id :: id in st.passes ==> PassOk(w, st, st.passes[id])
  }

  lemma InitialInv(w: World, st: System)
    requires Initial(w, st)
    ensures Inv(w, st)
  {
    forall s | s in w.names
      ensures CipherKey(s) !in st.store && ManifestKey(s) !in st.store
    {
      OwnKeysExtendStem(s);
    }
  }

  // -------------------------------- facts that only grow as the run goes on

  /** Nothing recorded is forgotten, and no deleted ciphertext comes back. */
  ghost predicate Grows(w: World, st: System, st': System) {
    && Known(w, st) && Known(w, st')
    && st.published <= st'.published
    && (forall s :: s in st.completed ==> s in st'.completed && st'.completed[s] == st.completed[s])
    && (forall s :: s in st.completed && Deleted(st, s) ==> Deleted(st', s))
  }

  lemma PassOkGrows(w: World, st: System, st': System, p: PassState)
    requires Grows(w, st, st') && PassOk(w, st, p)
    ensures PassOk(w, st', p)
  {
    hide CipherKey, ManifestKey, Newer, WorldOk;
    match p
    case Paging(_, token, seen) =>
    case Reading(_, seen, _, infos, _, dangling) =>
      forall b | b in infos
        ensures IsInfo(w, st', b)
      {
        var s :| Published(w, st, s) && b == Info(w, st, s);
        assert Published(w, st', s) && b == Info(w, st', s);
      }
    case Deleting(drop, dangling, stage, done) =>
      forall b | b in drop
        ensures exists s :: Published(w, st', s) && b == Info(w, st', s) && Superseded(w, st', s)
        ensures b.key !in st.store ==> b.key !in st'.store
      {
        var s :| Published(w, st, s) && b == Info(w, st, s) && Superseded(w, st, s);
        SupersededGrows(w, st, st', s);
        assert Published(w, st', s) && b == Info(w, st', s);
      }
  }

  lemma SupersededGrows(w: World, st: System, st': System, s: string)
    requires Grows(w, st, st') && Superseded(w, st, s)
    ensures Superseded(w, st', s)
  {
    hide CipherKey, ManifestKey, Kept, WorldOk;
    var b := Info(w, st, s);
    EverGrows(w, st, st');
    if Kept(Ever(w, st'), w.floor, b) {
      KeptInSubset(Ever(w, st'), Ever(w, st), w.floor, b);
    }
  }

  lemma EverGrows(w: World, st: System, st': System)
    requires Grows(w, st, st')
    ensures Ever(w, st) <= Ever(w, st')
    ensures forall s :: s in st.published ==> Info(w, st', s) == Info(w, st, s) && Info(w, st, s) in Ever(w, st)
  {
    hide CipherKey, ManifestKey, WorldOk;
    forall b | b in Ever(w, st)
      ensures b in Ever(w, st')
    {
      var s :| s in st.published && b == Info(w, st, s);
      assert b == Info(w, st', s);
    }
  }

  /** A step that touches no pass but `changed` keeps the others' invariants. */
  lemma PassesKept(w: World, st: System, st': System, changed: nat)
    requires Inv(w, st) && Grows(w, st, st')
    requires forall id :: id in st'.passes && id != changed ==> id in st.passes && st'.passes[id] == st.passes[id]
    requires changed in st'.passes ==> PassOk(w, st', st'.passes[changed])
    ensures forall id :: id in st'.passes ==> PassOk(w, st', st'.passes[id])
  {
    hide PassOk, Grows;
    forall id | id in st'.passes && id != changed
      ensures PassOk(w, st', st'.passes[id])
    {
      PassOkGrows(w, st, st', st.passes[id]);
    }
  }

  /** ... and likewise a step of the uploads or of outsiders. */
  lemma AllPassesKept(w: World, st: System, st': System)
    requires Inv(w, st) && Grows(w, st, st') && st'.passes == st.passes
    ensures forall id :: id in st'.passes ==> PassOk(w, st', st'.passes[id])
  {
    hide PassOk, Grows;
    forall id | id in st'.passes
      ensures PassOk(w, st', st'.passes[id])
    {
      PassOkGrows(w, st, st', st.passes[id]);
    }
  }

  // ---------------------------------------------- uploads and outsiders

  lemma KeysDistinct(w: World, s: string)
    requires WorldOk(w) && s in w.names
    ensures forall t :: t in w.names ==>
              CipherKey(t) != ManifestKey(s) && ManifestKey(t) != CipherKey(s)
              && (t != s ==> CipherKey(t) != CipherKey(s) && ManifestKey(t) != ManifestKey(s))
  {
    forall t | t in w.names
      ensures CipherKey(t) != ManifestKey(s) && ManifestKey(t) != CipherKey(s)
      ensures t != s ==> CipherKey(t) != CipherKey(s) && ManifestKey(t) != ManifestKey(s)
    {
      Prune.DifferentStems(t, s);
    }
  }

  /** A step that deletes no ciphertext and no manifest keeps the history. */
  lemma HistoryKept(w: World, st: System, st': System)
    requires HistoryOk(w, st) && Grows(w, st, st')
    requires forall s :: s in w.names && Deleted(st', s) ==> Deleted(st, s)
    requires forall s :: s in st'.published && ManifestKey(s) !in st'.store ==>
      s in st.published && ManifestKey(s) !in st.store
    ensures HistoryOk(w, st')
  {
    hide CipherKey, ManifestKey, Newer, WorldOk, Superseded, Deleted;
    forall s | s in w.names && Deleted(st', s)
      ensures Superseded(w, st', s)
    {
      SupersededGrows(w, st, st', s);
    }
  }

  lemma CompleteKeepsInv(w: World, st: System, st': System, s: string, size: nat)
    requires Inv(w, st) && s in w.names && s !in st.completed
    requires st' == st.(store := st.store[CipherKey(s) := Obj(size, None)], completed := st.completed[s := size])
    ensures Inv(w, st')
  {
    hide OnlyOwn, PassOk, Newer, WorldOk, Superseded, Grows;
    hide CipherKey, ManifestKey;
    KeysDistinct(w, s);
    OwnPutKeepsOnlyOwn(w, st, st', s, CipherKey(s));
    CompleteGrows(w, st, st', s);
    CompleteStoreOk(w, st, st', s, size);
    AllPassesKept(w, st, st');
    hide StoreOk;
    HistoryKept(w, st, st');
  }

  lemma CompleteStoreOk(w: World, st: System, st': System, s: string, size: nat)
    requires StoreOk(w, st) && s in w.names && s !in st.completed
    requires st' == st.(store := st.store[CipherKey(s) := Obj(size, None)], completed := st.completed[s := size])
    ensures StoreOk(w, st')
  {
    hide CipherKey, ManifestKey, WorldOk;
    KeysDistinct(w, s);
    forall t | t in w.names && CipherKey(t) in st'.store
      ensures t in st'.completed && st'.store[CipherKey(t)].size == st'.completed[t]
    {
    }
    forall t | t in w.names && ManifestKey(t) in st'.store
      ensures t in st'.published && ManifestKey(t) in st.store && st'.store[ManifestKey(t)] == st.store[ManifestKey(t)]
    {
    }
  }

  lemma CompleteGrows(w: World, st: System, st': System, s: string)
    requires StoreOk(w, st) && s in w.names && s !in st.completed
    requires st'.store.Keys == st.store.Keys + {CipherKey(s)} && st'.published == st.published
    requires st'.completed.Keys == st.completed.Keys + {s}
    requires forall t :: t in st.completed ==> st'.completed[t] == st.completed[t]
    ensures Grows(w, st, st')
  {
    hide CipherKey, ManifestKey, WorldOk;
    KeysDistinct(w, s);
  }

  lemma OwnPutKeepsOnlyOwn(w: World, st: System, st': System, s: string, k: string)
    requires WorldOk(w) && OnlyOwn(w, st) && s in w.names && (k == CipherKey(s) || k == ManifestKey(s))
    requires st'.store.Keys == st.store.Keys + {k}
    requires forall j :: j in st.store && j != k ==> st'.store[j] == st.store[j]
    ensures OnlyOwn(w, st')
  {
    hide CipherKey, ManifestKey, Forged, WorldOk;
    OwnKeysExtendStem(s);
    forall t | t in w.names && t + "." <= k
      ensures t == s
    {
      OwnKeyHasOneStem(w, s, t, k);
    }
  }

  lemma OwnKeyHasOneStem(w: World, s: string, t: string, k: string)
    requires WorldOk(w) && s in w.names && t in w.names && (k == CipherKey(s) || k == ManifestKey(s))
    requires t + "." <= k
    ensures t == s
  {
    hide CipherKey, ManifestKey, Trusted;
    OwnKeysSeparate(t, s);
  }

  lemma PublishKeepsInv(w: World, st: System, st': System, s: string, size: nat)
    requires Inv(w, st) && s in w.names && s in st.completed && size <= MAX_MANIFEST_BYTES
    requires st' == st.(store := st.store[ManifestKey(s) := Obj(size, Some(w.names[s]))],
                        published := st.published + {s})
    ensures Inv(w, st')
  {
    hide OnlyOwn, PassOk, Newer, WorldOk, Superseded;
    hide CipherKey, ManifestKey;
    KeysDistinct(w, s);
    OwnPutKeepsOnlyOwn(w, st, st', s, ManifestKey(s));
    assert Grows(w, st, st');
    AllPassesKept(w, st, st');
    HistoryKept(w, st, st');
  }

  lemma ForeignKeysDiffer(w: World, k: string)
    requires Foreign(w, k)
    ensures forall s :: s in w.names ==> CipherKey(s) != k && ManifestKey(s) != k
  {
    forall s | s in w.names
      ensures CipherKey(s) != k && ManifestKey(s) != k
    {
      OwnKeysExtendStem(s);
    }
  }

  lemma ForeignKeepsInv(w: World, st: System, st': System, k: string)
    requires Inv(w, st) && Foreign(w, k)
    requires st' == st.(store := st'.store)
    requires forall j :: j != k ==> (j in st'.store <==> j in st.store)
    requires forall j :: j != k && j in st.store ==> st'.store[j] == st.store[j]
    requires k in st'.store ==> !Forged(w, k, st'.store[k])
    ensures Inv(w, st')
  {
    hide CipherKey, ManifestKey, Newer, PassOk, Forged, OnlyOwn, WorldOk, Superseded, Foreign;
    ForeignKeysDiffer(w, k);
    ForeignKeepsOnlyOwn(w, st, st', k);
    assert Grows(w, st, st');
    AllPassesKept(w, st, st');
    HistoryKept(w, st, st');
  }

  lemma ForeignKeepsOnlyOwn(w: World, st: System, st': System, k: string)
    requires OnlyOwn(w, st) && Foreign(w, k)
    requires forall j :: j != k ==> (j in st'.store <==> j in st.store)
    requires forall j :: j != k && j in st.store ==> st'.store[j] == st.store[j]
    requires k in st'.store ==> !Forged(w, k, st'.store[k])
    ensures OnlyOwn(w, st')
  {
    hide CipherKey, ManifestKey, Forged;
  }

  // -------------------------------------------------------------- passes

  lemma SameStoreKeepsInv(w: World, st: System, st': System, changed: nat)
    requires Inv(w, st)
    requires st' == st.(passes := st'.passes)
    requires forall id :: id in st'.passes && id != changed ==> id in st.passes && st'.passes[id] == st.passes[id]
    requires changed in st'.passes ==> PassOk(w, st', st'.passes[changed])
    ensures Inv(w, st')
  {
    hide CipherKey, ManifestKey, Newer, PassOk, Forged, WorldOk, Superseded;
    assert Grows(w, st, st');
    PassesKept(w, st, st', changed);
    HistoryKept(w, st, st');
  }

  lemma BeginKeepsInv(w: World, st: System, st': System, id: nat, policy: Policy)
    requires Inv(w, st) && Reaches(w.floor, policy)
    requires st' == st.(passes := st.passes[id := Paging(policy, "", map[])])
    ensures Inv(w, st')
  {
    hide StoreOk, OnlyOwn, HistoryOk, WorldOk;
    assert Known(w, st') by {
      KnownOf(w, st);
    }
    SameStoreKeepsInv(w, st, st', id);
  }

  lemma KnownOf(w: World, st: System)
    requires StoreOk(w, st)
    ensures Known(w, st)
  {
    hide WorldOk;
  }

  /** If the listing meets a manifest of ours without its ciphertext, the ciphertext is gone:
      it was written first, and a page boundary between the two can only be the ciphertext. */
  lemma PageFindsDangling(w: World, st: System, token: string, seen: map<string, nat>, page: Page, s: string)
    requires Inv(w, st) && SeenOk(w, st, seen) && TokenOk(w, token, seen)
    requires PageOf(st.store, w.scope, token, page)
    requires s in w.names && IsDangling(AddPage(seen, page.items), s)
    ensures Deleted(st, s)
  {
    hide CipherKey, ManifestKey, Newer, Forged, OnlyOwn, HistoryOk, AddPage, PassOk, WorldOk, Below;
    var c, m := CipherKey(s), ManifestKey(s);
    AddPageKeys(seen, page.items);
    assert PageKeys(page) == PageKeys(Page(page.items, true));
    CipherBelowManifest(s);
    if m !in seen {
      assert m in Remaining(st.store, w.scope, token);
      if Below(token, c) {
        ScopeOfSibling(w, s);
        CoveredBelow(page, c, m);
        assert c in st.store ==> c in Remaining(st.store, w.scope, token);
      } else {
        BoundaryIsCipher(w, token, seen, s);
      }
    }
  }

  lemma ScopeOfSibling(w: World, s: string)
    requires WorldOk(w) && s in w.names
    ensures w.scope <= CipherKey(s) && w.scope <= ManifestKey(s)
  {
    hide Trusted, IsScope;
    PrefixOfConcat(w.scope, s, CIPHERTEXT_SUFFIX);
    PrefixOfConcat(w.scope, s, MANIFEST_SUFFIX);
  }

  lemma PrefixOfConcat(p: string, s: string, t: string)
    requires p <= s
    ensures p <= s + t
  {
    assert (s + t)[..|p|] == s[..|p|];
  }

  /** A token at or past the ciphertext and short of the manifest is the ciphertext. */
  lemma BoundaryIsCipher(w: World, token: string, seen: map<string, nat>, s: string)
    requires TokenOk(w, token, seen) && s in w.names
    requires !Below(token, CipherKey(s)) && Below(token, ManifestKey(s))
    ensures token == CipherKey(s) && token in seen
  {
    BelowTotal(token, CipherKey(s));
    OwnKeysExtendStem(s);
    BelowIrreflexive(ManifestKey(s));
    if token != CipherKey(s) {
      BetweenSiblings(s, token);
    }
  }

  lemma CoveredBelow(page: Page, c: string, m: string)
    requires forall i, j :: 0 <= i < j < |page.items| ==> Below(page.items[i].key, page.items[j].key)
    requires Below(c, m) && m in PageKeys(page)
    ensures Covered(page, c)
  {
    PageBelowLast(page, m);
    var last := page.items[|page.items| - 1].key;
    if Below(last, c) {
      if m != last {
        BelowTransitive(c, m, last);
      }
      BelowAsymmetric(last, c);
    }
  }

  lemma PageKeepsSeen(w: World, st: System, token: string, seen: map<string, nat>, page: Page)
    requires Inv(w, st) && SeenOk(w, st, seen) && TokenOk(w, token, seen)
    requires PageOf(st.store, w.scope, token, page)
    ensures SeenOk(w, st, AddPage(seen, page.items))
  {
    hide CipherKey, ManifestKey, Newer, PassOk, Forged, AddPage, OnlyOwn, HistoryOk, WorldOk, TokenOk, Deleted;
    var seen' := AddPage(seen, page.items);
    SeenAfterPage(st.store, w.scope, token, seen, page);
    forall s | s in w.names && IsDangling(seen', s)
      ensures Deleted(st, s)
    {
      PageFindsDangling(w, st, token, seen, page, s);
    }
  }

  lemma SeenAfterPage(bucket: Bucket, scope: string, token: string, seen: map<string, nat>, page: Page)
    requires PageOf(bucket, scope, token, page)
    ensures var seen' := AddPage(seen, page.items);
            forall k :: k in seen' ==>
              (k in seen && seen'[k] == seen[k]) || (k in bucket && scope <= k && seen'[k] == bucket[k].size)
    ensures forall k :: k in seen ==> k in AddPage(seen, page.items)
  {
    hide AddPage, Below;
    AddPageKeys(seen, page.items);
    assert PageKeys(page) == PageKeys(Page(page.items, true));
    forall k | k in PageKeys(page)
      ensures k in bucket && scope <= k && AddPage(seen, page.items)[k] == bucket[k].size
    {
      AddPageSizes(bucket, seen, page.items, k);
      assert k in Remaining(bucket, scope, token);
    }
  }

  lemma PageKeepsToken(w: World, st: System, token: string, seen: map<string, nat>, page: Page)
    requires Inv(w, st) && PageOf(st.store, w.scope, token, page) && page.more
    ensures TokenOk(w, page.items[|page.items| - 1].key, AddPage(seen, page.items))
  {
    var last := page.items[|page.items| - 1].key;
    assert last in PageKeys(page);
    assert last in Remaining(st.store, w.scope, token);
  }

  lemma NextPageKeepsInv(w: World, st: System, st': System, id: nat, page: Page)
    requires Inv(w, st) && id in st.passes && st.passes[id].Paging?
    requires PageOf(st.store, w.scope, st.passes[id].token, page)
    requires var p := st.passes[id]; var seen := AddPage(p.seen, page.items);
             st' == st.(passes := st.passes[id :=
               if page.more then Paging(p.policy, page.items[|page.items| - 1].key, seen)
               else Reading(p.policy, seen, {}, {}, {}, {})])
    ensures Inv(w, st')
  {
    hide CipherKey, ManifestKey, Newer, Forged, AddPage, PageOf, StoreOk, OnlyOwn, HistoryOk, TokenOk, SeenOk;
    var p := st.passes[id];
    assert PassOk(w, st, p);
    PageKeepsSeen(w, st, p.token, p.seen, page);
    if page.more {
      MoreMeansItems(st.store, w.scope, p.token, page);
      PageKeepsToken(w, st, p.token, p.seen, page);
    }
    SeenOkSame(w, st, st', AddPage(p.seen, page.items));
    SameStoreKeepsInv(w, st, st', id);
  }

  lemma MoreMeansItems(bucket: Bucket, scope: string, token: string, page: Page)
    requires PageOf(bucket, scope, token, page) && page.more
    ensures page.items != []
  {
  }

  lemma SeenOkSame(w: World, st: System, st': System, seen: map<string, nat>)
    requires SeenOk(w, st, seen)
    requires st'.store == st.store && st'.completed == st.completed && st'.published == st.published
    ensures SeenOk(w, st', seen)
  {
    hide CipherKey, ManifestKey, WorldOk;
  }

  lemma NotOursIsForged(w: World, st: System, stem: string)
    requires WorldOk(w) && OnlyOwn(w, st) && ManifestKey(stem) in st.store && stem !in w.names
    requires st.store[ManifestKey(stem)].parsed.Some?
    ensures !Trusted(CipherKey(stem), st.store[ManifestKey(stem)].parsed.value, w.owner)
  {
    StemOfArtifacts(stem);
    if s :| s in w.names && s + "." <= ManifestKey(stem) {
      Prune.DifferentStems(stem, s);
    }
  }

  /** A pair that reads as valid is one of our own published backups. */
  lemma ValidPairIsOurs(w: World, st: System, seen: map<string, nat>, stem: string)
    requires Inv(w, st) && SeenOk(w, st, seen) && IsPair(seen, stem)
    requires ManifestKey(stem) in st.store || MAX_MANIFEST_BYTES < seen[ManifestKey(stem)]
    requires PairInfo(w, st.store, seen, stem).state == State.Valid
    ensures Published(w, st, stem) && PairInfo(w, st.store, seen, stem) == Info(w, st, stem)
  {
    hide Newer, PassOk, HistoryOk, OnlyOwn, Deleted, WorldOk;
    hide CipherKey, ManifestKey;
    KnownOf(w, st);
    if stem !in w.names {
      NotOursIsForged(w, st, stem);
    }
  }

  lemma InfosSame(w: World, st: System, st': System, infos: set<BackupInfo>)
    requires forall b :: b in infos ==> IsInfo(w, st, b)
    requires st' == st.(passes := st'.passes)
    ensures forall b :: b in infos ==> IsInfo(w, st', b)
  {
    hide CipherKey, ManifestKey, WorldOk;
    forall b | b in infos
      ensures IsInfo(w, st', b)
    {
      var s :| Published(w, st, s) && b == Info(w, st, s);
      assert Published(w, st', s) && b == Info(w, st', s);
    }
  }

  lemma ReadPairKeepsInv(w: World, st: System, st': System, id: nat, stem: string)
    requires Inv(w, st) && id in st.passes && st.passes[id].Reading? && IsPair(st.passes[id].seen, stem)
    requires ManifestKey(stem) in st.store || MAX_MANIFEST_BYTES < st.passes[id].seen[ManifestKey(stem)]
    requires var p := st.passes[id];
             var info := PairInfo(w, st.store, p.seen, stem);
             st' == st.(passes := st.passes[id := p.(
               read := p.read + {stem},
               infos := if info.state == State.Valid then p.infos + {info} else p.infos)])
    ensures Inv(w, st')
  {
    hide CipherKey, ManifestKey, Newer, Forged, StoreOk, OnlyOwn, HistoryOk, SeenOk, PairInfo, IsInfo, DanglingOk;
    var p := st.passes[id];
    assert PassOk(w, st, p);
    if PairInfo(w, st.store, p.seen, stem).state == State.Valid {
      ValidPairIsOurs(w, st, p.seen, stem);
      IsInfoOf(w, st, stem);
    }
    InfosSame(w, st, st', st'.passes[id].infos);
    DanglingSame(w, st, st', p.dangling);
    SeenOkSame(w, st, st', p.seen);
    SameStoreKeepsInv(w, st, st', id);
  }

  lemma IsInfoOf(w: World, st: System, s: string)
    requires Published(w, st, s)
    ensures IsInfo(w, st, Info(w, st, s))
  {
    hide CipherKey, ManifestKey, WorldOk;
  }

  lemma DanglingSame(w: World, st: System, st': System, dangling: set<string>)
    requires DanglingOk(w, st, dangling) && st' == st.(passes := st'.passes)
    ensures DanglingOk(w, st', dangling)
  {
    hide CipherKey, ManifestKey;
  }

  lemma DanglingAdded(w: World, st: System, seen: map<string, nat>, dangling: set<string>, stem: string)
    requires SeenOk(w, st, seen) && IsDangling(seen, stem) && DanglingOk(w, st, dangling)
    ensures DanglingOk(w, st, dangling + {ManifestKey(stem)})
  {
    hide CipherKey, ManifestKey, WorldOk, Deleted, HasSuffix;
    StemOfArtifacts(stem);
    forall s | s in w.names && ManifestKey(s) == ManifestKey(stem)
      ensures Deleted(st, s)
    {
      CipherKeyInjective(s, stem);
    }
  }

  lemma ReadDanglingKeepsInv(w: World, st: System, st': System, id: nat, stem: string, ours: bool)
    requires Inv(w, st) && id in st.passes && st.passes[id].Reading? && IsDangling(st.passes[id].seen, stem)
    requires var p := st.passes[id];
             st' == st.(passes := st.passes[id := p.(
               checked := p.checked + {stem},
               dangling := if ours then p.dangling + {ManifestKey(stem)} else p.dangling)])
    ensures Inv(w, st')
  {
    hide CipherKey, ManifestKey, Newer, Forged, StoreOk, OnlyOwn, HistoryOk, SeenOk, IsInfo, DanglingOk;
    var p := st.passes[id];
    assert PassOk(w, st, p);
    DanglingAdded(w, st, p.seen, p.dangling, stem);
    InfosSame(w, st, st', p.infos);
    DanglingSame(w, st, st', st'.passes[id].dangling);
    SeenOkSame(w, st, st', p.seen);
    SameStoreKeepsInv(w, st, st', id);
  }

  /** What a pass drops the floor would drop of all that was ever published. */
  lemma DroppedIsSuperseded(w: World, st: System, infos: set<BackupInfo>, policy: Policy, b: BackupInfo)
    requires Known(w, st) && !w.floor.AllZero() && Reaches(w.floor, policy)
    requires forall c :: c in infos ==> IsInfo(w, st, c)
    requires b in infos - KeepSet(infos, policy)
    ensures exists s :: Published(w, st, s) && b == Info(w, st, s) && Superseded(w, st, s)
  {
    hide CipherKey, ManifestKey, Kept, WorldOk;
    var s :| Published(w, st, s) && b == Info(w, st, s);
    RaisingKeeps(infos, w.floor, policy);
    assert Kept(infos, w.floor, b) ==> b in KeepSet(infos, w.floor);
    if Kept(Ever(w, st), w.floor, b) {
      KeptInSubset(Ever(w, st), infos, w.floor, b);
    }
  }

  lemma SelectKeepsInv(w: World, st: System, st': System, id: nat)
    requires Inv(w, st) && id in st.passes && st.passes[id].Reading?
    requires var p := st.passes[id];
             st' == st.(passes := st.passes[id :=
               Deleting(p.infos - KeepSet(p.infos, p.policy), p.dangling, Ciphers, {})])
    ensures Inv(w, st')
  {
    hide CipherKey, ManifestKey, Newer, Forged, StoreOk, OnlyOwn, HistoryOk, SeenOk, KeepSet, IsInfo, DanglingOk,
      DropOk;
    var p := st.passes[id];
    assert PassOk(w, st, p);
    KnownOf(w, st);
    DropSelected(w, st, st', p.infos, p.policy);
    DanglingSame(w, st, st', p.dangling);
    SameStoreKeepsInv(w, st, st', id);
  }

  lemma DropSelected(w: World, st: System, st': System, infos: set<BackupInfo>, policy: Policy)
    requires Known(w, st) && st' == st.(passes := st'.passes) && !w.floor.AllZero() && Reaches(w.floor, policy)
    requires forall b :: b in infos ==> IsInfo(w, st, b)
    ensures DropOk(w, st', infos - KeepSet(infos, policy))
  {
    hide CipherKey, ManifestKey, Newer, KeepSet, WorldOk;
    forall b | b in infos - KeepSet(infos, policy)
      ensures exists s :: Published(w, st', s) && b == Info(w, st', s) && Superseded(w, st', s)
    {
      DroppedIsSuperseded(w, st, infos, policy, b);
      var s :| Published(w, st, s) && b == Info(w, st, s) && Superseded(w, st, s);
      SupersededGrows(w, st, st', s);
      assert Published(w, st', s) && b == Info(w, st', s);
    }
  }

  // ------------------------------------------------------------ deletion

  lemma DropKeys(w: World, st: System, drop: set<BackupInfo>, s: string)
    requires DropOk(w, st, drop)
    ensures CipherKey(s) in CiphersOf(drop) ==> Superseded(w, st, s)
    ensures ManifestKey(s) in ManifestsOf(drop) ==> CipherKey(s) in CiphersOf(drop)
    ensures ManifestKey(s) !in CiphersOf(drop) && CipherKey(s) !in ManifestsOf(drop)
  {
    hide CipherKey, ManifestKey, Newer, WorldOk, Superseded;
    forall b | b in drop
      ensures b.key == CipherKey(s) ==> Superseded(w, st, s)
      ensures b.manifestKey == ManifestKey(s) ==> b.key == CipherKey(s)
      ensures b.key != ManifestKey(s) && b.manifestKey != CipherKey(s)
    {
      var t :| Published(w, st, t) && b == Info(w, st, t) && Superseded(w, st, t);
      Prune.DifferentStems(s, t);
      Prune.DifferentStems(t, s);
    }
  }

  ghost function CiphersOf(drop: set<BackupInfo>): set<string> {
    set b | b in drop :: b.key
  }

  ghost function ManifestsOf(drop: set<BackupInfo>): set<string> {
    set b | b in drop :: b.manifestKey
  }

  /** What a deleting pass may remove of our own: superseded ciphertexts, and manifests whose
      ciphertext is gone. */
  lemma TodoIsSafe(w: World, st: System, p: PassState, s: string)
    requires p.Deleting? && PassOk(w, st, p) && s in w.names
    ensures CipherKey(s) in Todo(p) ==> Superseded(w, st, s)
    ensures ManifestKey(s) in Todo(p) ==> Deleted(st, s)
  {
    StemOfArtifacts(s);
    SuffixesDiffer(CipherKey(s));
    hide CipherKey, ManifestKey, Newer, WorldOk, Superseded, DropOk, HasSuffix;
    DropKeys(w, st, p.drop, s);
    match p.stage
    case Ciphers =>
      assert Todo(p) == CiphersOf(p.drop);
    case Manifests =>
      assert Todo(p) == ManifestsOf(p.drop);
      if ManifestKey(s) in Todo(p) {
        DropStemsPublished(w, st, p.drop, s);
      }
    case Leftovers =>
  }

  lemma DropStemsPublished(w: World, st: System, drop: set<BackupInfo>, s: string)
    requires DropOk(w, st, drop) && CipherKey(s) in CiphersOf(drop)
    ensures s in st.completed
  {
    hide CipherKey, ManifestKey, Newer, WorldOk;
    DropKeys(w, st, drop, s);
  }

  lemma DeleteKeepsRest(w: World, st: System, st': System, gone: set<string>)
    requires StoreOk(w, st) && OnlyOwn(w, st)
    requires st'.store == st.store - gone && st'.completed == st.completed && st'.published == st.published
    ensures StoreOk(w, st') && OnlyOwn(w, st') && Grows(w, st, st')
  {
    hide CipherKey, ManifestKey, WorldOk, Forged, Foreign;
  }

  lemma DeleteKeepsHistory(w: World, st: System, st': System, p: PassState, gone: set<string>)
    requires HistoryOk(w, st) && Grows(w, st, st') && p.Deleting? && PassOk(w, st, p) && gone <= Todo(p)
    requires st'.store == st.store - gone && st'.completed == st.completed && st'.published == st.published
    ensures HistoryOk(w, st')
  {
    hide CipherKey, ManifestKey, WorldOk, PassOk, Todo, Newer, Superseded;
    forall s | s in w.names
      ensures Deleted(st', s) ==> Superseded(w, st', s)
      ensures s in st.published && ManifestKey(s) !in st'.store ==> Deleted(st', s)
    {
      TodoIsSafe(w, st, p, s);
      if Superseded(w, st, s) {
        SupersededGrows(w, st, st', s);
      }
    }
  }

  lemma DeleteBatchKeepsInv(w: World, st: System, st': System, id: nat,
                            batch: set<string>, gone: set<string>, ok: bool)
    requires Inv(w, st) && id in st.passes && st.passes[id].Deleting?
    requires batch <= Todo(st.passes[id]) && gone <= batch && (ok ==> gone == batch)
    requires st' == AfterDelete(st, id, batch, gone, ok)
    ensures Inv(w, st')
  {
    hide CipherKey, ManifestKey, Newer, Forged, Todo, StoreOk, OnlyOwn, HistoryOk, PassOk, Grows;
    var p := st.passes[id];
    assert PassOk(w, st, p);
    assert st'.store == st.store - gone;
    DeleteKeepsRest(w, st, st', gone);
    DeleteKeepsHistory(w, st, st', p, gone);
    PassOkGrows(w, st, st', p);
    if ok {
      BatchDone(w, st', p, batch);
    }
    PassesKept(w, st, st', id);
  }

  lemma BatchDone(w: World, st': System, p: PassState, batch: set<string>)
    requires p.Deleting? && PassOk(w, st', p) && batch !! st'.store.Keys
    ensures PassOk(w, st', p.(done := p.done + batch))
  {
    hide CipherKey, ManifestKey, DropOk, DanglingOk;
  }

  lemma NextStageKeepsInv(w: World, st: System, st': System, id: nat)
    requires Inv(w, st) && id in st.passes && st.passes[id].Deleting? && Todo(st.passes[id]) <= st.passes[id].done
    requires var p := st.passes[id];
             st' == st.(passes := match p.stage
               case Ciphers => st.passes[id := p.(stage := Manifests, done := {})]
               case Manifests => st.passes[id := p.(stage := Leftovers, done := {})]
               case Leftovers => st.passes - {id})
    ensures Inv(w, st')
  {
    hide CipherKey, ManifestKey, Newer, Forged, StoreOk, OnlyOwn, HistoryOk, DropOk, DanglingOk;
    var p := st.passes[id];
    assert PassOk(w, st, p);
    SameGrows(w, st, st');
    PassOkGrows(w, st, st', p);
    if p.stage == Ciphers {
      forall b | b in p.drop
        ensures b.key in p.done
      {
        assert b.key in Todo(p);
      }
    }
    SameStoreKeepsInv(w, st, st', id);
  }

  lemma SameGrows(w: World, st: System, st': System)
    requires StoreOk(w, st) && st' == st.(passes := st'.passes)
    ensures Grows(w, st, st')
  {
    hide CipherKey, ManifestKey, WorldOk;
  }

  lemma StopKeepsInv(w: World, st: System, st': System, id: nat)
    requires Inv(w, st) && st' == st.(passes := st.passes - {id})
    ensures Inv(w, st')
  {
    hide StoreOk, OnlyOwn, HistoryOk, PassOk;
    SameStoreKeepsInv(w, st, st', id);
  }

  lemma StepKeepsInv(w: World, st: System, a: Action)
    requires Inv(w, st) && Enabled(w, st, a)
    ensures Inv(w, Next(w, st, a))
  {
    hide CipherKey, ManifestKey, Inv, Forged, Foreign, PageOf, AddPage, PairInfo, KeepSet, AfterDelete, Todo, WorldOk;
    var st' := Next(w, st, a);
    match a
    case Complete(s, size) => CompleteKeepsInv(w, st, st', s, size);
    case Publish(s, size) => PublishKeepsInv(w, st, st', s, size);
    case ForeignPut(k, o) => ForeignKeepsInv(w, st, st', k);
    case ForeignDelete(k) => ForeignKeepsInv(w, st, st', k);
    case Begin(id, policy) => BeginKeepsInv(w, st, st', id, policy);
    case NextPage(id, page) => NextPageKeepsInv(w, st, st', id, page);
    case ReadPair(id, stem) => ReadPairKeepsInv(w, st, st', id, stem);
    case ReadDangling(id, stem) =>
      ReadDanglingKeepsInv(w, st, st', id, stem, Prune.OursToDelete(st.store[ManifestKey(stem)], w.owner));
    case Select(id) => SelectKeepsInv(w, st, st', id);
    case DeleteBatch(id, batch, gone, ok) => DeleteBatchKeepsInv(w, st, st', id, batch, gone, ok);
    case NextStage(id) => NextStageKeepsInv(w, st, st', id);
    case Stop(id) => StopKeepsInv(w, st, st', id);
  }

  lemma {:induction false} RunKeepsInv(w: World, st: System, actions: seq<Action>, st': System)
    requires Inv(w, st) && Leads(w, st, actions, st')
    ensures Inv(w, st')
    decreases |actions|
  {
    hide Inv, Enabled, Next;
    if actions == [] {
    } else {
      StepKeepsInv(w, st, actions[0]);
      RunKeepsInv(w, Next(w, st, actions[0]), actions[1..], st');
    }
  }

  // ------------------------------------------------------------ main results

  /** The newest of all backups ever published. */
  ghost predicate Greatest(w: World, st: System, g: string) {
    && Published(w, st, g)
    && forall s :: Published(w, st, s) && s != g ==> Newer(Info(w, st, g), Info(w, st, s))
  }

  /** In every reachable state each backup the floor keeps of all ever published is whole in
      the bucket, with its own manifest, whatever the passes kept besides. */
  lemma FloorSurvives(w: World, init: System, actions: seq<Action>, st: System, g: string)
    requires Initial(w, init) && Leads(w, init, actions, st)
    requires Published(w, st, g) && Info(w, st, g) in KeepSet(Ever(w, st), w.floor)
    ensures CipherKey(g) in st.store
    ensures ManifestKey(g) in st.store && st.store[ManifestKey(g)].parsed == Some(w.names[g])
  {
    hide CipherKey, ManifestKey, Leads, Initial, PassOk, OnlyOwn, WorldOk, KeepSet, Ever;
    InitialInv(w, init);
    RunKeepsInv(w, init, actions, st);
  }

  /** In every reachable state the newest backup ever published is whole in the bucket, with
      its own manifest. Every valid policy reaches the least floor, so this holds for passes
      of any valid policies. */
  lemma GreatestSurvives(w: World, init: System, actions: seq<Action>, st: System, g: string)
    requires Initial(w, init) && Leads(w, init, actions, st)
    requires Greatest(w, st, g)
    ensures CipherKey(g) in st.store
    ensures ManifestKey(g) in st.store && st.store[ManifestKey(g)].parsed == Some(w.names[g])
  {
    hide CipherKey, ManifestKey, Leads, Initial, WorldOk;
    assert Newest(Ever(w, st), Info(w, st, g));
    FloorSurvives(w, init, actions, st, g);
  }

  /** In no reachable state is a published backup's ciphertext left without its manifest. */
  lemma NoOrphanEver(w: World, init: System, actions: seq<Action>, st: System, s: string)
    requires Initial(w, init) && Leads(w, init, actions, st)
    requires s in st.published && CipherKey(s) in st.store
    ensures ManifestKey(s) in st.store
  {
    hide CipherKey, ManifestKey, Leads, Initial, PassOk, OnlyOwn, WorldOk;
    InitialInv(w, init);
    RunKeepsInv(w, init, actions, st);
  }

  /** An upload whose manifest has not landed keeps its ciphertext, whatever the passes do. */
  lemma UnpublishedUntouched(w: World, init: System, actions: seq<Action>, st: System, s: string)
    requires Initial(w, init) && Leads(w, init, actions, st)
    requires s in st.completed && s !in st.published
    ensures CipherKey(s) in st.store && st.store[CipherKey(s)].size == st.completed[s]
  {
    hide CipherKey, ManifestKey, Leads, Initial, PassOk, OnlyOwn, WorldOk;
    InitialInv(w, init);
    RunKeepsInv(w, init, actions, st);
  }

  /** A pass deletes artifacts under its scope and nothing else. */
  lemma PassesStayInScope(w: World, st: System, a: Action, k: string)
    requires Inv(w, st) && Enabled(w, st, a) && a.DeleteBatch? && k in a.gone
    ensures w.scope <= k && IsArtifact(k)
  {
    hide CipherKey, ManifestKey, Newer, Superseded, StoreOk, OnlyOwn, HistoryOk, WorldOk;
    var p := st.passes[a.id];
    assert PassOk(w, st, p);
    if p.stage != Leftovers {
      var b :| b in p.drop && (b.key == k || b.manifestKey == k);
      var s :| Published(w, st, s) && b == Info(w, st, s);
      ScopeOfSibling(w, s);
      StemOfArtifacts(s);
    }
  }
}
