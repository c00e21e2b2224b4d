/** The object store: a map from keys to objects behind fallible calls. Each call is atomic
    and strongly consistent; a failed call may or may not have had its effect. */
module Store {
  import opened Wrappers
  import opened Backups
  import opened Text
  import opened Sets

  /** An object: its length and, if its body is a manifest in JSON, the manifest. */
  datatype Obj = Obj(size: nat, parsed: Option<Manifest>)

  type Bucket = map<string, Obj>

  datatype Error = Transport | Refused(key: string)

  /** The limit of one DeleteObjects call. */
  const DELETE_BATCH := 1000

  datatype Item = Item(key: string, size: nat)

  /** One page of a listing; `more` says another follows. */
  datatype Page = Page(items: seq<Item>, more: bool)

  ghost function Remaining(bucket: Bucket, prefix: string, after: string): set<string> {
    set k | k in bucket && prefix <= k && Below(after, k)
  }

  ghost function PageKeys(page: Page): set<string> {
    set i | 0 <= i < |page.items| :: page.items[i].key
  }

  ghost predicate Covered(page: Page, k: string) {
    page.more ==> page.items != [] && !Below(page.items[|page.items| - 1].key, k)
  }

  /** A page is a snapshot, in byte order, of the keys after the token: all of them up to
      the last one it lists, or to the end of the listing. */
  ghost predicate PageOf(bucket: Bucket, prefix: string, after: string, page: Page) {
    && (page.more ==> page.items != [])
    && (forall i, j :: 0 <= i < j < |page.items| ==> Below(page.items[i].key, page.items[j].key))
    && PageKeys(page) <= Remaining(bucket, prefix, after)
    && (forall i :: 0 <= i < |page.items| ==>
          page.items[i].key in bucket && page.items[i].size == bucket[page.items[i].key].size)
    && (forall k :: k in Remaining(bucket, prefix, after) && Covered(page, k) ==> k in PageKeys(page))
  }

  ghost predicate Least(keys: set<string>, k: string) {
    k in keys && forall j :: j in keys ==> j == k || Below(k, j)
  }

  lemma {:induction false} LeastExists(keys: set<string>) returns (k: string)
    requires keys != {}
    ensures Least(keys, k)
  {
    k := Pick(keys);
    var rest := keys - {k};
    assert forall j :: j in keys ==> j == k || j in rest;
    if rest == {} {
    } else {
      var l := LeastExists(rest);
      BelowTotal(k, l);
      if Below(l, k) {
        k := l;
      } else {
        forall j | j in keys && j != k
          ensures Below(k, j)
        {
          if j != l {
            BelowTransitive(k, l, j);
          }
        }
      }
    }
  }

  /** A listing in progress: `items` in order, then everything in `rest`. */
  ghost predicate Taken(bucket: Bucket, prefix: string, after: string, items: seq<Item>, rest: set<string>) {
    && (forall i, j :: 0 <= i < j < |items| ==> Below(items[i].key, items[j].key))
    && (forall i, k :: 0 <= i < |items| && k in rest ==> Below(items[i].key, k))
    && (forall i :: 0 <= i < |items| ==> items[i].key in bucket && items[i].size == bucket[items[i].key].size)
    && PageKeys(Page(items, true)) + rest == Remaining(bucket, prefix, after)
  }

  lemma TakenStep(bucket: Bucket, prefix: string, after: string, items: seq<Item>, rest: set<string>, k: string)
    requires Taken(bucket, prefix, after, items, rest) && Least(rest, k) && k in bucket
    ensures Taken(bucket, prefix, after, items + [Item(k, bucket[k].size)], rest - {k})
  {
    var more := items + [Item(k, bucket[k].size)];
    forall x | x in PageKeys(Page(items, true))
      ensures x in PageKeys(Page(more, true))
    {
      var i :| 0 <= i < |items| && items[i].key == x;
      assert more[i].key == x;
    }
    assert more[|items|].key == k;
    assert PageKeys(Page(more, true)) == PageKeys(Page(items, true)) + {k};
  }

  lemma TakenIsPage(bucket: Bucket, prefix: string, after: string, items: seq<Item>, rest: set<string>)
    requires Taken(bucket, prefix, after, items, rest)
    requires rest != {} ==> items != []
    ensures PageOf(bucket, prefix, after, Page(items, rest != {}))
  {
    var page := Page(items, rest != {});
    assert PageKeys(page) == PageKeys(Page(items, true));
  }

  /** Some page the server may answer with. */
  method SomePage(bucket: Bucket, prefix: string, after: string) returns (page: Page)
    ensures PageOf(bucket, prefix, after, page)
  {
    var rest := set k | k in bucket.Keys && prefix <= k && Below(after, k);
    assert rest == Remaining(bucket, prefix, after);
    var items: seq<Item> := [];
    assert PageKeys(Page(items, true)) == {};
    var stop: bool := *;
    while rest != {} && (items == [] || !stop)
      invariant Taken(bucket, prefix, after, items, rest)
      invariant rest <= bucket.Keys
      decreases |rest|
    {
      ghost var least := LeastExists(rest);
      var k :| k in rest && forall j :: j in rest ==> j == k || Below(k, j);
      TakenStep(bucket, prefix, after, items, rest, k);
      items := items + [Item(k, bucket[k].size)];
      rest := rest - {k};
      stop := *;
    }
    TakenIsPage(bucket, prefix, after, items, rest);
    page := Page(items, rest != {});
  }

  class ObjectStore {
    var objects: Bucket
    /** How many calls have failed so far. */
    ghost var faults: nat

    constructor ()
      ensures objects == map[]
    {
      objects := map[];
      faults := 0;
    }

    method ListPage(prefix: string, after: string) returns (r: Result<Page, Error>)
      modifies this`faults
      ensures r.Success? ==> PageOf(objects, prefix, after, r.value)
      ensures old(faults) <= faults && (r.Failure? ==> old(faults) < faults)
    {
      var broken: bool := *;
      if broken {
        faults := faults + 1;
        return Failure(Transport);
      }
      var page := SomePage(objects, prefix, after);
      return Success(page);
    }

    method GetObject(key: string) returns (r: Result<Obj, Error>)
      modifies this`faults
      ensures r.Success? ==> key in objects && r.value == objects[key]
      ensures old(faults) <= faults && (r.Failure? && key in objects ==> old(faults) < faults)
    {
      var broken: bool := *;
      if broken || key !in objects {
        faults := faults + 1;
        return Failure(Transport);
      }
      return Success(objects[key]);
    }

    /** Deletes some of at most 1000 keys; Success(failed) reports those it could not delete, while a
        failed call leaves it open which ones are gone. */
    method DeleteObjects(keys: seq<string>) returns (r: Result<seq<string>, Error>, ghost gone: set<string>)
      requires 0 < |keys| <= 1000
      modifies this
      ensures gone <= set k | k in keys
      ensures objects == old(objects) - gone
      ensures r.Success? && r.value == [] ==> gone == set k | k in keys
      ensures old(faults) <= faults && (r.Failure? || r.value != [] ==> old(faults) < faults)
    {
      gone := {};
      var failed: seq<string> := [];
      for i := 0 to |keys|
        invariant gone <= set k | k in keys[..i]
        invariant objects == old(objects) - gone
        invariant failed == [] ==> gone == set k | k in keys[..i]
        invariant faults == old(faults) + |failed|
      {
        assert keys[..i + 1] == keys[..i] + [keys[i]];
        var denied: bool := *;
        if denied {
          failed := failed + [keys[i]];
          faults := faults + 1;
        } else {
          objects := objects - {keys[i]};
          gone := gone + {keys[i]};
        }
      }
      assert keys[..|keys|] == keys;
      var lost: bool := *;
      if lost {
        faults := faults + 1;
      }
      r := if lost then Failure(Transport) else Success(failed);
    }
  }
}
