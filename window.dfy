/** The session window every `GetProfilingDataSinceLastPopulateAsync` computes:
    list the newest 10000 ids, keep them while they differ from the checkpoint,
    reverse to oldest first, load each, and drop the ones that load as null. */
module Window {
  import opened Wrappers
  import opened Profiling

  /** The `ListAsync(10000)` cap. */
  const ListLimit: nat := 10000

  /** `ids.TakeWhile(g => g != marker)`: the longest prefix without the marker. */
  function TakeWhileNot(ids: seq<Guid>, marker: Guid): (r: seq<Guid>)
    ensures |r| <= |ids| && r == ids[..|r|]
    ensures marker !in r
    ensures |r| < |ids| ==> ids[|r|] == marker
  {
    if |ids| == 0 || ids[0] == marker then [] else [ids[0]] + TakeWhileNot(ids[1..], marker)
  }

  /** `Enumerable.Reverse`. */
  function Reverse<T>(s: seq<T>): (r: seq<T>)
    ensures |r| == |s|
    ensures forall i :: 0 <= i < |s| ==> r[i] == s[|s| - 1 - i]
  {
    if |s| == 0 then [] else Reverse(s[1..]) + [s[0]]
  }

  /** `.Select(g => Storage.Load(g)).Where(p => p != null)`. */
  function LoadAll(store: Store, ids: seq<Guid>): (r: seq<Session>)
    ensures |r| <= |ids|
    ensures forall s :: s in r ==> exists g :: g in ids && g in store.saved && store.saved[g] == s
  {
    if |ids| == 0 then []
    else
      var rest := LoadAll(store, ids[1..]);
      match Load(store, ids[0])
      case None => rest
      case Some(s) => [s] + rest
  }

  /** The sessions of the window that opened at `marker`, oldest first. */
  function SinceCheckpoint(store: Store, marker: Guid): seq<Session>
  {
    LoadAll(store, Reverse(TakeWhileNot(ListIds(store, ListLimit), marker)))
  }

  // ---- the prefix that TakeWhile keeps ------------------------------------

  /** TakeWhileNot keeps exactly the ids before the first occurrence of the marker:
      all of them when the marker is absent, none when the marker comes first. */
  lemma TakeWhileNotIsPrefixBeforeMarker(ids: seq<Guid>, marker: Guid, k: nat)
    requires k <= |ids| && marker !in ids[..k] && (k == |ids| || ids[k] == marker)
    ensures TakeWhileNot(ids, marker) == ids[..k]
  {
  }

  lemma TakeWhileNotEdges(ids: seq<Guid>, marker: Guid)
    ensures |ids| > 0 && ids[0] == marker ==> TakeWhileNot(ids, marker) == []
    ensures marker !in ids ==> TakeWhileNot(ids, marker) == ids
  {
    if marker !in ids {
      TakeWhileNotIsPrefixBeforeMarker(ids, marker, |ids|);
    }
  }

  // ---- loading keeps order and drops misses --------------------------------

  /** Loading distributes over concatenation: sessions keep the order of their ids. */
  lemma {:induction false} LoadAllAppend(store: Store, a: seq<Guid>, b: seq<Guid>)
    ensures LoadAll(store, a + b) == LoadAll(store, a) + LoadAll(store, b)
  {
    if |a| > 0 {
      assert (a + b)[1..] == a[1..] + b;
      LoadAllAppend(store, a[1..], b);
    } else {
      assert a + b == b;
    }
  }

  /** Every id loads exactly when nothing is dropped; then the i-th session is the i-th id's. */
  lemma {:induction false} LoadAllComplete(store: Store, ids: seq<Guid>)
    ensures |LoadAll(store, ids)| == |ids| <==> forall g :: g in ids ==> g in store.saved
    ensures (forall g :: g in ids ==> g in store.saved) ==>
      forall i :: 0 <= i < |ids| ==> LoadAll(store, ids)[i] == store.saved[ids[i]]
  {
    if |ids| > 0 {
      LoadAllComplete(store, ids[1..]);
      if ids[0] !in store.saved {
        assert |LoadAll(store, ids)| <= |ids[1..]|;
      } else {
        var r := LoadAll(store, ids);
        assert r == [store.saved[ids[0]]] + LoadAll(store, ids[1..]);
        if forall g :: g in ids ==> g in store.saved {
          forall i | 0 <= i < |ids| ensures r[i] == store.saved[ids[i]] {
            if i > 0 { assert ids[i] == ids[1..][i - 1]; }
          }
        }
        if forall g :: g in ids[1..] ==> g in store.saved {
          forall g | g in ids ensures g in store.saved {
            if g != ids[0] { assert g in ids[1..]; }
          }
        }
      }
    }
  }

  // ---- the window ---------------------------------------------------------

  /** In a store that files sessions under their own ids, no window session is the marker's
      own session (the hit-list request's session bounds the window and is left out), and
      every window session is among the 10000 newest. */
  lemma WindowExcludesMarker(store: Store, marker: Guid)
    requires Consistent(store)
    ensures forall s :: s in SinceCheckpoint(store, marker) ==>
      s.id != marker && s.id in ListIds(store, ListLimit)
  {
    var kept := TakeWhileNot(ListIds(store, ListLimit), marker);
    var rev := Reverse(kept);
    forall s | s in SinceCheckpoint(store, marker)
      ensures s.id != marker && s.id in ListIds(store, ListLimit)
    {
      var g :| g in rev && g in store.saved && store.saved[g] == s;
      var i :| 0 <= i < |rev| && rev[i] == g;
      assert g == kept[|kept| - 1 - i];
    }
  }

  /** When every listed id loads, the window is the selected prefix reversed: the i-th row
      is the session i places from the oldest selected id. */
  lemma WindowOldestFirst(store: Store, marker: Guid)
    requires forall g :: g in ListIds(store, ListLimit) ==> g in store.saved
    ensures var kept := TakeWhileNot(ListIds(store, ListLimit), marker);
      |SinceCheckpoint(store, marker)| == |kept| &&
      forall i :: 0 <= i < |kept| ==>
        SinceCheckpoint(store, marker)[i] == store.saved[kept[|kept| - 1 - i]]
  {
    var kept := TakeWhileNot(ListIds(store, ListLimit), marker);
    var rev := Reverse(kept);
    forall g | g in rev ensures g in store.saved {
      var i :| 0 <= i < |rev| && rev[i] == g;
      assert g == kept[|kept| - 1 - i];
    }
    LoadAllComplete(store, rev);
  }

  /** The worked example's store: sessions a, b, c, d filed under ids 1, 2, 3, 4, listed
      newest first. */
  function ExampleStore(a: Session, b: Session, c: Session, d: Session): Store
  {
    Store([4, 3, 2, 1], map[4 := d, 3 := c, 2 := b, 1 := a])
  }

  /** With checkpoint 3 the window is just the newer session 4. */
  lemma WindowExampleAfterCheckpoint(a: Session, b: Session, c: Session, d: Session)
    ensures SinceCheckpoint(ExampleStore(a, b, c, d), 3) == [d]
  {
    var store := ExampleStore(a, b, c, d);
    var ids: seq<Guid> := [4, 3, 2, 1];
    assert ListIds(store, ListLimit) == ids;
    assert ids[1..] == [3, 2, 1];
    assert TakeWhileNot(ids[1..], 3) == [];
    assert TakeWhileNot(ids, 3) == [4];
    var one: seq<Guid> := [4];
    assert Reverse(one) == one;
    assert LoadAll(store, one[1..]) == [];
    assert LoadAll(store, one) == [d];
  }

  /** With the newest session as checkpoint (no traffic since) the window is empty. */
  lemma WindowExampleNoTraffic(a: Session, b: Session, c: Session, d: Session)
    ensures SinceCheckpoint(ExampleStore(a, b, c, d), 4) == []
  {
    var store := ExampleStore(a, b, c, d);
    var ids: seq<Guid> := [4, 3, 2, 1];
    assert ListIds(store, ListLimit) == ids;
    assert TakeWhileNot(ids, 4) == [];
  }

  /** With a checkpoint that is not listed the window is every session, oldest first. */
  lemma WindowExampleUnknownCheckpoint(a: Session, b: Session, c: Session, d: Session)
    ensures SinceCheckpoint(ExampleStore(a, b, c, d), 9) == [a, b, c, d]
  {
    var store := ExampleStore(a, b, c, d);
    var ids: seq<Guid> := [4, 3, 2, 1];
    assert ListIds(store, ListLimit) == ids;
    TakeWhileNotEdges(ids, 9);
    var rev: seq<Guid> := [1, 2, 3, 4];
    assert Reverse(ids) == rev;
    LoadAllComplete(store, rev);
  }
}
