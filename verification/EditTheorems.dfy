/** What pushing an edited file publishes: the edit, unless size and time hide it from the cache. */
module EditTheorems {
  import opened Basics
  import opened Conflicts
  import opened ObjectStore
  import opened Upload
  import opened UploadTheorems
  import opened PushTheorems

  /** The file has other content than was uploaded, but the size and time found when the upload was recorded, so
      that the cache takes it for unchanged. */
  predicate Unnoticed(file: LocalFile, found: Stat, edited: LocalFile)
  {
    edited.data != file.data && StatOf(edited) == found
  }

  /** The store is sound and holds this content, and the cache records it with the size and time found. */
  ghost predicate Published(env: Env, mk: Key, inPlay: iset<Bytes>, side: Side, file: LocalFile, found: Stat,
                            path: Path)
  {
    && StoreInv(env, mk, inPlay, side.store) && Modern(side.store)
    && CachedAs(env, side.cache, path, file, found)
    && Downloaded(env, side.store, env.hash(file.data), Some(mk)) == Ok(file.data)
  }

  predicate CachedAs(env: Env, cache: Cache, path: Path, file: LocalFile, found: Stat)
  {
    path in cache && cache[path].blake3 == env.hash(file.data) && Stat(cache[path].size, cache[path].mtime) == found
  }

  lemma {:induction false} PushedStore(env: Env, mk: Key, inPlay: iset<Bytes>, file: LocalFile, side: Side,
                                       req: Request)
    requires Contracts(env) && CollisionFree(env, inPlay) && StoreInv(env, mk, inPlay, side.store) && Modern(side.store)
    requires InPlay(env, inPlay, file, req) && FleetKey(mk, req)
    ensures var store' := PushedFile(env, file, side, req).store;
            StoreInv(env, mk, inPlay, store') && Modern(store') && Extends(side.store, store')
  {
    EveryWriteKeepsStore(env, mk, inPlay, side.store, Entry(side.cache, req.path), file, req, Reached(env, file, req));
  }

  lemma {:induction false} PushCaches(env: Env, mk: Key, inPlay: iset<Bytes>, side: Side, file: LocalFile, req: Request)
    requires StoreInv(env, mk, inPlay, side.store) && Modern(side.store)
    requires Smooth(env, file, req) && NeedsSync(env, Entry(side.cache, req.path), file)
    ensures CachedAs(env, PushedFile(env, file, side, req).cache, req.path, file, req.faults.examined.value)
    ensures ResultOf(env, file, side, req).hash == env.hash(file.data)
  {
    var h := env.hash(file.data);
    if h in side.store.manifests {
      assert Sound(env, mk, inPlay, side.store.chunks, h, side.store.manifests[h].manifest);
    }
  }

  lemma IndexDoesNotMatter(env: Env, store: Store, index: map<Path, string>, h: Hash, master: Option<Key>)
    ensures Downloaded(env, store.(index := index), h, master) == Downloaded(env, store, h, master)
  {
  }

  lemma {:induction false} PushIsRetrievable(env: Env, mk: Key, inPlay: iset<Bytes>, side: Side, file: LocalFile,
                                             req: Request)
    requires Contracts(env) && CollisionFree(env, inPlay) && StoreInv(env, mk, inPlay, side.store) && Modern(side.store)
    requires InPlay(env, inPlay, file, req) && FleetKey(mk, req) && Smooth(env, file, req)
    requires NeedsSync(env, Entry(side.cache, req.path), file) && file.data != []
    ensures Downloaded(env, PushedFile(env, file, side, req).store, env.hash(file.data), Some(mk)) == Ok(file.data)
  {
    var store' := Attempted(env, side.store, Entry(side.cache, req.path), file, req, Steps(env, file, req));
    UploadedIsRetrievable(env, mk, inPlay, side.store, Entry(side.cache, req.path), file, req);
    IndexDoesNotMatter(env, store', PushedFile(env, file, side, req).store.index, env.hash(file.data), Some(mk));
  }

  /** A push that looks at the file publishes it. */
  lemma {:induction false} PushPublishes(env: Env, mk: Key, inPlay: iset<Bytes>, side: Side, file: LocalFile,
                                         req: Request)
    requires Contracts(env) && CollisionFree(env, inPlay) && StoreInv(env, mk, inPlay, side.store) && Modern(side.store)
    requires InPlay(env, inPlay, file, req) && FleetKey(mk, req) && Smooth(env, file, req) && req.rel.Some?
    requires NeedsSync(env, Entry(side.cache, req.path), file) && file.data != []
    ensures var side' := PushedFile(env, file, side, req);
            && Published(env, mk, inPlay, side', file, req.faults.examined.value, req.path)
            && req.rel.value in side'.store.index
            && side'.store.index[req.rel.value] == IndexText(ResultOf(env, file, side, req))
            && ResultOf(env, file, side, req).hash == env.hash(file.data)
  {
    PushedStore(env, mk, inPlay, file, side, req);
    PushCaches(env, mk, inPlay, side, file, req);
    PushIsRetrievable(env, mk, inPlay, side, file, req);
    PushWritesIndex(env, file, side, req);
  }

  /** Pushing a file that the cache takes for unchanged is reported as skipped and writes only the index entry, from
      the cache. */
  lemma {:induction false} UnchangedIsSkipped(env: Env, side: Side, file: LocalFile, found: Stat, edited: LocalFile,
                                              req: Request)
    requires CachedAs(env, side.cache, req.path, file, found) && Smooth(env, edited, req)
    requires !NeedsSync(env, Entry(side.cache, req.path), edited)
    ensures var u := ResultOf(env, edited, side, req);
            && u.skipped && u.hash == env.hash(file.data) && u.bytes == found.size
            && PushedFile(env, edited, side, req).store == Indexed(side.store, req.rel, IndexText(u))
  {
  }

  /** After a push the index names content that downloads as the edited file, except when the edit shows the size and
      time found before: then the push reports the file as skipped, and the index goes on naming the content before
      the edit, under the size found. */
  lemma {:induction false} EditIsPushedIff(env: Env, mk: Key, inPlay: iset<Bytes>, side: Side, file: LocalFile,
                                           found: Stat, path: Path, edited: LocalFile, req: Request)
    requires Contracts(env) && CollisionFree(env, inPlay) && Published(env, mk, inPlay, side, file, found, path)
    requires InPlay(env, inPlay, edited, req) && FleetKey(mk, req) && Smooth(env, edited, req) && file.data in inPlay
    requires req.path == path && req.rel.Some? && edited.data != []
    ensures var side', u := PushedFile(env, edited, side, req), ResultOf(env, edited, side, req);
            && req.rel.value in side'.store.index && side'.store.index[req.rel.value] == IndexText(u)
            && (Downloaded(env, side'.store, u.hash, Some(mk)) == Ok(edited.data) <==> !Unnoticed(file, found, edited))
            && (Unnoticed(file, found, edited) ==>
                  && u.skipped && u.bytes == found.size && side'.store == Indexed(side.store, req.rel, IndexText(u))
                  && Downloaded(env, side'.store, u.hash, Some(mk)) == Ok(file.data))
  {
    if NeedsSync(env, Entry(side.cache, path), edited) {
      PushPublishes(env, mk, inPlay, side, edited, req);
    } else {
      UnchangedIsSkipped(env, side, file, found, edited, req);
      var u := ResultOf(env, edited, side, req);
      IndexDoesNotMatter(env, side.store, Indexed(side.store, req.rel, IndexText(u)).index, u.hash, Some(mk));
    }
  }

  /** Two pushes with an edit in between or during the first: the second publishes the edit, except when it shows the
      size and time found at the end of the first. */
  lemma {:induction false} EditBetweenPushesIff(env: Env, mk: Key, inPlay: iset<Bytes>, side: Side, file: LocalFile,
                                                req: Request, edited: LocalFile, again: Request)
    requires Contracts(env) && CollisionFree(env, inPlay) && StoreInv(env, mk, inPlay, side.store) && Modern(side.store)
    requires InPlay(env, inPlay, file, req) && FleetKey(mk, req) && Smooth(env, file, req) && req.rel.Some?
    requires NeedsSync(env, Entry(side.cache, req.path), file) && file.data != [] && edited.data != []
    requires InPlay(env, inPlay, edited, again) && FleetKey(mk, again) && Smooth(env, edited, again)
    requires again.path == req.path && again.rel == req.rel
    ensures var first, found := PushedFile(env, file, side, req), req.faults.examined.value;
            var second, u := PushedFile(env, edited, first, again), ResultOf(env, edited, first, again);
            && (Downloaded(env, second.store, u.hash, Some(mk)) == Ok(edited.data) <==> !Unnoticed(file, found, edited))
            && (Unnoticed(file, found, edited) ==>
                  u.skipped && u.bytes == found.size
                    && Downloaded(env, second.store, u.hash, Some(mk)) == Ok(file.data))
  {
    PushPublishes(env, mk, inPlay, side, file, req);
    EditIsPushedIff(env, mk, inPlay, PushedFile(env, file, side, req), file, req.faults.examined.value, req.path,
      edited, again);
  }

  /** An edit made while the file is being uploaded, after it was read and before its state is recorded, is never
      published by the next push, whatever it changes. */
  lemma {:induction false} EditDuringUploadIsMissed(env: Env, mk: Key, inPlay: iset<Bytes>, side: Side, file: LocalFile,
                                                    req: Request, edited: LocalFile, again: Request)
    requires Contracts(env) && CollisionFree(env, inPlay) && StoreInv(env, mk, inPlay, side.store) && Modern(side.store)
    requires InPlay(env, inPlay, file, req) && FleetKey(mk, req) && Smooth(env, file, req) && req.rel.Some?
    requires NeedsSync(env, Entry(side.cache, req.path), file) && file.data != [] && edited.data != []
    requires InPlay(env, inPlay, edited, again) && FleetKey(mk, again) && Smooth(env, edited, again)
    requires again.path == req.path && again.rel == req.rel
    requires edited.data != file.data && req.faults.examined == Some(StatOf(edited))
    ensures var first := PushedFile(env, file, side, req);
            var second, u := PushedFile(env, edited, first, again), ResultOf(env, edited, first, again);
            && u.skipped && u.bytes == |edited.data|
            && Downloaded(env, second.store, u.hash, Some(mk)) == Ok(file.data)
  {
    EditBetweenPushesIff(env, mk, inPlay, side, file, req, edited, again);
  }

  /** One byte changed within the same second: the push is skipped and the old byte stays published. */
  lemma {:induction false} SameSecondEditIsMissed(env: Env, mk: Key, inPlay: iset<Bytes>, side: Side, path: Path,
                                                  now: nat, req: Request)
    requires Contracts(env) && CollisionFree(env, inPlay)
    requires Published(env, mk, inPlay, side, LocalFile([1], now), Stat(1, now), path)
    requires InPlay(env, inPlay, LocalFile([2], now), req) && [1] in inPlay && FleetKey(mk, req)
    requires Smooth(env, LocalFile([2], now), req) && req.path == path && req.rel.Some?
    ensures var edited := LocalFile([2], now);
            var side', u := PushedFile(env, edited, side, req), ResultOf(env, edited, side, req);
            u.skipped && Downloaded(env, side'.store, u.hash, Some(mk)) == Ok([1])
  {
    var before: Bytes, after: Bytes := [1], [2];
    assert before[0] != after[0];
    EditIsPushedIff(env, mk, inPlay, side, LocalFile([1], now), Stat(1, now), path, LocalFile([2], now), req);
  }
}
