/**
 The orphan pool (removeOrphanBlock and addOrphanBlock in blockchain/chain.go, processOrphans in
 blockchain/process.go): blocks whose parent is not known yet, found by their own hash and by the
 hash of the parent they wait for.
 */
module Orphans {
  import opened Common

  datatype Hash = Hash(id: int)

  const MAX_ORPHAN_BLOCKS: int := 5000

  datatype Orphan = Orphan(hash: Hash, prev: Hash, expiration: int)

  type Pool = map<Hash, Orphan>
  type Waiting = map<Hash, seq<Orphan>>

  ghost predicate HashesDiffer(s: seq<Orphan>) {
    forall i, j :: 0 <= i < j < |s| ==> s[i].hash != s[j].hash
  }

  ghost predicate InPool(pool: Pool, o: Orphan) { o.hash in pool && pool[o.hash] == o }

  ghost predicate InWaiting(waiting: Waiting, o: Orphan) { o.prev in waiting && o in waiting[o.prev] }

  /** Both maps hold the same blocks, each once; blocks with the same hash are the same block. */
  ghost predicate Mirror(pool: Pool, waiting: Waiting, prevOf: Hash -> Hash) {
    && (forall h :: h in pool ==> pool[h].hash == h && pool[h].prev == prevOf(h))
    && (forall o :: InPool(pool, o) <==> InWaiting(waiting, o))
    && (forall p :: p in waiting ==> waiting[p] != [] && HashesDiffer(waiting[p]) &&
                                     forall i :: 0 <= i < |waiting[p]| ==> waiting[p][i].prev == p)
  }

  /** The list without the blocks of one hash. */
  function Without(s: seq<Orphan>, h: Hash): (r: seq<Orphan>)
    ensures forall o :: o in r <==> o in s && o.hash != h
  {
    if s == [] then []
    else if s[|s| - 1].hash == h then Without(s[..|s| - 1], h)
    else Without(s[..|s| - 1], h) + [s[|s| - 1]]
  }

  lemma {:induction false} WithoutHashesDiffer(s: seq<Orphan>, h: Hash)
    requires HashesDiffer(s)
    ensures HashesDiffer(Without(s, h))
  {
    if s != [] {
      WithoutHashesDiffer(s[..|s| - 1], h);
      var init := Without(s[..|s| - 1], h);
      forall i | 0 <= i < |init|
        ensures init[i].hash != s[|s| - 1].hash
      {
        assert init[i] in init;
        var k :| 0 <= k < |s| - 1 && s[..|s| - 1][k] == init[i];
      }
    }
  }

  /** The loop of removeOrphanBlock over the list, which shrinks while it is walked. */
  method Filter(s: seq<Orphan>, h: Hash) returns (r: seq<Orphan>)
    ensures r == Without(s, h)
  {
    r := s;
    var i := 0;
    ghost var done := 0;
    assert s[..0] == [] && s[0..] == s;
    while i < |r|
      invariant 0 <= i <= |r| && 0 <= done <= |s| && r[..i] == Without(s[..done], h) && r[i..] == s[done..]
      decreases |r| - i
    {
      assert s[..done + 1][..done] == s[..done] && s[done] == r[i];
      assert r[i..][1..] == r[i + 1..] && s[done..][1..] == s[done + 1..];
      if r[i].hash == h {
        ghost var before := r;
        r := r[..i] + r[i + 1..];
        assert r[..i] == before[..i] && r[i..] == before[i + 1..];
      } else {
        assert r[..i + 1] == r[..i] + [r[i]];
        i := i + 1;
      }
      done := done + 1;
    }
    assert r[..i] == r && s[..done] == s;
  }

  function Unexpired(pool: Pool, now: int): Pool {
    map h | h in pool && now <= pool[h].expiration :: pool[h]
  }

  ghost predicate NotYounger(o: Orphan, pool: Pool) {
    forall h :: h in pool ==> o.expiration <= pool[h].expiration
  }

  /** The remembered block has left the pool, and no block in it is older. */
  ghost predicate Gone(oldest: Option<Orphan>, pool: Pool) {
    oldest.Some? && oldest.value.hash !in pool && NotYounger(oldest.value, pool)
  }

  /** A block of the pool that has been looked at and is older than the one remembered before. */
  ghost predicate Found(o: Orphan, before: Option<Orphan>, pool: Pool, left: set<Hash>) {
    && o.hash in pool && pool[o.hash] == o && o.hash !in left
    && (before.Some? ==> o.expiration < before.value.expiration)
  }

  lemma Smaller(pool: Pool, now: int)
    ensures Unexpired(pool, now).Keys <= pool.Keys && |Unexpired(pool, now)| <= |pool|
  {
    var kept := Unexpired(pool, now);
    Fewer(kept.Keys, pool.Keys);
    assert |kept.Keys| == |kept| && |pool.Keys| == |pool|;
  }

  lemma Fewer(s: set<Hash>, t: set<Hash>)
    requires s <= t
    ensures |s| <= |t|
  {
    assert |t| == |s| + |t - s| by { assert t == s + (t - s); }
  }

  lemma Dropped(pool: Pool, h: Hash)
    ensures |pool - {h}| == |pool| - if h in pool then 1 else 0
  {
    var rest := pool - {h};
    assert rest.Keys == pool.Keys - {h};
    assert |rest.Keys| == |rest| && |pool.Keys| == |pool|;
  }

  lemma OneMore(pool: Pool, h: Hash, o: Orphan)
    requires h !in pool
    ensures |pool[h := o]| == |pool| + 1
  {
    assert pool[h := o].Keys == pool.Keys + {h};
    assert |pool[h := o].Keys| == |pool[h := o]| && |pool.Keys| == |pool|;
  }

  ghost predicate Keyed(pool: Pool) {
    forall h :: h in pool ==> pool[h].hash == h
  }

  ghost predicate SubPool(a: Pool, b: Pool) {
    forall h :: h in a ==> h in b && a[h] == b[h]
  }

  /** Blocks that left the pool while the children of parent were released; their hashes are listed. */
  ghost predicate Taken(before: Pool, after: Pool, parent: Hash, hashes: seq<Hash>) {
    && (forall h :: h in before && h !in after ==> h in hashes)
    && (forall h :: h in hashes ==> h in before && h !in after && before[h].prev == parent)
  }

  ghost predicate Took(before: Pool, after: Pool, parent: Hash, hashes: seq<Hash>) {
    Taken(before, after, parent, hashes) && forall h :: h in after ==> after[h].prev != parent
  }

  /** o waits for h, directly or through blocks of the pool. */
  least predicate Descends(pool: Pool, o: Orphan, h: Hash) {
    o.prev == h || exists q :: InPool(pool, q) && q.hash == o.prev && Descends(pool, q, h)
  }

  /** Every block that left the pool descends from hash, and its children are queued, done with, or gone. */
  ghost predicate Following(before: Pool, now: Pool, hash: Hash, queue: seq<Hash>, done: set<Hash>) {
    && SubPool(now, before)
    && (hash in queue || hash in done)
    && (forall h :: h in before && h !in now ==> (h in queue || h in done) && Descends(before, before[h], hash))
    && (forall h :: h in queue ==> h == hash || (h in before && h !in now))
    && (forall h :: h in now ==> now[h].prev !in done)
  }

  /** Every block that left the pool was accepted by the chain. */
  ghost predicate AllAccepted(before: Pool, after: Pool, accept: Hash -> bool) {
    forall h :: h in before && h !in after ==> accept(h)
  }

  /** Of the blocks that left the pool exactly one was refused. */
  ghost predicate OneRefused(before: Pool, after: Pool, accept: Hash -> bool) {
    exists r ::
      && r in before && r !in after && !accept(r)
      && forall h :: h in before && h !in after && h != r ==> accept(h)
  }

  /** Only blocks that wait for parent left the pool. */
  ghost predicate OnlyChildren(before: Pool, after: Pool, parent: Hash) {
    forall h :: h in before && h !in after ==> before[h].prev == parent
  }

  ghost predicate OnlyDescendants(before: Pool, after: Pool, hash: Hash) {
    forall h :: h in before && h !in after ==> Descends(before, before[h], hash)
  }

  class OrphanPool {
    var orphans: Pool
    var prevOrphans: Waiting
    var oldest: Option<Orphan>
    const prevOf: Hash -> Hash

    ghost predicate Valid()
      reads this
    {
      Mirror(orphans, prevOrphans, prevOf) && (oldest.Some? ==> oldest.value.prev == prevOf(oldest.value.hash))
    }

    constructor (f: Hash -> Hash)
      ensures Valid() && orphans == map[] && prevOf == f
    {
      orphans, prevOrphans, oldest, prevOf := map[], map[], None, f;
    }

    /** removeOrphanBlock: also for a block that has left the pool already. */
    method RemoveOrphanBlock(o: Orphan)
      requires Valid() && o.prev == prevOf(o.hash)
      modifies this`orphans, this`prevOrphans
      ensures Valid() && orphans == old(orphans) - {o.hash}
    {
      orphans := orphans - {o.hash};
      var list := if o.prev in prevOrphans then prevOrphans[o.prev] else [];
      list := Filter(list, o.hash);
      prevOrphans := prevOrphans[o.prev := list];
      if prevOrphans[o.prev] == [] {
        prevOrphans := prevOrphans - {o.prev};
      }
      Removed(old(orphans), old(prevOrphans), orphans, prevOrphans, prevOf, o);
    }

    /** The clean-up of addOrphanBlock: drops what has expired and looks for the oldest of the rest. */
    method Expire(now: int)
      requires Valid()
      modifies this
      ensures Valid() && orphans == Unexpired(old(orphans), now) && SubPool(orphans, old(orphans))
      ensures forall h :: h in orphans <==> h in old(orphans) && !(old(orphans)[h].expiration < now)
      ensures orphans != map[] ==>
        oldest.Some? && forall h :: h in orphans ==> oldest.value.expiration <= orphans[h].expiration
      ensures oldest == old(oldest) || (oldest.Some? && oldest.value.hash in orphans)
      ensures old(oldest).Some? && NotYounger(old(oldest).value, orphans) ==> oldest == old(oldest)
    {
      var left := orphans.Keys;
      ghost var all := orphans;
      while left != {}
        invariant Valid() && left <= all.Keys
        invariant forall h :: h in orphans <==> h in all && (h in left || now <= all[h].expiration)
        invariant forall h :: h in orphans ==> orphans[h] == all[h]
        invariant oldest.None? ==> orphans.Keys <= left
        invariant oldest.Some? ==>
                    forall h :: h in orphans && h !in left ==> oldest.value.expiration <= orphans[h].expiration
        invariant oldest == old(oldest) || (oldest.Some? && Found(oldest.value, old(oldest), orphans, left))
      {
        var h :| h in left;
        left := left - {h};
        var o := orphans[h];
        if now > o.expiration {
          RemoveOrphanBlock(o);
        } else if oldest.None? || o.expiration < oldest.value.expiration {
          oldest := Some(o);
        }
      }
      SamePool(orphans, Unexpired(all, now));
    }

    /** addOrphanBlock: the new block is in, and of the others only expired ones and the oldest may go. */
    method AddOrphanBlock(hash: Hash, prev: Hash, now: int)
      requires Valid() && hash !in orphans && prev == prevOf(hash)
      modifies this
      ensures Valid() && hash in orphans && orphans[hash] == Orphan(hash, prev, now + 3600)
      ensures var kept := Unexpired(old(orphans), now);
              if |kept| + 1 > MAX_ORPHAN_BLOCKS
              then exists o: Orphan :: orphans == (kept - {o.hash})[hash := orphans[hash]] && NotYounger(o, kept)
              else orphans == kept[hash := orphans[hash]]
      ensures |old(orphans)| <= MAX_ORPHAN_BLOCKS ==>
        (|orphans| > MAX_ORPHAN_BLOCKS <==>
          |Unexpired(old(orphans), now)| == MAX_ORPHAN_BLOCKS && Gone(old(oldest), Unexpired(old(orphans), now)))
    {
      Smaller(orphans, now);
      hide Unexpired, Mirror;
      Expire(now);
      ghost var kept := orphans;
      if |orphans| + 1 > MAX_ORPHAN_BLOCKS {
        var o := oldest.value;
        assert NotYounger(o, orphans);
        RemoveOrphanBlock(o);
        oldest := None;
        assert Gone(old(oldest), kept) <==> o.hash !in kept;
        Dropped(kept, o.hash);
      }
      var o := Orphan(hash, prev, now + 3600);
      ghost var pool, waiting := orphans, prevOrphans;
      OneMore(orphans, hash, o);
      orphans := orphans[hash := o];
      prevOrphans := prevOrphans[prev := (if prev in prevOrphans then prevOrphans[prev] else []) + [o]];
      AddedTo(pool, waiting, prevOf, o);
    }

    /** The blocks waiting for one parent, in turn: each leaves the pool and is offered to the chain. */
    method Release(parent: Hash, accept: Hash -> bool, queue: seq<Hash>) returns (ok: bool, more: seq<Hash>)
      requires Valid()
      modifies this`orphans, this`prevOrphans
      ensures Valid() && SubPool(orphans, old(orphans))
      ensures ok ==> queue <= more && Took(old(orphans), orphans, parent, more[|queue|..])
      ensures OnlyChildren(old(orphans), orphans, parent)
      ensures if ok then AllAccepted(old(orphans), orphans, accept) else OneRefused(old(orphans), orphans, accept)
      ensures ok && more == queue ==> orphans == old(orphans)
      ensures ok && more != queue ==> |orphans| < |old(orphans)|
    {
      hide *;
      more := queue;
      ghost var hashes: seq<Hash> := [];
      TakenNone(orphans, parent, accept);
      while parent in prevOrphans
        invariant Valid() && SubPool(orphans, old(orphans)) && more == queue + hashes
        invariant Taken(old(orphans), orphans, parent, hashes) && AllAccepted(old(orphans), orphans, accept)
        invariant if hashes == [] then orphans == old(orphans) else |orphans| < |old(orphans)|
        decreases |orphans|
      {
        ghost var now := orphans;
        FirstChild(parent);
        var o := prevOrphans[parent][0];
        RemoveOrphanBlock(o);
        TakenNext(old(orphans), now, parent, hashes, o);
        OneMoreGone(old(orphans), now, parent, hashes, o, accept);
        if !accept(o.hash) {
          return false, more;
        }
        assert more + [o.hash] == queue + (hashes + [o.hash]);
        more := more + [o.hash];
        hashes := hashes + [o.hash];
      }
      NoChildren(parent, old(orphans), hashes);
      TookChildren(old(orphans), orphans, parent, hashes);
      assert more[|queue|..] == hashes;
      ok := true;
    }

    lemma HashesAreKeys()
      requires Valid()
      ensures Keyed(orphans)
    {
    }

    lemma FirstChild(parent: Hash)
      requires Valid() && parent in prevOrphans
      ensures prevOrphans[parent] != []
      ensures var o := prevOrphans[parent][0];
              InPool(orphans, o) && o.prev == parent == prevOf(o.hash) && |orphans - {o.hash}| < |orphans|
    {
      var o := prevOrphans[parent][0];
      assert InWaiting(prevOrphans, o);
      assert InPool(orphans, o);
      FewerOrphans(orphans, o.hash);
    }

    lemma NoChildren(parent: Hash, before: Pool, hashes: seq<Hash>)
      requires Valid() && parent !in prevOrphans && Taken(before, orphans, parent, hashes)
      ensures Took(before, orphans, parent, hashes)
    {
      forall h | h in orphans
        ensures orphans[h].prev != parent
      {
        assert InPool(orphans, orphans[h]);
        assert InWaiting(prevOrphans, orphans[h]);
      }
    }

    /**
     processOrphans: follows the newly accepted blocks until nothing in the pool waits for any of them.
     It ends because every round takes a hash off the queue or a block out of the pool.
     */
    method ProcessOrphans(hash: Hash, accept: Hash -> bool) returns (ok: bool)
      requires Valid()
      modifies this`orphans, this`prevOrphans
      ensures Valid() && SubPool(orphans, old(orphans))
      ensures ok ==> forall h :: h in orphans ==> !Descends(old(orphans), orphans[h], hash)
      ensures OnlyDescendants(old(orphans), orphans, hash)
      ensures ok <==> forall h :: h in old(orphans) && Descends(old(orphans), old(orphans)[h], hash) ==> accept(h)
      ensures if ok then AllAccepted(old(orphans), orphans, accept) else OneRefused(old(orphans), orphans, accept)
    {
      hide *;
      var queue := [hash];
      ghost var done: set<Hash> := {};
      Begun(orphans, hash, accept);
      HashesAreKeys();
      while queue != []
        invariant Valid() && Following(old(orphans), orphans, hash, queue, done)
        invariant AllAccepted(old(orphans), orphans, accept)
        decreases |orphans|, |queue|
      {
        var parent := queue[0];
        ghost var now, q := orphans, queue;
        queue := queue[1..];
        var n := |queue|;
        ok, queue := Release(parent, accept, queue);
        if !ok {
          Refused(old(orphans), now, orphans, hash, q, done, accept);
          return;
        }
        AcceptedToo(old(orphans), now, orphans, accept);
        Followed(old(orphans), now, orphans, hash, q, queue, done);
        done := done + {parent};
      }
      NothingDescends(old(orphans), orphans, hash, done);
      AllDescendantsAccepted(old(orphans), orphans, hash, accept);
      ok := true;
    }
  }

  lemma Removed(pool: Pool, waiting: Waiting, pool': Pool, waiting': Waiting, prevOf: Hash -> Hash, o: Orphan)
    requires Mirror(pool, waiting, prevOf) && o.prev == prevOf(o.hash) && pool' == pool - {o.hash}
    requires var list := Without(if o.prev in waiting then waiting[o.prev] else [], o.hash);
             waiting' == if list == [] then waiting - {o.prev} else waiting[o.prev := list]
    ensures Mirror(pool', waiting', prevOf)
  {
    var was := if o.prev in waiting then waiting[o.prev] else [];
    WithoutHashesDiffer(was, o.hash);
    var list := Without(was, o.hash);
    forall q: Orphan
      ensures InPool(pool', q) <==> InWaiting(waiting', q)
    {
      assert InPool(pool, q) <==> InWaiting(waiting, q);
      if InPool(pool, q) && q.hash == o.hash {
        assert q.prev == o.prev;
      }
    }
    forall i | 0 <= i < |list|
      ensures list[i].prev == o.prev
    {
      assert list[i] in list;
      var k :| 0 <= k < |was| && was[k] == list[i];
    }
  }

  lemma AddedTo(pool: Pool, waiting: Waiting, prevOf: Hash -> Hash, o: Orphan)
    requires Mirror(pool, waiting, prevOf) && o.hash !in pool && o.prev == prevOf(o.hash)
    ensures var list := (if o.prev in waiting then waiting[o.prev] else []) + [o];
            Mirror(pool[o.hash := o], waiting[o.prev := list], prevOf)
  {
    var was := if o.prev in waiting then waiting[o.prev] else [];
    var list := was + [o];
    forall i | 0 <= i < |was|
      ensures was[i].hash != o.hash
    {
      assert InWaiting(waiting, was[i]);
      assert InPool(pool, was[i]);
    }
    var pool', waiting' := pool[o.hash := o], waiting[o.prev := list];
    forall q: Orphan
      ensures InPool(pool', q) <==> InWaiting(waiting', q)
    {
      assert InPool(pool, q) <==> InWaiting(waiting, q);
      if q.prev == o.prev {
        assert q in list <==> q in was || q == o;
      }
    }
  }

  lemma FewerOrphans(pool: Pool, h: Hash)
    requires h in pool
    ensures |pool - {h}| < |pool|
  {
    var rest := pool - {h};
    assert rest.Keys == pool.Keys - {h};
  }

  lemma SamePool(a: Pool, b: Pool)
    requires forall h: Hash :: (h in a <==> h in b) && (h in a && h in b ==> a[h] == b[h])
    ensures a == b
  {
  }

  lemma TakenNone(pool: Pool, parent: Hash, accept: Hash -> bool)
    ensures Taken(pool, pool, parent, []) && SubPool(pool, pool) && AllAccepted(pool, pool, accept)
  {
  }

  lemma TakenNext(before: Pool, now: Pool, parent: Hash, hashes: seq<Hash>, o: Orphan)
    requires Taken(before, now, parent, hashes) && SubPool(now, before) && InPool(now, o) && o.prev == parent
    ensures Taken(before, now - {o.hash}, parent, hashes + [o.hash]) && SubPool(now - {o.hash}, before)
  {
  }

  lemma TookChildren(before: Pool, after: Pool, parent: Hash, hashes: seq<Hash>)
    requires Taken(before, after, parent, hashes)
    ensures OnlyChildren(before, after, parent)
  {
  }

  lemma OneMoreGone(before: Pool, now: Pool, parent: Hash, hashes: seq<Hash>, o: Orphan, accept: Hash -> bool)
    requires Taken(before, now, parent, hashes) && SubPool(now, before) && InPool(now, o) && o.prev == parent
    requires AllAccepted(before, now, accept)
    ensures var after := now - {o.hash};
            && OnlyChildren(before, after, parent)
            && if accept(o.hash) then AllAccepted(before, after, accept) else OneRefused(before, after, accept)
  {
    TookChildren(before, now, parent, hashes);
    hide Taken;
    var after := now - {o.hash};
    forall h | h in before && h !in after && h != o.hash
      ensures accept(h) && before[h].prev == parent
    {
      assert h !in now;
    }
    assert o.hash in before && before[o.hash] == o && o.hash !in after;
  }

  lemma Begun(pool: Pool, hash: Hash, accept: Hash -> bool)
    ensures Following(pool, pool, hash, [hash], {}) && AllAccepted(pool, pool, accept)
  {
  }

  lemma AcceptedToo(before: Pool, now: Pool, after: Pool, accept: Hash -> bool)
    requires AllAccepted(before, now, accept) && AllAccepted(now, after, accept)
    ensures AllAccepted(before, after, accept)
  {
  }

  /** A child of the block at the head of the queue was refused. */
  lemma Refused(before: Pool, now: Pool, after: Pool, hash: Hash, queue: seq<Hash>, done: set<Hash>,
                accept: Hash -> bool)
    requires Following(before, now, hash, queue, done) && queue != [] && SubPool(after, now) && Keyed(before)
    requires OnlyChildren(now, after, queue[0]) && AllAccepted(before, now, accept) && OneRefused(now, after, accept)
    ensures SubPool(after, before) && OnlyDescendants(before, after, hash) && OneRefused(before, after, accept)
    ensures !forall h :: h in before && Descends(before, before[h], hash) ==> accept(h)
  {
    forall h | h in before && h !in after
      ensures Descends(before, before[h], hash)
    {
      if h in now {
        ChildDescends(before, now, hash, queue, done, before[h]);
      }
    }
    var r :| r in now && r !in after && !accept(r) && forall h :: h in now && h !in after && h != r ==> accept(h);
    assert r in before && r !in after && Descends(before, before[r], hash);
  }

  lemma AllDescendantsAccepted(before: Pool, after: Pool, hash: Hash, accept: Hash -> bool)
    requires SubPool(after, before) && AllAccepted(before, after, accept)
    requires forall h :: h in after ==> !Descends(before, after[h], hash)
    requires forall h :: h in before && h !in after ==> Descends(before, before[h], hash)
    ensures OnlyDescendants(before, after, hash)
    ensures forall h :: h in before && Descends(before, before[h], hash) ==> accept(h)
  {
  }

  lemma Followed(before: Pool, now: Pool, after: Pool, hash: Hash, queue: seq<Hash>, queue': seq<Hash>, done: set<Hash>)
    requires Following(before, now, hash, queue, done) && queue != [] && queue[1..] <= queue'
    requires SubPool(after, now) && Took(now, after, queue[0], queue'[|queue| - 1..]) && Keyed(before)
    ensures Following(before, after, hash, queue', done + {queue[0]})
  {
    var parent, more := queue[0], queue'[|queue| - 1..];
    assert queue' == queue[1..] + more;
    assert queue == [parent] + queue[1..];
    forall h | h in before && h !in after
      ensures (h in queue' || h in done + {parent}) && Descends(before, before[h], hash)
    {
      if h in now {
        ChildDescends(before, now, hash, queue, done, before[h]);
      }
    }
  }

  lemma ChildDescends(before: Pool, now: Pool, hash: Hash, queue: seq<Hash>, done: set<Hash>, o: Orphan)
    requires Following(before, now, hash, queue, done) && queue != [] && o.prev == queue[0]
    requires Keyed(before)
    ensures Descends(before, o, hash)
  {
    var parent := queue[0];
    if parent != hash {
      assert InPool(before, before[parent]);
    }
  }

  least lemma DescendantGone(before: Pool, now: Pool, hash: Hash, done: set<Hash>, o: Orphan)
    requires Descends(before, o, hash)
    requires Following(before, now, hash, [], done) && Keyed(before)
    ensures !InPool(now, o)
  {
    if o.prev != hash {
      var q :| InPool(before, q) && q.hash == o.prev && Descends(before, q, hash);
      DescendantGone(before, now, hash, done, q);
    }
  }

  lemma NothingDescends(before: Pool, now: Pool, hash: Hash, done: set<Hash>)
    requires Following(before, now, hash, [], done) && Keyed(before)
    ensures SubPool(now, before)
    ensures forall h :: h in now ==> !Descends(before, now[h], hash)
    ensures forall h :: h in before && h !in now ==> Descends(before, before[h], hash)
  {
    forall h | h in now
      ensures !Descends(before, now[h], hash)
    {
      if Descends(before, now[h], hash) {
        DescendantGone(before, now, hash, done, now[h]);
      }
    }
  }
}
