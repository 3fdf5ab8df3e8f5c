/**
 The address manager (addrmgr/addrmanager.go): every known address is either new, and then in one to
 eight new buckets, or tried, and then in exactly one tried bucket. Hashing, randomness and the clock
 are oracles.
 */
module AddrMgr {
  import opened Common

  const NEW_BUCKET_COUNT: int := 1024
  const NEW_BUCKET_SIZE: int := 64
  const NEW_BUCKETS_PER_ADDRESS: int := 8
  const TRIED_BUCKET_COUNT: int := 64
  const TRIED_BUCKET_SIZE: int := 256

  datatype Key = Key(id: int)

  datatype KnownAddress = KnownAddress(refs: int, tried: bool, time: int, services: set<int>, src: Key,
                                       attempts: int, lastAttempt: int, lastSuccess: int)

  type Index = map<Key, KnownAddress>
  type NewBuckets = seq<set<Key>>
  type TriedBuckets = seq<seq<Key>>

  // ------------------------------------------------------------------ counting over buckets

  lemma {:induction false} SumUpdate(s: seq<int>, i: int, v: int)
    requires 0 <= i < |s|
    ensures Sum(s[i := v]) == Sum(s) - s[i] + v
  {
    var n := |s| - 1;
    if i == n {
      assert s[n := v][..n] == s[..n];
    } else {
      SumUpdate(s[..n], i, v);
      assert s[i := v][..n] == s[..n][i := v];
    }
  }

  lemma {:induction false} SumZero(s: seq<int>)
    requires forall i :: 0 <= i < |s| ==> s[i] >= 0
    ensures Sum(s) >= 0 && (Sum(s) == 0 <==> forall i :: 0 <= i < |s| ==> s[i] == 0)
  {
    if s != [] {
      SumZero(s[..|s| - 1]);
    }
  }

  function InNew(nb: NewBuckets, k: Key): seq<int> {
    seq(|nb|, i requires 0 <= i < |nb| => if k in nb[i] then 1 else 0)
  }

  /** In how many new buckets an address is. */
  function Refs(nb: NewBuckets, k: Key): int { Sum(InNew(nb, k)) }

  function InTried(tb: TriedBuckets, k: Key): seq<int> {
    seq(|tb|, i requires 0 <= i < |tb| => multiset(tb[i])[k])
  }

  /** How often an address stands in the tried buckets. */
  function Places(tb: TriedBuckets, k: Key): int { Sum(InTried(tb, k)) }

  function Lengths(tb: TriedBuckets): seq<int> {
    seq(|tb|, i requires 0 <= i < |tb| => |tb[i]|)
  }

  lemma RefsUpdate(nb: NewBuckets, b: int, s: set<Key>, k: Key)
    requires 0 <= b < |nb|
    ensures Refs(nb[b := s], k) == Refs(nb, k) - (if k in nb[b] then 1 else 0) + if k in s then 1 else 0
  {
    SumUpdate(InNew(nb, k), b, if k in s then 1 else 0);
    assert InNew(nb[b := s], k) == InNew(nb, k)[b := if k in s then 1 else 0];
  }

  lemma RefsZero(nb: NewBuckets, k: Key)
    ensures Refs(nb, k) >= 0 && (Refs(nb, k) == 0 <==> forall b :: 0 <= b < |nb| ==> k !in nb[b])
  {
    SumZero(InNew(nb, k));
    forall b | 0 <= b < |nb|
      ensures InNew(nb, k)[b] == 0 <==> k !in nb[b]
    {
    }
  }

  lemma PlacesUpdate(tb: TriedBuckets, b: int, l: seq<Key>, k: Key)
    requires 0 <= b < |tb|
    ensures Places(tb[b := l], k) == Places(tb, k) - multiset(tb[b])[k] + multiset(l)[k]
  {
    SumUpdate(InTried(tb, k), b, multiset(l)[k]);
    assert InTried(tb[b := l], k) == InTried(tb, k)[b := multiset(l)[k]];
  }

  lemma PlacesZero(tb: TriedBuckets, k: Key)
    ensures Places(tb, k) >= 0 && (Places(tb, k) == 0 <==> forall b :: 0 <= b < |tb| ==> k !in tb[b])
  {
    SumZero(InTried(tb, k));
    forall b | 0 <= b < |tb|
      ensures InTried(tb, k)[b] == 0 <==> k !in tb[b]
    {
      assert k in multiset(tb[b]) <==> k in tb[b];
    }
  }

  lemma LengthsUpdate(tb: TriedBuckets, b: int, l: seq<Key>)
    requires 0 <= b < |tb|
    ensures Sum(Lengths(tb[b := l])) == Sum(Lengths(tb)) - |tb[b]| + |l|
  {
    SumUpdate(Lengths(tb), b, |l|);
    assert Lengths(tb[b := l]) == Lengths(tb)[b := |l|];
  }

  // ------------------------------------------------------------------ the invariant

  function Untried(index: Index): set<Key> { set k | k in index && !index[k].tried }

  function Tried(index: Index): set<Key> { set k | k in index && index[k].tried }

  /** Where an address stands; one that is pending is known but in no bucket. */
  ghost predicate Placed(index: Index, nb: NewBuckets, tb: TriedBuckets, k: Key, p: Option<Key>) {
    if k !in index then Refs(nb, k) == 0 && Places(tb, k) == 0 && p != Some(k)
    else
      && index[k].refs == Refs(nb, k) <= NEW_BUCKETS_PER_ADDRESS
      && if p == Some(k) then !index[k].tried && Refs(nb, k) == 0 && Places(tb, k) == 0
         else if index[k].tried then Refs(nb, k) == 0 && Places(tb, k) == 1
         else Refs(nb, k) >= 1 && Places(tb, k) == 0
  }

  ghost predicate Shape(nb: NewBuckets, tb: TriedBuckets) {
    && |nb| == NEW_BUCKET_COUNT && |tb| == TRIED_BUCKET_COUNT
    && (forall b :: 0 <= b < |nb| ==> |nb[b]| <= NEW_BUCKET_SIZE + 1)
    && (forall b :: 0 <= b < |tb| ==> |tb[b]| <= TRIED_BUCKET_SIZE)
  }

  /** The invariant of the manager, but for the pending address if there is one. */
  ghost predicate Inv(index: Index, nb: NewBuckets, tb: TriedBuckets, nNew: int, nTried: int, pending: Option<Key>) {
    && Shape(nb, tb)
    && (forall k :: Placed(index, nb, tb, k, pending))
    && nNew == |Untried(index)| && nTried == |Tried(index)| == Sum(Lengths(tb))
  }

  /** What the invariant says of one address, in the words of the source. */
  lemma InvMeaning(index: Index, nb: NewBuckets, tb: TriedBuckets, nNew: int, nTried: int, k: Key)
    requires Inv(index, nb, tb, nNew, nTried, None) && k in index
    ensures index[k].refs == Refs(nb, k) == |set b | 0 <= b < |nb| && k in nb[b]| <= 8
    ensures index[k].tried <==> index[k].refs == 0
    ensures index[k].tried <==> Places(tb, k) == 1
    ensures (exists b :: 0 <= b < |nb| && k in nb[b]) <==> !index[k].tried
    ensures (exists b :: 0 <= b < |tb| && k in tb[b]) <==> index[k].tried
    ensures forall b, i, c, j :: InPlace(tb, k, b, i) && InPlace(tb, k, c, j) ==> b == c && i == j
  {
    assert Placed(index, nb, tb, k, None);
    RefsZero(nb, k);
    RefsCount(nb, k);
    PlacesZero(tb, k);
    forall b, i, c, j | InPlace(tb, k, b, i) && InPlace(tb, k, c, j) && (b != c || i != j)
      ensures false
    {
      TwicePlaced(tb, k, b, i, c, j);
    }
  }

  ghost predicate InPlace(tb: TriedBuckets, k: Key, b: int, i: int) {
    0 <= b < |tb| && 0 <= i < |tb[b]| && tb[b][i] == k
  }

  lemma TwicePlaced(tb: TriedBuckets, k: Key, b: int, i: int, c: int, j: int)
    requires InPlace(tb, k, b, i) && InPlace(tb, k, c, j) && (b != c || i != j)
    ensures Places(tb, k) >= 2
  {
    var l := tb[b];
    PlacesUpdate(tb, b, [], k);
    PlacesZero(tb[b := []], k);
    if b == c {
      assert l == l[..i] + [k] + l[i + 1..];
      assert if j < i then l[..i][j] == k else l[i + 1..][j - i - 1] == k;
    } else {
      assert tb[b := []][c][j] == k;
    }
  }

  lemma {:induction false} RefsCount(nb: NewBuckets, k: Key)
    ensures Refs(nb, k) == |set b | 0 <= b < |nb| && k in nb[b]|
  {
    if nb != [] {
      var n := |nb| - 1;
      RefsCount(nb[..n], k);
      assert InNew(nb, k)[..n] == InNew(nb[..n], k);
      var now, before := set b | 0 <= b < |nb| && k in nb[b], set b | 0 <= b < n && k in nb[..n][b];
      assert now == if k in nb[n] then before + {n} else before;
    }
  }

  // ------------------------------------------------------------------ single moves

  /** An address that enters the index and waits for a bucket. */
  lemma Enter(index: Index, nb: NewBuckets, tb: TriedBuckets, nNew: int, nTried: int, k: Key, ka: KnownAddress)
    requires Inv(index, nb, tb, nNew, nTried, None) && k !in index && ka.refs == 0 && !ka.tried
    ensures Inv(index[k := ka], nb, tb, nNew + 1, nTried, Some(k))
  {
    var index' := index[k := ka];
    assert Untried(index') == Untried(index) + {k} && Tried(index') == Tried(index);
    forall q
      ensures Placed(index', nb, tb, q, Some(k))
    {
      assert Placed(index, nb, tb, q, None);
    }
  }

  /** A known address, new or pending, enters one more new bucket. */
  lemma Refer(index: Index, nb: NewBuckets, tb: TriedBuckets, nNew: int, nTried: int, p: Option<Key>, k: Key, b: int)
    requires Inv(index, nb, tb, nNew, nTried, p) && k in index && !index[k].tried && (p.None? || p == Some(k))
    requires 0 <= b < |nb| && k !in nb[b] && |nb[b]| <= NEW_BUCKET_SIZE && index[k].refs < NEW_BUCKETS_PER_ADDRESS
    ensures Inv(index[k := index[k].(refs := index[k].refs + 1)], nb[b := nb[b] + {k}], tb, nNew, nTried, None)
  {
    var index', nb' := index[k := index[k].(refs := index[k].refs + 1)], nb[b := nb[b] + {k}];
    assert Untried(index') == Untried(index) && Tried(index') == Tried(index);
    forall q
      ensures Placed(index', nb', tb, q, None)
    {
      assert Placed(index, nb, tb, q, p);
      RefsUpdate(nb, b, nb[b] + {k}, q);
      RefsZero(nb, q);
    }
  }

  function Dropped(index: Index, k: Key): Index
    requires k in index
  {
    if index[k].refs == 1 then index - {k} else index[k := index[k].(refs := index[k].refs - 1)]
  }

  /** An address leaves a new bucket, and the index with its last one. */
  lemma Drop(index: Index, nb: NewBuckets, tb: TriedBuckets, nNew: int, nTried: int, p: Option<Key>, k: Key, b: int)
    requires Inv(index, nb, tb, nNew, nTried, p) && 0 <= b < |nb| && k in nb[b]
    ensures k in index && index[k].refs >= 1 && p != Some(k)
    ensures Inv(Dropped(index, k), nb[b := nb[b] - {k}], tb, if index[k].refs == 1 then nNew - 1 else nNew, nTried, p)
  {
    RefsZero(nb, k);
    assert Placed(index, nb, tb, k, p);
    var index', nb' := Dropped(index, k), nb[b := nb[b] - {k}];
    if index[k].refs == 1 {
      assert Untried(index') == Untried(index) - {k};
    } else {
      assert Untried(index') == Untried(index);
    }
    assert Tried(index') == Tried(index);
    forall q
      ensures Placed(index', nb', tb, q, p)
    {
      assert Placed(index, nb, tb, q, p);
      RefsUpdate(nb, b, nb[b] - {k}, q);
    }
  }

  /** A change of what is recorded about an address, but not of its place. */
  lemma Annotate(index: Index, nb: NewBuckets, tb: TriedBuckets, nNew: int, nTried: int, k: Key, ka: KnownAddress)
    requires Inv(index, nb, tb, nNew, nTried, None) && k in index
    requires ka.refs == index[k].refs && ka.tried == index[k].tried
    ensures Inv(index[k := ka], nb, tb, nNew, nTried, None)
  {
    var index' := index[k := ka];
    assert Untried(index') == Untried(index) && Tried(index') == Tried(index);
    forall q
      ensures Placed(index', nb, tb, q, None)
    {
      assert Placed(index, nb, tb, q, None);
    }
  }

  // ------------------------------------------------------------------ moves between new and tried

  /** k is on its way from the new buckets to a tried one: as many references as buckets still hold it. */
  ghost predicate Leaving(index: Index, nb: NewBuckets, tb: TriedBuckets, nNew: int, nTried: int, k: Key) {
    && Shape(nb, tb) && k in index && !index[k].tried
    && index[k].refs == Refs(nb, k) <= NEW_BUCKETS_PER_ADDRESS && Places(tb, k) == 0
    && (forall q :: q != k ==> Placed(index, nb, tb, q, None))
    && nNew == |Untried(index)| && nTried == |Tried(index)| == Sum(Lengths(tb))
  }

  lemma StartLeaving(index: Index, nb: NewBuckets, tb: TriedBuckets, nNew: int, nTried: int, k: Key)
    requires Inv(index, nb, tb, nNew, nTried, None) && k in index && !index[k].tried
    ensures Leaving(index, nb, tb, nNew, nTried, k) && Refs(nb, k) >= 1
  {
    assert Placed(index, nb, tb, k, None);
  }

  lemma LeaveBucket(index: Index, nb: NewBuckets, tb: TriedBuckets, nNew: int, nTried: int, k: Key, b: int)
    requires Leaving(index, nb, tb, nNew, nTried, k) && 0 <= b < |nb| && k in nb[b]
    ensures Leaving(index[k := index[k].(refs := index[k].refs - 1)], nb[b := nb[b] - {k}], tb, nNew, nTried, k)
    ensures |nb[b] - {k}| <= NEW_BUCKET_SIZE
  {
    var index', nb' := index[k := index[k].(refs := index[k].refs - 1)], nb[b := nb[b] - {k}];
    RefsUpdate(nb, b, nb[b] - {k}, k);
    assert Untried(index') == Untried(index) && Tried(index') == Tried(index);
    forall q | q != k
      ensures Placed(index', nb', tb, q, None)
    {
      assert Placed(index, nb, tb, q, None);
      RefsUpdate(nb, b, nb[b] - {k}, q);
    }
  }

  /** Out of all new buckets, the address goes to a tried bucket with room. */
  lemma ToTried(index: Index, nb: NewBuckets, tb: TriedBuckets, nNew: int, nTried: int, k: Key, t: int)
    requires Leaving(index, nb, tb, nNew, nTried, k) && Refs(nb, k) == 0
    requires 0 <= t < |tb| && |tb[t]| < TRIED_BUCKET_SIZE
    ensures Inv(index[k := index[k].(tried := true)], nb, tb[t := tb[t] + [k]], nNew - 1, nTried + 1, None)
  {
    var index', l := index[k := index[k].(tried := true)], tb[t] + [k];
    assert Untried(index') == Untried(index) - {k} && Tried(index') == Tried(index) + {k};
    LengthsUpdate(tb, t, l);
    assert multiset(l) == multiset(tb[t]) + multiset{k};
    var tb' := tb[t := l];
    hide Sum, InNew, InTried, Refs, Places, Lengths;
    forall q
      ensures Placed(index', nb, tb', q, None)
    {
      PlacesUpdate(tb, t, l, q);
      if q != k {
        assert Placed(index, nb, tb, q, None);
      }
    }
  }

  lemma Replaced(s: seq<Key>, e: int, k: Key)
    requires 0 <= e < |s|
    ensures multiset(s[e := k]) == multiset(s) - multiset{s[e]} + multiset{k}
  {
    assert s == s[..e] + [s[e]] + s[e + 1..];
    assert s[e := k] == s[..e] + [k] + s[e + 1..];
  }

  /** In a full tried bucket the address takes the place of another, which goes back to a new bucket. */
  lemma Exchange(index: Index, nb: NewBuckets, tb: TriedBuckets, nNew: int, nTried: int, k: Key, t: int, e: int, b: int)
    requires Leaving(index, nb, tb, nNew, nTried, k) && Refs(nb, k) == 0
    requires 0 <= t < |tb| && 0 <= e < |tb[t]| && 0 <= b < |nb| && |nb[b]| <= NEW_BUCKET_SIZE
    ensures var r := tb[t][e];
            && r in index && r != k && index[r].tried && index[r].refs == 0 && r !in nb[b]
            && Inv(index[k := index[k].(tried := true)][r := index[r].(tried := false, refs := 1)],
                   nb[b := nb[b] + {r}], tb[t := tb[t][e := k]], nNew, nTried, None)
  {
    var r, l := tb[t][e], tb[t][e := k];
    PlacesZero(tb, k);
    PlacesZero(tb, r);
    assert r != k;
    assert Placed(index, nb, tb, r, None);
    RefsZero(nb, r);
    var index' := index[k := index[k].(tried := true)][r := index[r].(tried := false, refs := 1)];
    Swapped(index, k, r);
    LengthsUpdate(tb, t, l);
    Replaced(tb[t], e, k);
    var nb', tb' := nb[b := nb[b] + {r}], tb[t := l];
    hide Sum, InNew, InTried, Refs, Places, Lengths, Untried, Tried;
    forall q
      ensures Placed(index', nb', tb', q, None)
    {
      PlacesUpdate(tb, t, l, q);
      RefsUpdate(nb, b, nb[b] + {r}, q);
      if q != k {
        assert Placed(index, nb, tb, q, None);
      }
    }
  }

  lemma Swapped(index: Index, k: Key, r: Key)
    requires k in index && r in index && k != r && !index[k].tried && index[r].tried
    ensures var index' := index[k := index[k].(tried := true)][r := index[r].(tried := false, refs := 1)];
            |Untried(index')| == |Untried(index)| && |Tried(index')| == |Tried(index)|
  {
    var index' := index[k := index[k].(tried := true)][r := index[r].(tried := false, refs := 1)];
    assert Untried(index') == Untried(index) - {k} + {r};
    assert Tried(index') == Tried(index) - {r} + {k};
    Exchanged(Untried(index), k, r);
    Exchanged(Tried(index), r, k);
  }

  lemma Exchanged(s: set<Key>, k: Key, r: Key)
    requires k in s && r !in s
    ensures |s - {k} + {r}| == |s|
  {
  }

  // ------------------------------------------------------------------ the manager

  /** The entries of a bucket that are not bad, and one of them that is not younger than any other. */
  function Fine(s: set<Key>, bad: Key -> bool): set<Key> { set k | k in s && !bad(k) }

  ghost predicate Oldest(index: Index, s: set<Key>, o: Key) {
    o in s && o in index && forall q :: q in s && q in index ==> index[o].time <= index[q].time
  }

  /** What expireNew leaves of a bucket: the entries that are not bad, but for an oldest of them. */
  ghost predicate Expired(index: Index, before: set<Key>, bad: Key -> bool, after: set<Key>) {
    var fine := Fine(before, bad);
    if fine == {} then after == {} else exists o :: Oldest(index, fine, o) && after == fine - {o}
  }

  /** Only an over-full bucket expires before another entry. */
  ghost predicate Relieved(index: Index, before: set<Key>, bad: Key -> bool, after: set<Key>) {
    if |before| > 64 then Expired(index, before, bad, after) else after == before
  }

  /** Renewing the record of an address elsewhere changes nothing for the bucket. */
  lemma RelievedAlso(index: Index, k: Key, ka: KnownAddress, before: set<Key>, bad: Key -> bool, after: set<Key>)
    requires Relieved(index[k := ka], before, bad, after) && k !in before
    ensures Relieved(index, before, bad, after)
  {
    var fine := Fine(before, bad);
    if |before| > 64 && fine != {} {
      var o :| Oldest(index[k := ka], fine, o) && after == fine - {o};
      assert Oldest(index, fine, o);
    }
  }

  lemma KeptElsewhere(index: Index, k: Key, ka: KnownAddress, after: Index)
    requires OnlyRefs(index[k := ka], after)
    ensures forall q :: q != k && q in after ==> q in index && after[q] == index[q].(refs := after[q].refs)
  {
  }

  /** Entries may be dropped and references counted anew; nothing else recorded changes. */
  ghost predicate OnlyRefs(before: Index, after: Index) {
    forall k :: k in after ==> k in before && after[k] == before[k].(refs := after[k].refs)
  }

  /** A newer time, or a service not known yet, replaces the time and adds the services. */
  function Noted(ka: KnownAddress, time: int, services: set<int>): KnownAddress {
    if time > ka.time || !(services <= ka.services) then ka.(time := time, services := ka.services + services) else ka
  }

  /** What a manager holds. */
  datatype Book = Book(index: Index, nb: NewBuckets, tb: TriedBuckets)

  /**
   An address is reported: a routable one is noted, and enters the bucket when it is not known, or when it
   is known, not tried, in fewer than eight buckets and lucky. Every other record keeps all but its count.
   */
  ghost predicate Updated(s: Book, s': Book, k: Key, src: Key, time: int, services: set<int>, routable: bool,
                          lucky: bool, bucket: int, bad: Key -> bool) {
    && s'.tb == s.tb && 0 <= bucket < |s.nb| == |s'.nb|
    && if !routable then s' == s
       else
         var known := k in s.index;
         var enters := k !in s.nb[bucket] &&
           (!known || (lucky && !s.index[k].tried && s.index[k].refs < 8));
         && s'.nb == s.nb[bucket := s'.nb[bucket]] && k in s'.index
         && (if enters then k in s'.nb[bucket] && Relieved(s.index, s.nb[bucket], bad, s'.nb[bucket] - {k})
             else s'.nb == s.nb)
         && s'.index[k] == (if known then
                              Noted(s.index[k], time, services).(refs := s.index[k].refs + if enters then 1 else 0)
                            else KnownAddress(1, false, time, services, src, 0, 0, 0))
         && forall q :: q != k && q in s'.index ==> q in s.index && s'.index[q] == s.index[q].(refs := s'.index[q].refs)
  }

  ghost predicate Without(nb: NewBuckets, nb': NewBuckets, k: Key) {
    |nb'| == |nb| && forall b :: 0 <= b < |nb| ==> nb'[b] == nb[b] - {k}
  }

  ghost predicate FirstWith(nb: NewBuckets, k: Key, first: int) {
    0 <= first < |nb| && k in nb[first] && forall b :: 0 <= b < first ==> k !in nb[b]
  }

  /** Entry e is the first of the oldest. */
  ghost predicate FirstOldest(index: Index, l: seq<Key>, e: int) {
    && 0 <= e < |l| && (forall i :: 0 <= i < |l| ==> l[i] in index)
    && (forall i :: 0 <= i < |l| ==> index[l[e]].time <= index[l[i]].time)
    && forall i :: 0 <= i < e ==> index[l[e]].time < index[l[i]].time
  }

  /** The last part of Good: an oldest tried entry gives k its place and goes to a new bucket. */
  ghost predicate Evicted(s: Book, s': Book, k: Key, t: int, newBucketOf: Key -> int, oldBucket: int, e: int) {
    && k in s.index && 0 <= t < |s.tb| && FirstOldest(s.index, s.tb[t], e) && 0 <= oldBucket < |s.nb|
    && var r := s.tb[t][e];
       && r != k && 0 <= newBucketOf(r) < |s.nb|
       && var b := if |s.nb[newBucketOf(r)]| >= 64 then oldBucket else newBucketOf(r);
          && s'.nb == s.nb[b := s.nb[b] + {r}] && s'.tb == s.tb[t := s.tb[t][e := k]]
          && s'.index == s.index[k := s.index[k].(tried := true)][r := s.index[r].(tried := false, refs := 1)]
  }

  /** The oldest tried entry makes way, to its own new bucket or, when that is full, to the first one k has left. */
  ghost predicate Replaces(s: Book, s': Book, k: Key, ka: KnownAddress, t: int, newBucketOf: Key -> int, first: int,
                           e: int) {
    && 0 <= t < |s.tb| && FirstWith(s.nb, k, first) && FirstOldest(s.index, s.tb[t], e)
    && var r := s.tb[t][e];
       var home := newBucketOf(r);
       && 0 <= home < |s.nb| == |s'.nb|
       && var b := if |s.nb[home] - {k}| >= 64 then first else home;
          && (forall c :: 0 <= c < |s.nb| ==> s'.nb[c] == s.nb[c] - {k} + if c == b then {r} else {})
          && s'.tb == s.tb[t := s.tb[t][e := k]]
          && s'.index == s.index[k := ka.(refs := 0, tried := true)][r := s.index[r].(tried := false, refs := 1)]
  }

  /** An address has answered. */
  ghost predicate Promoted(s: Book, s': Book, k: Key, now: int, t: int, newBucketOf: Key -> int) {
    if k !in s.index then s' == s
    else
      var ka := s.index[k].(attempts := 0, lastAttempt := now, lastSuccess := now);
      if ka.tried then s' == s.(index := s.index[k := ka])
      else
        && 0 <= t < |s.tb|
        && if |s.tb[t]| < 256 then
             && s'.tb == s.tb[t := s.tb[t] + [k]] && Without(s.nb, s'.nb, k)
             && s'.index == s.index[k := ka.(refs := 0, tried := true)]
           else exists first, e :: Replaces(s, s', k, ka, t, newBucketOf, first, e)
  }

  class AddrManager {
    var addrIndex: Index
    var addrNew: NewBuckets
    var addrTried: TriedBuckets
    var nNew: int
    var nTried: int

    ghost predicate Valid()
      reads this
    {
      Inv(addrIndex, addrNew, addrTried, nNew, nTried, None)
    }

    ghost function Now(): Book
      reads this
    {
      Book(addrIndex, addrNew, addrTried)
    }

    /** A fresh manager. */
    constructor ()
      ensures Valid() && addrIndex == map[]
      ensures forall b :: 0 <= b < |addrNew| ==> addrNew[b] == {}
      ensures forall b :: 0 <= b < |addrTried| ==> addrTried[b] == []
    {
      addrIndex, nNew, nTried := map[], 0, 0;
      addrNew := seq(NEW_BUCKET_COUNT, _ => {});
      addrTried := seq(TRIED_BUCKET_COUNT, _ => []);
      new;
      Empty(addrNew, addrTried);
    }

    /** One address leaves a new bucket. */
    method DropFrom(bucket: int, k: Key, ghost p: Option<Key>)
      requires Inv(addrIndex, addrNew, addrTried, nNew, nTried, p)
      requires 0 <= bucket < |addrNew| && k in addrNew[bucket]
      modifies this`addrIndex, this`addrNew, this`nNew
      ensures Inv(addrIndex, addrNew, addrTried, nNew, nTried, p)
      ensures addrNew == old(addrNew)[bucket := old(addrNew)[bucket] - {k}]
      ensures SameBut(old(addrIndex), addrIndex, k) && OnlyRefs(old(addrIndex), addrIndex) && p != Some(k)
    {
      Drop(addrIndex, addrNew, addrTried, nNew, nTried, p, k, bucket);
      addrNew := addrNew[bucket := addrNew[bucket] - {k}];
      addrIndex := addrIndex[k := addrIndex[k].(refs := addrIndex[k].refs - 1)];
      if addrIndex[k].refs == 0 {
        nNew := nNew - 1;
        addrIndex := addrIndex - {k};
        assert addrIndex == old(addrIndex) - {k};
      }
    }

    /** expireNew: all bad entries go, and the oldest of the others. */
    method ExpireNew(bucket: int, bad: Key -> bool, ghost p: Option<Key>)
      requires Inv(addrIndex, addrNew, addrTried, nNew, nTried, p) && 0 <= bucket < |addrNew|
      modifies this`addrIndex, this`addrNew, this`nNew
      ensures Inv(addrIndex, addrNew, addrTried, nNew, nTried, p)
      ensures |addrNew| == |old(addrNew)| && addrNew == old(addrNew)[bucket := addrNew[bucket]]
      ensures forall k :: k !in old(addrNew)[bucket] ==> SameAt(old(addrIndex), addrIndex, k)
      ensures OnlyRefs(old(addrIndex), addrIndex) && Expired(old(addrIndex), old(addrNew)[bucket], bad, addrNew[bucket])
    {
      hide *;
      var oldest: Option<Key> := None;
      var left := addrNew[bucket];
      ghost var nb, index := addrNew, addrIndex;
      ExpiryStarts(index, nb, bucket, bad);
      while left != {}
        invariant Inv(addrIndex, addrNew, addrTried, nNew, nTried, p)
        invariant Expiring(index, nb, bucket, bad, addrIndex, addrNew, left, oldest)
        decreases |left|
      {
        var k :| k in left;
        oldest := ExpireOne(bucket, bad, k, left, oldest, p, index, nb);
        left := left - {k};
      }
      ExpiryEnds(index, nb, bucket, bad, addrIndex, addrNew, oldest);
      if oldest.Some? {
        ghost var now := addrIndex;
        DropFrom(bucket, oldest.value, p);
        StillSame(index, now, addrIndex, nb[bucket], oldest.value);
      }
      Expiry(index, nb[bucket], bad, oldest, addrNew[bucket]);
    }

    /** A full bucket is relieved of an entry. */
    method MakeRoom(k: Key, bucket: int, bad: Key -> bool, ghost p: Option<Key>)
      requires Inv(addrIndex, addrNew, addrTried, nNew, nTried, p) && 0 <= bucket < |addrNew| && k !in addrNew[bucket]
      modifies this`addrIndex, this`addrNew, this`nNew
      ensures Inv(addrIndex, addrNew, addrTried, nNew, nTried, p) && SameAt(old(addrIndex), addrIndex, k)
      ensures |addrNew| == |old(addrNew)| && addrNew == old(addrNew)[bucket := addrNew[bucket]]
      ensures |addrNew[bucket]| <= NEW_BUCKET_SIZE && k !in addrNew[bucket]
      ensures OnlyRefs(old(addrIndex), addrIndex)
      ensures Relieved(old(addrIndex), old(addrNew)[bucket], bad, addrNew[bucket])
    {
      hide Inv, Oldest, Expired, Refs, Shape, Untried, Tried, Placed;
      BucketSizes(addrIndex, addrNew, addrTried, nNew, nTried, p, bucket);
      if |addrNew[bucket]| > NEW_BUCKET_SIZE {
        ghost var s := addrNew[bucket];
        ExpireNew(bucket, bad, p);
        Smaller(old(addrIndex), s, addrNew[bucket], bad);
      }
    }

    /** The second half of updateAddress: an address that is not tried enters a new bucket it is not in yet. */
    method AddToNew(k: Key, bucket: int, bad: Key -> bool, ghost p: Option<Key>)
      requires Inv(addrIndex, addrNew, addrTried, nNew, nTried, p) && (p.None? || p == Some(k))
      requires k in addrIndex && !addrIndex[k].tried && addrIndex[k].refs < NEW_BUCKETS_PER_ADDRESS
      requires 0 <= bucket < |addrNew|
      modifies this`addrIndex, this`addrNew, this`nNew
      ensures Valid() && |addrNew| == |old(addrNew)| && k in addrNew[bucket] && k in addrIndex
      ensures addrIndex[k] == old(addrIndex[k]).(refs := addrIndex[k].refs)
      ensures addrIndex[k].refs == old(addrIndex[k].refs) + if k in old(addrNew[bucket]) then 0 else 1
      ensures addrNew == old(addrNew)[bucket := addrNew[bucket]] && OnlyRefs(old(addrIndex), addrIndex)
      ensures if k in old(addrNew[bucket]) then addrNew == old(addrNew)
              else Relieved(old(addrIndex), old(addrNew[bucket]), bad, addrNew[bucket] - {k})
    {
      hide Inv, Refs, Shape, Untried, Tried, Placed, Relieved;
      if k in addrNew[bucket] {
        Drop(addrIndex, addrNew, addrTried, nNew, nTried, p, k, bucket);
        return;
      }
      MakeRoom(k, bucket, bad, p);
      Refer(addrIndex, addrNew, addrTried, nNew, nTried, p, k, bucket);
      addrIndex := addrIndex[k := addrIndex[k].(refs := addrIndex[k].refs + 1)];
      assert addrNew[bucket] + {k} - {k} == addrNew[bucket];
      addrNew := addrNew[bucket := addrNew[bucket] + {k}];
    }

    /**
     updateAddress. routable and lucky stand for the filter and the random draw, which is never from an
     empty range; bucket is where the hash of the address and its source points.
     */
    method UpdateAddress(k: Key, src: Key, time: int, services: set<int>, routable: bool, lucky: bool, bucket: int,
                         bad: Key -> bool)
      requires Valid() && 0 <= bucket < NEW_BUCKET_COUNT
      modifies this`addrIndex, this`addrNew, this`nNew
      ensures Valid() && |addrNew| == NEW_BUCKET_COUNT
      ensures Updated(old(Now()), Now(), k, src, time, services, routable, lucky, bucket, bad)
    {
      hide Inv, Relieved, OnlyRefs;
      KeySizes(addrIndex, addrNew, addrTried, nNew, nTried, k);
      if !routable {
        return;
      }
      if k in addrIndex {
        var ka := addrIndex[k];
        if time > ka.time || ka.services * services != services {
          ka := ka.(time := time, services := ka.services + services);
          Annotate(addrIndex, addrNew, addrTried, nNew, nTried, k, ka);
          addrIndex := addrIndex[k := ka];
        }
        assert addrIndex == old(addrIndex)[k := ka];
        if ka.tried {
          return;
        }
        if ka.refs == NEW_BUCKETS_PER_ADDRESS {
          return;
        }
        assert 2 * ka.refs > 0;
        if !lucky {
          return;
        }
        AddToNew(k, bucket, bad, None);
        KeptElsewhere(old(addrIndex), k, ka, addrIndex);
        if k !in old(addrNew[bucket]) {
          RelievedAlso(old(addrIndex), k, ka, old(addrNew[bucket]), bad, addrNew[bucket] - {k});
        }
      } else {
        var ka := KnownAddress(0, false, time, services, src, 0, 0, 0);
        Enter(addrIndex, addrNew, addrTried, nNew, nTried, k, ka);
        NotIn(addrIndex, addrNew, addrTried, nNew, nTried, k, bucket);
        addrIndex := addrIndex[k := ka];
        nNew := nNew + 1;
        AddToNew(k, bucket, bad, Some(k));
        KeptElsewhere(old(addrIndex), k, ka, addrIndex);
        RelievedAlso(old(addrIndex), k, ka, old(addrNew[bucket]), bad, addrNew[bucket] - {k});
      }
    }

    /** Attempt, Connected and SetServices change what is recorded of a known address, never its place. */
    method Attempt(k: Key, now: int)
      requires Valid()
      modifies this`addrIndex
      ensures Valid()
      ensures addrIndex ==
              if k !in old(addrIndex) then old(addrIndex)
              else old(addrIndex[k := addrIndex[k].(attempts := addrIndex[k].attempts + 1, lastAttempt := now)])
    {
      hide Inv;
      if k in addrIndex {
        var ka := addrIndex[k].(attempts := addrIndex[k].attempts + 1, lastAttempt := now);
        Annotate(addrIndex, addrNew, addrTried, nNew, nTried, k, ka);
        addrIndex := addrIndex[k := ka];
      }
    }

    method Connected(k: Key, now: int)
      requires Valid()
      modifies this`addrIndex
      ensures Valid()
      ensures addrIndex ==
              if k in old(addrIndex) && now > old(addrIndex[k]).time + 1200
              then old(addrIndex[k := addrIndex[k].(time := now)])
              else old(addrIndex)
    {
      hide Inv;
      if k in addrIndex && now > addrIndex[k].time + 20 * 60 {
        var ka := addrIndex[k].(time := now);
        Annotate(addrIndex, addrNew, addrTried, nNew, nTried, k, ka);
        addrIndex := addrIndex[k := ka];
      }
    }

    method SetServices(k: Key, services: set<int>)
      requires Valid()
      modifies this`addrIndex
      ensures Valid()
      ensures addrIndex ==
              if k in old(addrIndex) then old(addrIndex[k := addrIndex[k].(services := services)]) else old(addrIndex)
    {
      hide Inv;
      assert k in addrIndex ==> addrIndex[k := addrIndex[k].(services := addrIndex[k].services)] == addrIndex;
      if k in addrIndex && addrIndex[k].services != services {
        var ka := addrIndex[k].(services := services);
        Annotate(addrIndex, addrNew, addrTried, nNew, nTried, k, ka);
        addrIndex := addrIndex[k := ka];
      }
    }

    /** pickTried: the first of the oldest entries of a tried bucket. */
    method PickTried(bucket: int) returns (e: int)
      requires 0 <= bucket < |addrTried| && addrTried[bucket] != []
      requires forall i :: 0 <= i < |addrTried[bucket]| ==> addrTried[bucket][i] in addrIndex
      ensures FirstOldest(addrIndex, addrTried[bucket], e)
    {
      var l := addrTried[bucket];
      e := 0;
      for i := 1 to |l|
        invariant 0 <= e < i && forall j :: 0 <= j < i ==> addrIndex[l[e]].time <= addrIndex[l[j]].time
        invariant forall j :: 0 <= j < e ==> addrIndex[l[e]].time < addrIndex[l[j]].time
      {
        if addrIndex[l[e]].time > addrIndex[l[i]].time {
          e := i;
        }
      }
    }

    /** The loop of Good that takes an address out of all its new buckets; first is the first of them. */
    method LeaveAll(k: Key) returns (first: int)
      requires Valid() && k in addrIndex && !addrIndex[k].tried
      modifies this`addrIndex, this`addrNew
      ensures Leaving(addrIndex, addrNew, addrTried, nNew, nTried, k) && Refs(addrNew, k) == 0
      ensures FirstWith(old(addrNew), k, first) && Without(old(addrNew), addrNew, k)
      ensures 0 <= first < |addrNew| && |addrNew[first]| <= NEW_BUCKET_SIZE
      ensures addrIndex == old(addrIndex)[k := old(addrIndex[k]).(refs := 0)]
    {
      hide *;
      Unfold();
      StartLeaving(addrIndex, addrNew, addrTried, nNew, nTried, k);
      LeftNone(addrNew, k);
      ghost var nb, index := addrNew, addrIndex;
      SameRefs(index, k, index[k].refs);
      first := -1;
      for i := 0 to |addrNew|
        invariant |addrNew| == |nb| && Leaving(addrIndex, addrNew, addrTried, nNew, nTried, k)
        invariant LeftUpTo(nb, addrNew, k, i, first)
        invariant k in addrIndex && addrIndex == index[k := index[k].(refs := addrIndex[k].refs)]
      {
        LeftOne(nb, addrNew, k, i, first);
        if k in addrNew[i] {
          LeaveBucket(addrIndex, addrNew, addrTried, nNew, nTried, k, i);
          addrNew := addrNew[i := addrNew[i] - {k}];
          SameRefs(index, k, addrIndex[k].refs);
          addrIndex := addrIndex[k := addrIndex[k].(refs := addrIndex[k].refs - 1)];
          if first == -1 {
            first := i;
          }
        }
      }
      LeftAll(index, nb, addrIndex, addrNew, addrTried, nNew, nTried, k, first);
    }

    /**
     Good: the address becomes tried. When its tried bucket is full it takes the place of the oldest entry
     there, which returns to a new bucket with room.
     */
    method Good(k: Key, now: int, triedBucket: int, newBucketOf: Key -> int)
      requires Valid() && 0 <= triedBucket < TRIED_BUCKET_COUNT
      requires forall q :: 0 <= newBucketOf(q) < NEW_BUCKET_COUNT
      modifies this
      ensures Valid()
      ensures Promoted(old(Now()), Now(), k, now, triedBucket, newBucketOf)
    {
      hide *;
      ghost var s := Now();
      NowIs();
      if k !in addrIndex {
        UnknownStays(s, k, now, triedBucket, newBucketOf);
        return;
      }
      Unfold();
      KeySizes(addrIndex, addrNew, addrTried, nNew, nTried, k);
      var ka := addrIndex[k].(lastSuccess := now, lastAttempt := now, attempts := 0);
      Annotate(addrIndex, addrNew, addrTried, nNew, nTried, k, ka);
      addrIndex := addrIndex[k := ka];
      Fold();
      NowIs();
      if ka.tried {
        TriedStays(s, k, now, triedBucket, newBucketOf);
        return;
      }
      var oldBucket := LeaveAll(k);
      LeavingShape(addrIndex, addrNew, addrTried, nNew, nTried, k);
      if |addrTried[triedBucket]| < TRIED_BUCKET_SIZE {
        ToTried(addrIndex, addrNew, addrTried, nNew, nTried, k, triedBucket);
        nNew := nNew - 1;
        addrIndex := addrIndex[k := addrIndex[k].(tried := true)];
        addrTried := addrTried[triedBucket := addrTried[triedBucket] + [k]];
        nTried := nTried + 1;
        Fold();
        NowIs();
        RoomFound(s, Now(), k, now, triedBucket, newBucketOf);
        return;
      }
      NowIs();
      ghost var m := Now();
      ghost var e := Evict(k, triedBucket, oldBucket, newBucketOf);
      OneReplaced(s, m, Now(), k, now, triedBucket, newBucketOf, oldBucket, e);
    }

    lemma NowIs()
      ensures Now() == Book(addrIndex, addrNew, addrTried)
    {
    }

    lemma Unfold()
      requires Valid()
      ensures Inv(addrIndex, addrNew, addrTried, nNew, nTried, None)
    {
    }

    lemma Fold()
      requires Inv(addrIndex, addrNew, addrTried, nNew, nTried, None)
      ensures Valid()
    {
    }

    /** The last part of Good, for a full tried bucket. */
    method Evict(k: Key, triedBucket: int, oldBucket: int, newBucketOf: Key -> int) returns (ghost e: int)
      requires Leaving(addrIndex, addrNew, addrTried, nNew, nTried, k) && Refs(addrNew, k) == 0
      requires 0 <= triedBucket < |addrTried| && |addrTried[triedBucket]| == TRIED_BUCKET_SIZE
      requires 0 <= oldBucket < |addrNew| && |addrNew[oldBucket]| <= NEW_BUCKET_SIZE
      requires forall q :: 0 <= newBucketOf(q) < |addrNew|
      modifies this`addrIndex, this`addrNew, this`addrTried
      ensures Valid() && Evicted(old(Now()), Now(), k, triedBucket, newBucketOf, oldBucket, e)
    {
      hide Inv, Refs, Leaving;
      LeavingShape(addrIndex, addrNew, addrTried, nNew, nTried, k);
      TriedKnown(addrIndex, addrNew, addrTried, nNew, nTried, k, triedBucket);
      var at := PickTried(triedBucket);
      e := at;
      var rm := addrTried[triedBucket][at];
      var newBucket := newBucketOf(rm);
      if |addrNew[newBucket]| >= NEW_BUCKET_SIZE {
        newBucket := oldBucket;
      }
      Exchange(addrIndex, addrNew, addrTried, nNew, nTried, k, triedBucket, at, newBucket);
      addrIndex := addrIndex[k := addrIndex[k].(tried := true)];
      addrTried := addrTried[triedBucket := addrTried[triedBucket][at := k]];
      addrIndex := addrIndex[rm := addrIndex[rm].(tried := false, refs := addrIndex[rm].refs + 1)];
      addrNew := addrNew[newBucket := addrNew[newBucket] + {rm}];
    }

    /** One round of expireNew. */
    method ExpireOne(bucket: int, bad: Key -> bool, k: Key, left: set<Key>, oldest0: Option<Key>, ghost p: Option<Key>,
                     ghost index: Index, ghost nb: NewBuckets) returns (oldest: Option<Key>)
      requires Inv(addrIndex, addrNew, addrTried, nNew, nTried, p) && k in left
      requires Expiring(index, nb, bucket, bad, addrIndex, addrNew, left, oldest0)
      modifies this`addrIndex, this`addrNew, this`nNew
      ensures Inv(addrIndex, addrNew, addrTried, nNew, nTried, p)
      ensures Expiring(index, nb, bucket, bad, addrIndex, addrNew, left - {k}, oldest)
    {
      hide *;
      oldest := oldest0;
      ExpiryAt(index, nb, bucket, bad, addrIndex, addrNew, left, oldest, k);
      Present(addrIndex, addrNew, addrTried, nNew, nTried, p, k, bucket);
      ghost var now, nb1 := addrIndex, addrNew;
      if bad(k) {
        DropFrom(bucket, k, p);
        BadExpired(index, nb, bucket, bad, now, nb1, addrIndex, left, oldest, k);
        return;
      }
      if oldest.None? {
        oldest := Some(k);
      } else {
        Present(addrIndex, addrNew, addrTried, nNew, nTried, p, oldest.value, bucket);
        if addrIndex[k].time <= addrIndex[oldest.value].time {
          oldest := Some(k);
        }
      }
      FineKept(index, nb, bucket, bad, addrIndex, addrNew, left, oldest0, oldest, k);
    }
  }

  lemma ExpiryAt(index: Index, nb: NewBuckets, bucket: int, bad: Key -> bool, now: Index, nb': NewBuckets,
                 left: set<Key>, oldest: Option<Key>, k: Key)
    requires Expiring(index, nb, bucket, bad, now, nb', left, oldest) && k in left
    ensures 0 <= bucket < |nb'| && k in nb'[bucket] && (oldest.Some? ==> oldest.value in nb'[bucket])
  {
  }

  lemma BadExpired(index: Index, nb: NewBuckets, bucket: int, bad: Key -> bool, now: Index, nb': NewBuckets,
                   after: Index, left: set<Key>, oldest: Option<Key>, k: Key)
    requires Expiring(index, nb, bucket, bad, now, nb', left, oldest) && k in left && bad(k)
    requires SameBut(now, after, k) && OnlyRefs(now, after)
    ensures Expiring(index, nb, bucket, bad, after, nb'[bucket := nb'[bucket] - {k}], left - {k}, oldest)
  {
    FineGrows(nb[bucket], left, k, bad);
    RefsChain(index, now, after);
    var fine := Fine(nb[bucket] - left, bad);
    assert k !in fine && (left + fine) - {k} == (left - {k}) + fine;
    forall q | q !in nb[bucket] || q in nb'[bucket] - {k}
      ensures SameAt(index, after, q)
    {
      assert SameAt(index, now, q) && SameAt(now, after, q);
    }
  }

  lemma FineKept(index: Index, nb: NewBuckets, bucket: int, bad: Key -> bool, now: Index, nb': NewBuckets,
                 left: set<Key>, oldest: Option<Key>, oldest': Option<Key>, k: Key)
    requires Expiring(index, nb, bucket, bad, now, nb', left, oldest) && k in left && !bad(k) && k in now
    requires oldest.Some? ==> oldest.value in now
    requires oldest' == if oldest.None? || now[k].time <= now[oldest.value].time then Some(k) else oldest
    ensures Expiring(index, nb, bucket, bad, now, nb', left - {k}, oldest')
  {
    FineGrows(nb[bucket], left, k, bad);
    assert k in nb'[bucket] && SameAt(index, now, k);
    if oldest.Some? {
      assert oldest.value in nb'[bucket] && SameAt(index, now, oldest.value);
    }
  }

  /** The state of expireNew: left are the entries of the bucket it has not looked at. */
  ghost predicate Expiring(index: Index, nb: NewBuckets, bucket: int, bad: Key -> bool,
                           now: Index, nb': NewBuckets, left: set<Key>, oldest: Option<Key>) {
    && 0 <= bucket < |nb| && |nb'| == |nb| && nb' == nb[bucket := nb'[bucket]] && left <= nb[bucket]
    && nb'[bucket] == left + Fine(nb[bucket] - left, bad)
    && (forall k :: k !in nb[bucket] || k in nb'[bucket] ==> SameAt(index, now, k)) && OnlyRefs(index, now)
    && match oldest
       case None => Fine(nb[bucket] - left, bad) == {}
       case Some(o) => Oldest(index, Fine(nb[bucket] - left, bad), o)
  }

  lemma FineGrows(s: set<Key>, left: set<Key>, k: Key, bad: Key -> bool)
    requires k in left && left <= s
    ensures Fine(s - (left - {k}), bad) == Fine(s - left, bad) + if bad(k) then {} else {k}
  {
  }

  lemma ExpiryStarts(index: Index, nb: NewBuckets, bucket: int, bad: Key -> bool)
    requires 0 <= bucket < |nb|
    ensures Expiring(index, nb, bucket, bad, index, nb, nb[bucket], None)
  {
    assert Fine(nb[bucket] - nb[bucket], bad) == {};
  }

  lemma ExpiryEnds(index: Index, nb: NewBuckets, bucket: int, bad: Key -> bool, now: Index, nb': NewBuckets,
                   oldest: Option<Key>)
    requires Expiring(index, nb, bucket, bad, now, nb', {}, oldest)
    ensures |nb'| == |nb| && nb' == nb[bucket := nb'[bucket]] && nb'[bucket] == Fine(nb[bucket], bad)
    ensures nb'[bucket] <= nb[bucket] && forall k :: k !in nb[bucket] ==> SameAt(index, now, k)
    ensures oldest.None? <==> Fine(nb[bucket], bad) == {}
    ensures oldest.Some? ==> oldest.value in nb'[bucket] && Oldest(index, Fine(nb[bucket], bad), oldest.value)
    ensures OnlyRefs(index, now)
  {
    assert Fine(nb[bucket] - {}, bad) == Fine(nb[bucket], bad);
    assert nb'[bucket] == Fine(nb[bucket], bad);
  }

  lemma StillSame(index: Index, now: Index, after: Index, s: set<Key>, o: Key)
    requires (forall k :: k !in s ==> SameAt(index, now, k)) && SameBut(now, after, o) && o in s
    requires OnlyRefs(index, now) && OnlyRefs(now, after)
    ensures (forall k :: k !in s ==> SameAt(index, after, k)) && OnlyRefs(index, after)
  {
    RefsChain(index, now, after);
    forall k | k !in s
      ensures SameAt(index, after, k)
    {
      assert SameAt(index, now, k) && SameAt(now, after, k);
    }
  }

  ghost predicate SameAt(a: Index, b: Index, k: Key) {
    (k in a <==> k in b) && (k in a && k in b ==> a[k] == b[k])
  }

  ghost predicate SameBut(a: Index, b: Index, k: Key) {
    forall q :: q != k ==> SameAt(a, b, q)
  }

  lemma RefsChain(a: Index, b: Index, c: Index)
    requires OnlyRefs(a, b) && OnlyRefs(b, c)
    ensures OnlyRefs(a, c)
  {
  }

  lemma Expiry(index: Index, s: set<Key>, bad: Key -> bool, oldest: Option<Key>, after: set<Key>)
    requires oldest.None? <==> Fine(s, bad) == {}
    requires oldest.None? ==> after == Fine(s, bad)
    requires oldest.Some? ==> Oldest(index, Fine(s, bad), oldest.value) && after == Fine(s, bad) - {oldest.value}
    ensures Expired(index, s, bad, after)
  {
  }

  lemma Empty(nb: NewBuckets, tb: TriedBuckets)
    requires |nb| == NEW_BUCKET_COUNT && |tb| == TRIED_BUCKET_COUNT
    requires (forall b :: 0 <= b < |nb| ==> nb[b] == {}) && (forall b :: 0 <= b < |tb| ==> tb[b] == [])
    ensures Inv(map[], nb, tb, 0, 0, None)
  {
    forall k
      ensures Placed(map[], nb, tb, k, None)
    {
      RefsZero(nb, k);
      PlacesZero(tb, k);
    }
    SumZero(Lengths(tb));
  }

  lemma Present(index: Index, nb: NewBuckets, tb: TriedBuckets, nNew: int, nTried: int, p: Option<Key>, k: Key, b: int)
    requires Inv(index, nb, tb, nNew, nTried, p) && 0 <= b < |nb| && k in nb[b]
    ensures k in index && !index[k].tried && index[k].refs >= 1
  {
    RefsZero(nb, k);
    assert Placed(index, nb, tb, k, p);
  }

  lemma BucketSizes(index: Index, nb: NewBuckets, tb: TriedBuckets, nNew: int, nTried: int, p: Option<Key>, b: int)
    requires Inv(index, nb, tb, nNew, nTried, p) && 0 <= b < |nb|
    ensures |nb[b]| <= NEW_BUCKET_SIZE + 1
  {
  }

  lemma KeySizes(index: Index, nb: NewBuckets, tb: TriedBuckets, nNew: int, nTried: int, k: Key)
    requires Inv(index, nb, tb, nNew, nTried, None)
    ensures |nb| == NEW_BUCKET_COUNT && |tb| == TRIED_BUCKET_COUNT
    ensures k in index ==>
      && 0 <= index[k].refs <= NEW_BUCKETS_PER_ADDRESS && (index[k].tried <==> index[k].refs == 0)
  {
    assert Placed(index, nb, tb, k, None);
    RefsZero(nb, k);
  }

  lemma NotIn(index: Index, nb: NewBuckets, tb: TriedBuckets, nNew: int, nTried: int, k: Key, b: int)
    requires Inv(index, nb, tb, nNew, nTried, None) && k !in index && 0 <= b < |nb|
    ensures k !in nb[b]
  {
    assert Placed(index, nb, tb, k, None);
    RefsZero(nb, k);
  }

  lemma Smaller(index: Index, before: set<Key>, after: set<Key>, bad: Key -> bool)
    requires |before| <= NEW_BUCKET_SIZE + 1 && Expired(index, before, bad, after)
    ensures |after| <= NEW_BUCKET_SIZE && after <= before
  {
    var fine := Fine(before, bad);
    Subset(fine, before);
  }

  lemma {:induction false} Subset(a: set<Key>, b: set<Key>)
    requires a <= b
    ensures |a| <= |b|
  {
    if a != {} {
      var x :| x in a;
      Subset(a - {x}, b - {x});
    }
  }

  lemma TriedKnown(index: Index, nb: NewBuckets, tb: TriedBuckets, nNew: int, nTried: int, k: Key, b: int)
    requires Leaving(index, nb, tb, nNew, nTried, k) && 0 <= b < |tb|
    ensures forall i :: 0 <= i < |tb[b]| ==> tb[b][i] in index
  {
    forall i | 0 <= i < |tb[b]|
      ensures tb[b][i] in index
    {
      PlacesZero(tb, tb[b][i]);
      assert Placed(index, nb, tb, tb[b][i], None);
    }
  }

  lemma LeavingShape(index: Index, nb: NewBuckets, tb: TriedBuckets, nNew: int, nTried: int, k: Key)
    requires Leaving(index, nb, tb, nNew, nTried, k)
    ensures |nb| == NEW_BUCKET_COUNT && |tb| == TRIED_BUCKET_COUNT && k in index
    ensures forall b :: 0 <= b < |tb| ==> |tb[b]| <= TRIED_BUCKET_SIZE
  {
  }

  lemma UnknownStays(s: Book, k: Key, now: int, t: int, newBucketOf: Key -> int)
    requires k !in s.index
    ensures Promoted(s, s, k, now, t, newBucketOf)
  {
  }

  lemma TriedStays(s: Book, k: Key, now: int, t: int, newBucketOf: Key -> int)
    requires k in s.index && s.index[k].tried
    ensures var ka := s.index[k].(lastSuccess := now, lastAttempt := now, attempts := 0);
            Promoted(s, s.(index := s.index[k := ka]), k, now, t, newBucketOf)
  {
  }

  lemma RoomFound(s: Book, s': Book, k: Key, now: int, t: int, newBucketOf: Key -> int)
    requires k in s.index && !s.index[k].tried && 0 <= t < |s.tb| && |s.tb[t]| < TRIED_BUCKET_SIZE
    requires s'.tb == s.tb[t := s.tb[t] + [k]] && Without(s.nb, s'.nb, k)
    requires var ka := s.index[k].(lastSuccess := now, lastAttempt := now, attempts := 0);
             s'.index == s.index[k := ka][k := ka.(refs := 0)][k := ka.(refs := 0).(tried := true)]
    ensures Promoted(s, s', k, now, t, newBucketOf)
  {
  }

  lemma OneReplaced(s: Book, m: Book, s': Book, k: Key, now: int, t: int, newBucketOf: Key -> int, first: int, e: int)
    requires k in s.index && !s.index[k].tried && 0 <= t < |s.tb| && |s.tb[t]| >= TRIED_BUCKET_SIZE
    requires FirstWith(s.nb, k, first) && Without(s.nb, m.nb, k) && m.tb == s.tb
    requires var ka := s.index[k].(lastSuccess := now, lastAttempt := now, attempts := 0);
             m.index == s.index[k := ka][k := ka.(refs := 0)]
    requires Evicted(m, s', k, t, newBucketOf, first, e)
    ensures Promoted(s, s', k, now, t, newBucketOf)
  {
    hide Promoted, FirstWith, FirstOldest;
    var ka := s.index[k].(attempts := 0, lastAttempt := now, lastSuccess := now);
    assert ka.tried == s.index[k].tried && m.index == s.index[k := ka.(refs := 0)];
    OldestAlso(s.index, k, ka.(refs := 0), s.tb[t], e);
    assert Replaces(s, s', k, ka, t, newBucketOf, first, e) by {
      var r := s.tb[t][e];
      TwoRecords(s.index, k, ka.(refs := 0), ka.(refs := 0, tried := true), r, s.index[r].(tried := false, refs := 1));
    }
    ReplacedThen(s, s', k, now, t, newBucketOf, first, e);
  }

  lemma ReplacedThen(s: Book, s': Book, k: Key, now: int, t: int, newBucketOf: Key -> int, first: int, e: int)
    requires k in s.index && !s.index[k].tried && 0 <= t < |s.tb| && |s.tb[t]| >= 256
    requires Replaces(s, s', k, s.index[k].(attempts := 0, lastAttempt := now, lastSuccess := now), t, newBucketOf,
                      first, e)
    ensures Promoted(s, s', k, now, t, newBucketOf)
  {
    hide Replaces;
  }

  lemma TwoRecords(index: Index, k: Key, x: KnownAddress, y: KnownAddress, r: Key, z: KnownAddress)
    ensures index[k := x][k := y][r := z] == index[k := y][r := z]
  {
  }

  /** A record renewed without its time, of a known address, leaves the first of the oldest where it was. */
  lemma OldestAlso(index: Index, k: Key, ka: KnownAddress, l: seq<Key>, e: int)
    requires k in index && ka.time == index[k].time && FirstOldest(index[k := ka], l, e)
    ensures FirstOldest(index, l, e)
  {
    var index' := index[k := ka];
    forall i | 0 <= i < |l|
      ensures l[i] in index && index[l[i]].time == index'[l[i]].time
    {
      assert l[i] in index';
    }
  }

  /** The loop of Good over the new buckets: k has left those before i, and first is the first it was in. */
  ghost predicate LeftUpTo(nb: NewBuckets, nb': NewBuckets, k: Key, i: int, first: int) {
    && |nb'| == |nb| && 0 <= i <= |nb| && (forall b :: 0 <= b < i ==> nb'[b] == nb[b] - {k})
    && (forall b :: i <= b < |nb| ==> nb'[b] == nb[b])
    && if first == -1 then forall b :: 0 <= b < i ==> k !in nb[b] else first < i && FirstWith(nb, k, first)
  }

  lemma LeftNone(nb: NewBuckets, k: Key)
    ensures LeftUpTo(nb, nb, k, 0, -1)
  {
  }

  lemma SameRefs(index: Index, k: Key, refs: int)
    requires k in index
    ensures index[k].refs == refs ==> index == index[k := index[k].(refs := refs)]
    ensures var now := index[k := index[k].(refs := refs)];
            now[k := now[k].(refs := refs - 1)] == index[k := index[k].(refs := refs - 1)]
  {
  }

  lemma LeftOne(nb: NewBuckets, nb': NewBuckets, k: Key, i: int, first: int)
    requires LeftUpTo(nb, nb', k, i, first) && i < |nb|
    ensures |nb'| == |nb| && 0 <= i
    ensures if k in nb'[i] then LeftUpTo(nb, nb'[i := nb'[i] - {k}], k, i + 1, if first == -1 then i else first)
            else LeftUpTo(nb, nb', k, i + 1, first)
  {
  }

  lemma LeftAll(index: Index, nb: NewBuckets, index': Index, nb': NewBuckets, tb: TriedBuckets, nNew: int, nTried: int,
                k: Key, first: int)
    requires Inv(index, nb, tb, nNew, nTried, None) && k in index && !index[k].tried
    requires Leaving(index', nb', tb, nNew, nTried, k) && LeftUpTo(nb, nb', k, |nb|, first)
    ensures Refs(nb', k) == 0 && FirstWith(nb, k, first) && Without(nb, nb', k)
    ensures 0 <= first < |nb'| && |nb'[first]| <= NEW_BUCKET_SIZE
    ensures k in index' && index'[k].refs == 0
  {
    assert Placed(index, nb, tb, k, None);
    RefsZero(nb, k);
    RefsZero(nb', k);
    assert first != -1;
    assert nb'[first] == nb[first] - {k};
  }

  // ------------------------------------------------------------------ saving and loading

  /** What the peers file records: the addresses, and for every bucket the keys in it. */
  datatype Saved = Saved(addresses: seq<(Key, KnownAddress)>, newBuckets: seq<seq<Key>>, triedBuckets: seq<seq<Key>>)

  function ToSet(s: seq<Key>): set<Key> { set k | k in s }

  ghost predicate Lists(s: seq<Key>, keys: set<Key>) { NoDup(s) && ToSet(s) == keys }

  /** The records of the file by key; a later one replaces an earlier one. */
  function Recorded(s: seq<(Key, KnownAddress)>): Index {
    if s == [] then map[] else Recorded(s[..|s| - 1])[s[|s| - 1].0 := s[|s| - 1].1]
  }

  /** The file describes a manager: in any order, but nothing twice. */
  ghost predicate Describes(f: Saved, index: Index, nb: NewBuckets, tb: TriedBuckets) {
    && Recorded(f.addresses) == index && f.triedBuckets == tb
    && |f.newBuckets| == |nb| && forall b :: 0 <= b < |nb| ==> Lists(f.newBuckets[b], nb[b])
  }

  /** The keys of a set as a list. */
  method ListOf(keys: set<Key>) returns (s: seq<Key>)
    ensures Lists(s, keys)
  {
    s := [];
    var left := keys;
    while left != {}
      invariant left <= keys && NoDup(s) && ToSet(s) == keys - left
    {
      var k :| k in left;
      assert k !in ToSet(s);
      ToSetGrow(s, k);
      left := left - {k};
      s := s + [k];
    }
  }

  lemma ToSetGrow(s: seq<Key>, k: Key)
    ensures ToSet(s + [k]) == ToSet(s) + {k}
  {
  }

  /** savePeers, up to the encoding of the file. */
  method SavePeers(a: AddrManager) returns (f: Saved)
    requires a.Valid()
    ensures Describes(f, a.addrIndex, a.addrNew, a.addrTried)
  {
    hide Inv, Recorded, Lists;
    var addresses := SaveAddresses(a.addrIndex);
    var buckets: seq<seq<Key>> := [];
    for b := 0 to |a.addrNew|
      invariant |buckets| == b && forall c :: 0 <= c < b ==> Lists(buckets[c], a.addrNew[c])
    {
      var l := ListOf(a.addrNew[b]);
      buckets := buckets + [l];
    }
    f := Saved(addresses, buckets, a.addrTried);
  }

  method SaveAddresses(index: Index) returns (addresses: seq<(Key, KnownAddress)>)
    ensures Recorded(addresses) == index
  {
    addresses := [];
    var left := index.Keys;
    assert Restricted(index, index.Keys - left) == map[];
    while left != {}
      invariant left <= index.Keys && Recorded(addresses) == Restricted(index, index.Keys - left)
    {
      var k :| k in left;
      var one := (k, index[k]);
      assert (addresses + [one])[..|addresses|] == addresses;
      assert Restricted(index, index.Keys - (left - {k})) == Restricted(index, index.Keys - left)[k := index[k]];
      addresses := addresses + [one];
      left := left - {k};
    }
    assert Restricted(index, index.Keys - left) == index;
  }

  function Restricted(index: Index, keys: set<Key>): Index { map k | k in index && k in keys :: index[k] }

  function Referenced(index: Index): set<Key> { set k | k in index && index[k].refs > 0 }

  /**
   While the buckets are being read, as far as the lists go: references count the entries in new buckets,
   and an address is tried once it is in a tried one. The time of an address is that of the reading.
   */
  ghost predicate Reading(index: Index, records: Index, now: int, lists: seq<seq<Key>>, tb: TriedBuckets, nNew: int,
          nTried: int) {
    && index.Keys == records.Keys
    && (forall k :: ReadingAt(index, records, now, lists, tb, k))
    && nNew == |Referenced(index)| && nTried == Sum(Lengths(tb))
  }

  ghost predicate ReadingAt(index: Index, records: Index, now: int, lists: seq<seq<Key>>, tb: TriedBuckets, k: Key) {
    if k in index && k in records
    then index[k] == records[k].(refs := Places(lists, k), tried := Places(tb, k) > 0, time := now)
    else Places(lists, k) == 0 && Places(tb, k) == 0
  }

  lemma PlacesGrow(lists: seq<seq<Key>>, b: int, k: Key, q: Key)
    requires 0 <= b < |lists|
    ensures Places(lists[b := lists[b] + [k]], q) == Places(lists, q) + if q == k then 1 else 0
  {
    PlacesUpdate(lists, b, lists[b] + [k], q);
    assert multiset(lists[b] + [k]) == multiset(lists[b]) + multiset{k};
  }

  lemma ReadNew(index: Index, records: Index, now: int, lists: seq<seq<Key>>, tb: TriedBuckets, nNew: int,
          nTried: int, b: int, k: Key)
    requires Reading(index, records, now, lists, tb, nNew, nTried) && 0 <= b < |lists| && k in index
    ensures Reading(index[k := index[k].(refs := index[k].refs + 1)], records, now, lists[b := lists[b] + [k]], tb,
                    if index[k].refs == 0 then nNew + 1 else nNew, nTried)
  {
    var index', lists' := index[k := index[k].(refs := index[k].refs + 1)], lists[b := lists[b] + [k]];
    PlacesZero(lists, k);
    assert ReadingAt(index, records, now, lists, tb, k);
    if index[k].refs == 0 {
      assert Referenced(index') == Referenced(index) + {k};
    } else {
      assert Referenced(index') == Referenced(index);
    }
    forall q
      ensures ReadingAt(index', records, now, lists', tb, q)
    {
      assert ReadingAt(index, records, now, lists, tb, q);
      PlacesGrow(lists, b, k, q);
    }
  }

  lemma ReadTried(index: Index, records: Index, now: int, lists: seq<seq<Key>>, tb: TriedBuckets, nNew: int,
          nTried: int, b: int, k: Key)
    requires Reading(index, records, now, lists, tb, nNew, nTried) && 0 <= b < |tb| && k in index
    ensures Reading(index[k := index[k].(tried := true)], records, now, lists, tb[b := tb[b] + [k]], nNew, nTried + 1)
  {
    var index', tb' := index[k := index[k].(tried := true)], tb[b := tb[b] + [k]];
    assert Referenced(index') == Referenced(index);
    LengthsUpdate(tb, b, tb[b] + [k]);
    forall q
      ensures ReadingAt(index', records, now, lists, tb', q)
    {
      assert ReadingAt(index, records, now, lists, tb, q);
      PlacesGrow(tb, b, k, q);
      PlacesZero(tb, q);
    }
  }

  /** Without repetitions, the entries of the lists are the references of the buckets. */
  lemma PlacesAreRefs(lists: seq<seq<Key>>, nb: NewBuckets, k: Key)
    requires |lists| == |nb| && forall b :: 0 <= b < |nb| ==> Lists(lists[b], nb[b])
    ensures Places(lists, k) == Refs(nb, k)
  {
    forall b | 0 <= b < |nb|
      ensures InTried(lists, k)[b] == InNew(nb, k)[b]
    {
      Once(lists[b], k);
      assert k in lists[b] <==> k in ToSet(lists[b]);
    }
    assert InTried(lists, k) == InNew(nb, k);
  }

  lemma {:induction false} Once(s: seq<Key>, k: Key)
    requires NoDup(s)
    ensures multiset(s)[k] == if k in s then 1 else 0
  {
    if s != [] {
      var init, last := s[..|s| - 1], s[|s| - 1];
      Once(init, k);
      assert s == init + [last] && last !in init;
    }
  }

  /** The manager the file describes has the same buckets, references and counters as the one it was saved from. */
  lemma SameManager(index: Index, nb: NewBuckets, tb: TriedBuckets, nNew: int, nTried: int,
                    f: Saved, now: int, index': Index, nNew': int, nTried': int)
    requires Inv(index, nb, tb, nNew, nTried, None) && Describes(f, index, nb, tb)
    requires Reading(index', Recorded(f.addresses), now, f.newBuckets, tb, nNew', nTried')
    ensures Inv(index', nb, tb, nNew', nTried', None) && nNew' == nNew && nTried' == nTried
    ensures index'.Keys == index.Keys && forall k :: k in index ==> index'[k] == index[k].(time := now)
  {
    forall k
      ensures Placed(index', nb, tb, k, None)
      ensures k in index ==> index'[k] == index[k].(time := now)
      ensures k in index ==> (index'[k].refs > 0 <==> !index[k].tried)
    {
      assert Placed(index, nb, tb, k, None);
      assert ReadingAt(index', index, now, f.newBuckets, tb, k);
      PlacesAreRefs(f.newBuckets, nb, k);
    }
    assert Untried(index') == Untried(index) && Tried(index') == Tried(index);
    assert Referenced(index') == Untried(index);
  }

  /** The first loop of deserializePeers. */
  method LoadAddresses(a: AddrManager, f: Saved, now: int)
    requires a.addrIndex == map[]
    modifies a`addrIndex
    ensures a.addrIndex.Keys == Recorded(f.addresses).Keys
    ensures forall k :: k in a.addrIndex ==>
      a.addrIndex[k] == Recorded(f.addresses)[k].(refs := 0, tried := false, time := now)
  {
    for i := 0 to |f.addresses|
      invariant a.addrIndex.Keys == Recorded(f.addresses[..i]).Keys
      invariant forall k :: k in a.addrIndex ==>
        a.addrIndex[k] == Recorded(f.addresses[..i])[k].(refs := 0, tried := false, time := now)
    {
      var v := f.addresses[i];
      assert f.addresses[..i + 1][..i] == f.addresses[..i];
      a.addrIndex := a.addrIndex[v.0 := v.1.(refs := 0, tried := false, time := now)];
    }
    assert f.addresses[..|f.addresses|] == f.addresses;
  }

  /** One new bucket of the file; done are the lists read so far. */
  method LoadBucket(a: AddrManager, b: int, list: seq<Key>, ghost records: Index, ghost now: int,
          ghost done: seq<seq<Key>>)
    returns (ok: bool)
    requires Reading(a.addrIndex, records, now, done, a.addrTried, a.nNew, a.nTried)
    requires 0 <= b < |a.addrNew| == |done| && a.addrNew[b] == {} && done[b] == []
    modifies a`addrIndex, a`addrNew, a`nNew
    ensures ok <==> ToSet(list) <= records.Keys
    ensures ok ==> Reading(a.addrIndex, records, now, done[b := list], a.addrTried, a.nNew, a.nTried)
    ensures ok ==> a.addrNew == old(a.addrNew)[b := ToSet(list)]
  {
    hide Reading;
    assert ToSet(list[..0]) == {} && a.addrNew == a.addrNew[b := {}] && done[b := list[..0]] == done;
    for j := 0 to |list|
      invariant Reading(a.addrIndex, records, now, done[b := list[..j]], a.addrTried, a.nNew, a.nTried)
      invariant |a.addrNew| == |old(a.addrNew)| && a.addrNew == old(a.addrNew)[b := ToSet(list[..j])]
      invariant ToSet(list[..j]) <= records.Keys
    {
      var val := list[j];
      ToSetGrow(list[..j], val);
      assert list[..j + 1] == list[..j] + [val];
      ReadingKeys(a.addrIndex, records, now, done[b := list[..j]], a.addrTried, a.nNew, a.nTried);
      if val !in a.addrIndex {
        assert val in ToSet(list);
        return false;
      }
      ReadNew(a.addrIndex, records, now, done[b := list[..j]], a.addrTried, a.nNew, a.nTried, b, val);
      assert done[b := list[..j]][b := list[..j + 1]] == done[b := list[..j + 1]];
      var ka := a.addrIndex[val];
      if ka.refs == 0 {
        a.nNew := a.nNew + 1;
      }
      a.addrIndex := a.addrIndex[val := ka.(refs := ka.refs + 1)];
      a.addrNew := a.addrNew[b := a.addrNew[b] + {val}];
    }
    assert list[..|list|] == list;
    ok := true;
  }

  lemma ReadingKeys(index: Index, records: Index, now: int, lists: seq<seq<Key>>, tb: TriedBuckets, nNew: int,
          nTried: int)
    requires Reading(index, records, now, lists, tb, nNew, nTried)
    ensures index.Keys == records.Keys
  {
  }

  /** One tried bucket of the file. */
  method LoadTriedBucket(a: AddrManager, b: int, list: seq<Key>, ghost records: Index, ghost now: int,
          ghost lists: seq<seq<Key>>)
    returns (ok: bool)
    requires Reading(a.addrIndex, records, now, lists, a.addrTried, a.nNew, a.nTried)
    requires 0 <= b < |a.addrTried| && a.addrTried[b] == []
    modifies a`addrIndex, a`addrTried, a`nTried
    ensures ok <==> ToSet(list) <= records.Keys
    ensures ok ==> Reading(a.addrIndex, records, now, lists, a.addrTried, a.nNew, a.nTried)
    ensures ok ==> a.addrTried == old(a.addrTried)[b := list]
  {
    hide Reading;
    assert list[..0] == [] && a.addrTried == a.addrTried[b := []];
    for j := 0 to |list|
      invariant Reading(a.addrIndex, records, now, lists, a.addrTried, a.nNew, a.nTried)
      invariant |a.addrTried| == |old(a.addrTried)|
      invariant a.addrTried == old(a.addrTried)[b := list[..j]] && ToSet(list[..j]) <= records.Keys
    {
      var val := list[j];
      ToSetGrow(list[..j], val);
      assert list[..j + 1] == list[..j] + [val];
      ReadingKeys(a.addrIndex, records, now, lists, a.addrTried, a.nNew, a.nTried);
      if val !in a.addrIndex {
        assert val in ToSet(list);
        return false;
      }
      ReadTried(a.addrIndex, records, now, lists, a.addrTried, a.nNew, a.nTried, b, val);
      a.addrIndex := a.addrIndex[val := a.addrIndex[val].(tried := true)];
      a.nTried := a.nTried + 1;
      a.addrTried := a.addrTried[b := a.addrTried[b] + [val]];
    }
    assert list[..|list|] == list;
    ok := true;
  }

  /** Every address is new or tried, and not both. */
  ghost predicate Sensible(index: Index) {
    forall k :: k in index ==> !(index[k].refs == 0 && !index[k].tried) && !(index[k].refs > 0 && index[k].tried)
  }

  /** The sanity check at the end of deserializePeers. */
  method Sane(index: Index) returns (ok: bool)
    ensures ok <==> Sensible(index)
  {
    var left := index.Keys;
    while left != {}
      invariant left <= index.Keys
      invariant Sensible(map k | k in index && k !in left :: index[k])
    {
      var k :| k in left;
      left := left - {k};
      if index[k].refs == 0 && !index[k].tried {
        return false;
      }
      if index[k].refs > 0 && index[k].tried {
        return false;
      }
    }
    assert (map k | k in index && k !in left :: index[k]) == index;
    ok := true;
  }

  /** All keys the lists mention are known. */
  ghost predicate AllKnown(lists: seq<seq<Key>>, keys: set<Key>) {
    forall b :: 0 <= b < |lists| ==> ToSet(lists[b]) <= keys
  }

  /** The lists before i, and nothing from there on. */
  function UpToList(lists: seq<seq<Key>>, i: nat): (r: seq<seq<Key>>)
    requires i <= |lists|
    ensures |r| == |lists| && forall b :: 0 <= b < |lists| ==> r[b] == if b < i then lists[b] else []
  {
    seq(|lists|, b requires 0 <= b < |lists| => if b < i then lists[b] else [])
  }

  /** The second loop of deserializePeers; it fails on a key that is in no address. */
  method LoadNewBuckets(a: AddrManager, lists: seq<seq<Key>>, ghost records: Index, ghost now: int) returns (ok: bool)
    requires |lists| == |a.addrNew| && forall b :: 0 <= b < |lists| ==> a.addrNew[b] == {}
    requires Reading(a.addrIndex, records, now, UpToList(lists, 0), a.addrTried, a.nNew, a.nTried)
    modifies a`addrIndex, a`addrNew, a`nNew
    ensures ok <==> AllKnown(lists, records.Keys)
    ensures ok ==> Reading(a.addrIndex, records, now, lists, a.addrTried, a.nNew, a.nTried)
    ensures ok ==> |a.addrNew| == |lists| && forall b :: 0 <= b < |lists| ==> a.addrNew[b] == ToSet(lists[b])
  {
    hide Reading, ToSet, UpToList;
    for i := 0 to |lists|
      invariant Reading(a.addrIndex, records, now, UpToList(lists, i), a.addrTried, a.nNew, a.nTried)
      invariant |a.addrNew| == |lists|
      invariant forall b :: 0 <= b < i ==> ToSet(lists[b]) <= records.Keys && a.addrNew[b] == ToSet(lists[b])
      invariant forall b :: i <= b < |lists| ==> a.addrNew[b] == {}
    {
      ok := LoadBucket(a, i, lists[i], records, now, UpToList(lists, i));
      if !ok {
        return;
      }
      assert UpToList(lists, i)[i := lists[i]] == UpToList(lists, i + 1);
    }
    assert UpToList(lists, |lists|) == lists;
    ok := true;
  }

  /** The third loop of deserializePeers. */
  method LoadTriedBuckets(a: AddrManager, lists: seq<seq<Key>>, ghost records: Index, ghost now: int,
          ghost newLists: seq<seq<Key>>)
    returns (ok: bool)
    requires Reading(a.addrIndex, records, now, newLists, a.addrTried, a.nNew, a.nTried) && |lists| == |a.addrTried|
    requires forall b :: 0 <= b < |lists| ==> a.addrTried[b] == []
    modifies a`addrIndex, a`addrTried, a`nTried
    ensures ok <==> AllKnown(lists, records.Keys)
    ensures ok ==> Reading(a.addrIndex, records, now, newLists, a.addrTried, a.nNew, a.nTried)
    ensures ok ==> a.addrTried == lists
  {
    hide Reading, ToSet;
    for i := 0 to |lists|
      invariant Reading(a.addrIndex, records, now, newLists, a.addrTried, a.nNew, a.nTried)
      invariant |a.addrTried| == |lists|
      invariant forall b :: 0 <= b < i ==> ToSet(lists[b]) <= records.Keys && a.addrTried[b] == lists[b]
      invariant forall b :: i <= b < |lists| ==> a.addrTried[b] == []
    {
      ok := LoadTriedBucket(a, i, lists[i], records, now, newLists);
      if !ok {
        return;
      }
    }
    ok := true;
  }

  /**
   deserializePeers into a fresh manager, after the file has been decoded. A key that a new bucket lists
   twice counts as two references.
   */
  method DeserializePeers(f: Saved, now: int) returns (a: AddrManager, ok: bool)
    requires |f.newBuckets| == NEW_BUCKET_COUNT && |f.triedBuckets| == TRIED_BUCKET_COUNT
    ensures fresh(a)
    ensures var records := Recorded(f.addresses);
      if !AllKnown(f.newBuckets, records.Keys) || !AllKnown(f.triedBuckets, records.Keys) then !ok
      else
        && Reading(a.addrIndex, records, now, f.newBuckets, f.triedBuckets, a.nNew, a.nTried)
        && a.addrTried == f.triedBuckets
        && |a.addrNew| == |f.newBuckets|
        && (forall b :: 0 <= b < |a.addrNew| ==> a.addrNew[b] == ToSet(f.newBuckets[b]))
        && (ok <==> Sensible(a.addrIndex))
        && (ok ==> (a.Valid() <==> Tidy(f)))
  {
    a := new AddrManager();
    BucketsOf(a);
    hide Reading, ToSet, Inv, Recorded, AllKnown, Sensible, UpToList;
    ghost var records := Recorded(f.addresses);
    LoadAddresses(a, f, now);
    NothingRead(a.addrIndex, records, now, UpToList(f.newBuckets, 0), a.addrTried);
    ok := LoadNewBuckets(a, f.newBuckets, records, now);
    if !ok {
      return;
    }
    ok := LoadTriedBuckets(a, f.triedBuckets, records, now, f.newBuckets);
    if !ok {
      return;
    }
    ok := Sane(a.addrIndex);
    if ok {
      TidyValid(f, records, now, a.addrIndex, a.addrNew, a.nNew, a.nTried);
    }
  }

  /**
   A file as the manager would have written it: no bucket lists a key twice or is overfull, no key has more
   than eight references, and no key stands in two tried places.
   */
  ghost predicate Tidy(f: Saved) {
    && (forall b :: 0 <= b < |f.newBuckets| ==> NoDup(f.newBuckets[b]) && |f.newBuckets[b]| <= NEW_BUCKET_SIZE + 1)
    && (forall b :: 0 <= b < |f.triedBuckets| ==> |f.triedBuckets[b]| <= TRIED_BUCKET_SIZE)
    && (forall k :: Places(f.newBuckets, k) <= NEW_BUCKETS_PER_ADDRESS && Places(f.triedBuckets, k) <= 1)
  }

  /** The keys of all lists, one after the other. */
  function Flat(tb: TriedBuckets): seq<Key> {
    if tb == [] then [] else Flat(tb[..|tb| - 1]) + tb[|tb| - 1]
  }

  lemma {:induction false} FlatCounts(tb: TriedBuckets, k: Key)
    ensures |Flat(tb)| == Sum(Lengths(tb)) && multiset(Flat(tb))[k] == Places(tb, k)
  {
    if tb != [] {
      var n := |tb| - 1;
      FlatCounts(tb[..n], k);
      assert Lengths(tb)[..n] == Lengths(tb[..n]) && InTried(tb, k)[..n] == InTried(tb[..n], k);
    }
  }

  /** A list of different keys has as many keys as entries. */
  lemma DistinctSize(s: seq<Key>)
    ensures NoDup(s) ==> |ToSet(s)| == |s|
    ensures NoDup(s) <==> forall k :: multiset(s)[k] <= 1
  {
    if NoDup(s) {
      SizeOfSet(s);
      forall k
        ensures multiset(s)[k] <= 1
      {
        Once(s, k);
      }
    } else {
      Twice(s);
    }
  }

  lemma {:induction false} SizeOfSet(s: seq<Key>)
    requires NoDup(s)
    ensures |ToSet(s)| == |s|
  {
    if s != [] {
      var init, last := s[..|s| - 1], s[|s| - 1];
      SizeOfSet(init);
      assert s == init + [last] && last !in init;
      assert ToSet(s) == ToSet(init) + {last};
    }
  }

  lemma Twice(s: seq<Key>)
    requires !NoDup(s)
    ensures exists k :: multiset(s)[k] > 1
  {
    var i, j :| 0 <= i < j < |s| && s[i] == s[j];
    var a, b := s[..j], s[j..];
    assert s == a + b && a[i] in a && b[0] in b;
    assert multiset(s) == multiset(a) + multiset(b);
    assert multiset(s)[s[i]] > 1;
  }

  /** References are counted once per bucket exactly if no bucket lists the key twice. */
  lemma {:induction false} RefsAtMost(lists: seq<seq<Key>>, nb: NewBuckets, k: Key)
    requires |lists| == |nb| && forall b :: 0 <= b < |nb| ==> nb[b] == ToSet(lists[b])
    ensures Refs(nb, k) <= Places(lists, k)
    ensures Refs(nb, k) == Places(lists, k) <==> forall b :: 0 <= b < |lists| ==> multiset(lists[b])[k] <= 1
  {
    if lists != [] {
      var n := |lists| - 1;
      RefsAtMost(lists[..n], nb[..n], k);
      assert InNew(nb, k)[..n] == InNew(nb[..n], k) && InTried(lists, k)[..n] == InTried(lists[..n], k);
      assert k in lists[n] <==> multiset(lists[n])[k] > 0;
      assert forall b :: 0 <= b < n ==> lists[..n][b] == lists[b];
    }
  }

  lemma TidyValid(f: Saved, records: Index, now: int, index: Index, nb: NewBuckets, nNew: int, nTried: int)
    requires |f.newBuckets| == NEW_BUCKET_COUNT && |f.triedBuckets| == TRIED_BUCKET_COUNT && |nb| == |f.newBuckets|
    requires Reading(index, records, now, f.newBuckets, f.triedBuckets, nNew, nTried) && Sensible(index)
    requires forall b :: 0 <= b < |nb| ==> nb[b] == ToSet(f.newBuckets[b])
    ensures Inv(index, nb, f.triedBuckets, nNew, nTried, None) <==> Tidy(f)
  {
    if Tidy(f) {
      TidyIsValid(f, records, now, index, nb, nNew, nTried);
    }
    if Inv(index, nb, f.triedBuckets, nNew, nTried, None) {
      ValidIsTidy(f, records, now, index, nb, nNew, nTried);
    }
  }

  lemma TidyIsValid(f: Saved, records: Index, now: int, index: Index, nb: NewBuckets, nNew: int, nTried: int)
    requires |f.newBuckets| == NEW_BUCKET_COUNT && |f.triedBuckets| == TRIED_BUCKET_COUNT && |nb| == |f.newBuckets|
    requires Reading(index, records, now, f.newBuckets, f.triedBuckets, nNew, nTried) && Sensible(index)
    requires forall b :: 0 <= b < |nb| ==> nb[b] == ToSet(f.newBuckets[b])
    requires Tidy(f)
    ensures Inv(index, nb, f.triedBuckets, nNew, nTried, None)
  {
    hide Refs, Places, Sum, Lengths, ToSet, NoDup;
    var tb := f.triedBuckets;
    forall b | 0 <= b < |nb|
      ensures |nb[b]| <= NEW_BUCKET_SIZE + 1
    {
      DistinctSize(f.newBuckets[b]);
    }
    forall k
      ensures Placed(index, nb, tb, k, None) && (k in index ==> index[k].refs >= 0)
    {
      assert ReadingAt(index, records, now, f.newBuckets, tb, k);
      forall b | 0 <= b < |nb|
        ensures multiset(f.newBuckets[b])[k] <= 1
      {
        DistinctSize(f.newBuckets[b]);
      }
      RefsAtMost(f.newBuckets, nb, k);
      PlacesZero(f.newBuckets, k);
      PlacesZero(tb, k);
    }
    assert Referenced(index) == Untried(index);
    TriedSize(index, records, now, f.newBuckets, tb);
  }

  lemma TriedSize(index: Index, records: Index, now: int, lists: seq<seq<Key>>, tb: TriedBuckets)
    requires forall k :: ReadingAt(index, records, now, lists, tb, k) && Places(tb, k) <= 1
    requires index.Keys == records.Keys
    ensures |Tried(index)| == Sum(Lengths(tb))
  {
    hide Places, Sum, Lengths;
    var s := Flat(tb);
    forall k
      ensures multiset(s)[k] == Places(tb, k) && |s| == Sum(Lengths(tb))
      ensures k in s <==> k in Tried(index)
    {
      FlatCounts(tb, k);
      assert ReadingAt(index, records, now, lists, tb, k);
      assert k in s <==> multiset(s)[k] > 0;
    }
    DistinctSize(s);
    assert ToSet(s) == Tried(index);
    FlatCounts(tb, Key(0));
  }

  lemma ValidIsTidy(f: Saved, records: Index, now: int, index: Index, nb: NewBuckets, nNew: int, nTried: int)
    requires |f.newBuckets| == NEW_BUCKET_COUNT && |f.triedBuckets| == TRIED_BUCKET_COUNT && |nb| == |f.newBuckets|
    requires Reading(index, records, now, f.newBuckets, f.triedBuckets, nNew, nTried)
    requires forall b :: 0 <= b < |nb| ==> nb[b] == ToSet(f.newBuckets[b])
    requires Inv(index, nb, f.triedBuckets, nNew, nTried, None)
    ensures Tidy(f)
  {
    hide Refs, Places, Sum, Lengths, ToSet, NoDup, Untried, Tried, Referenced;
    var tb := f.triedBuckets;
    forall k
      ensures Places(f.newBuckets, k) <= NEW_BUCKETS_PER_ADDRESS && Places(tb, k) <= 1
      ensures Refs(nb, k) == Places(f.newBuckets, k)
    {
      assert Placed(index, nb, tb, k, None) && ReadingAt(index, records, now, f.newBuckets, tb, k);
    }
    forall b | 0 <= b < |nb|
      ensures NoDup(f.newBuckets[b]) && |f.newBuckets[b]| <= NEW_BUCKET_SIZE + 1
    {
      forall k
        ensures multiset(f.newBuckets[b])[k] <= 1
      {
        RefsAtMost(f.newBuckets, nb, k);
      }
      DistinctSize(f.newBuckets[b]);
    }
  }

  lemma BucketsOf(a: AddrManager)
    requires a.Valid() && a.addrIndex == map[]
    ensures |a.addrNew| == NEW_BUCKET_COUNT && |a.addrTried| == TRIED_BUCKET_COUNT && a.nNew == 0 && a.nTried == 0
  {
    assert Untried(a.addrIndex) == {} && Tried(a.addrIndex) == {};
  }

  lemma NothingRead(index: Index, records: Index, now: int, lists: seq<seq<Key>>, tb: TriedBuckets)
    requires index.Keys == records.Keys
    requires forall k :: k in index ==> index[k] == records[k].(refs := 0, tried := false, time := now)
    requires forall b :: 0 <= b < |lists| ==> lists[b] == []
    requires forall b :: 0 <= b < |tb| ==> tb[b] == []
    ensures Reading(index, records, now, lists, tb, 0, 0)
  {
    SumZero(Lengths(tb));
    forall k
      ensures Places(lists, k) == 0 && Places(tb, k) == 0 && ReadingAt(index, records, now, lists, tb, k)
    {
      PlacesZero(lists, k);
      PlacesZero(tb, k);
    }
    assert Referenced(index) == {};
  }

  /**
   Saving a manager and loading the file into a fresh one rebuilds the buckets, the counters and all that
   is known of an address but its time, which becomes that of the loading.
   */
  method SaveAndLoad(a: AddrManager, now: int) returns (r: AddrManager, ok: bool)
    requires a.Valid()
    ensures ok && fresh(r) && r.Valid()
    ensures r.addrNew == a.addrNew && r.addrTried == a.addrTried && r.nNew == a.nNew && r.nTried == a.nTried
    ensures r.addrIndex.Keys == a.addrIndex.Keys
    ensures forall k :: k in a.addrIndex ==> r.addrIndex[k] == a.addrIndex[k].(time := now)
  {
    var f := SavePeers(a);
    FileComplete(f, a.addrIndex, a.addrNew, a.addrTried, a.nNew, a.nTried);
    hide Inv, Reading, NoDup, ToSet, Recorded, AllKnown, Lists, Sensible, Describes;
    r, ok := DeserializePeers(f, now);
    assert r.addrNew == a.addrNew;
    SameManager(a.addrIndex, a.addrNew, a.addrTried, a.nNew, a.nTried, f, now, r.addrIndex, r.nNew, r.nTried);
    SensibleWhenValid(r.addrIndex, r.addrNew, r.addrTried, r.nNew, r.nTried);
  }

  lemma FileComplete(f: Saved, index: Index, nb: NewBuckets, tb: TriedBuckets, nNew: int, nTried: int)
    requires Inv(index, nb, tb, nNew, nTried, None) && Describes(f, index, nb, tb)
    ensures |f.newBuckets| == NEW_BUCKET_COUNT && |f.triedBuckets| == TRIED_BUCKET_COUNT
    ensures AllKnown(f.newBuckets, Recorded(f.addresses).Keys) && AllKnown(f.triedBuckets, Recorded(f.addresses).Keys)
    ensures |f.newBuckets| == |nb| && forall b :: 0 <= b < |nb| ==> ToSet(f.newBuckets[b]) == nb[b]
    ensures Recorded(f.addresses) == index && f.triedBuckets == tb
  {
    forall b, k | 0 <= b < |nb| && k in nb[b]
      ensures k in index
    {
      Present(index, nb, tb, nNew, nTried, None, k, b);
    }
    forall b, k | 0 <= b < |tb| && k in tb[b]
      ensures k in index
    {
      PlacesZero(tb, k);
      assert Placed(index, nb, tb, k, None);
    }
    forall b | 0 <= b < |nb|
      ensures ToSet(f.newBuckets[b]) == nb[b]
    {
      assert Lists(f.newBuckets[b], nb[b]);
    }
  }

  lemma SensibleWhenValid(index: Index, nb: NewBuckets, tb: TriedBuckets, nNew: int, nTried: int)
    requires Inv(index, nb, tb, nNew, nTried, None)
    ensures Sensible(index)
  {
    forall k | k in index
      ensures index[k].refs == 0 <==> index[k].tried
    {
      KeySizes(index, nb, tb, nNew, nTried, k);
    }
  }

  // ------------------------------------------------------------------ whole runs

  /** A call of the manager, with what the network, the clock and the hashes decide. */
  datatype Event =
    | Add(k: Key, src: Key, time: int, services: set<int>, routable: bool, lucky: bool, bucket: int, bad: Key -> bool)
    | Succeed(k: Key, now: int, bucket: int, newBucketOf: Key -> int)
    | Try(k: Key, now: int)
    | Connect(k: Key, now: int)
    | Announce(k: Key, services: set<int>)

  ghost predicate Possible(e: Event) {
    && (e.Add? ==> 0 <= e.bucket < NEW_BUCKET_COUNT)
    && (e.Succeed? ==> 0 <= e.bucket < TRIED_BUCKET_COUNT && forall q :: 0 <= e.newBucketOf(q) < NEW_BUCKET_COUNT)
  }

  /** What a call does to the manager. */
  ghost predicate Did(e: Event, s: Book, s': Book) {
    match e
    case Add(k, src, time, services, routable, lucky, bucket, bad) =>
      Updated(s, s', k, src, time, services, routable, lucky, bucket, bad)
    case Succeed(k, now, bucket, newBucketOf) => Promoted(s, s', k, now, bucket, newBucketOf)
    case Try(k, now) =>
      s' == if k !in s.index then s
            else s.(index := s.index[k := s.index[k].(attempts := s.index[k].attempts + 1, lastAttempt := now)])
    case Connect(k, now) =>
      s' == if k !in s.index || now <= s.index[k].time + 1200 then s
            else s.(index := s.index[k := s.index[k].(time := now)])
    case Announce(k, services) =>
      s' == if k in s.index then s.(index := s.index[k := s.index[k].(services := services)]) else s
  }

  method Handle(a: AddrManager, e: Event)
    requires a.Valid() && Possible(e)
    modifies a
    ensures a.Valid() && Did(e, old(a.Now()), a.Now())
  {
    hide Inv, Updated, Promoted;
    match e {
      case Add(k, src, time, services, routable, lucky, bucket, bad) =>
        a.UpdateAddress(k, src, time, services, routable, lucky, bucket, bad);
      case Succeed(k, now, bucket, newBucketOf) =>
        a.Good(k, now, bucket, newBucketOf);
      case Try(k, now) =>
        a.Attempt(k, now);
      case Connect(k, now) =>
        a.Connected(k, now);
      case Announce(k, services) =>
        a.SetServices(k, services);
    }
  }

  /** The books from a manager without addresses on, call after call. */
  ghost predicate IsRun(events: seq<Event>, trace: seq<Book>) {
    && |trace| == |events| + 1 && trace[0].index == map[]
    && (forall b :: 0 <= b < |trace[0].nb| ==> trace[0].nb[b] == {})
    && (forall b :: 0 <= b < |trace[0].tb| ==> trace[0].tb[b] == [])
    && forall i :: 0 <= i < |events| ==> Did(events[i], trace[i], trace[i + 1])
  }

  /**
   After any calls each known address is either tried, and then at exactly one place, or in as many new buckets
   as it has references, one to eight; the manager went there by the calls, one after the other.
   */
  method Run(events: seq<Event>) returns (a: AddrManager, ghost trace: seq<Book>)
    requires forall i :: 0 <= i < |events| ==> Possible(events[i])
    ensures fresh(a) && a.Valid() && IsRun(events, trace) && trace[|events|] == a.Now()
    ensures forall k :: k in a.addrIndex ==> Standing(a.addrIndex[k], a.addrNew, a.addrTried, k)
    ensures a.nNew == |set k | k in a.addrIndex && !a.addrIndex[k].tried|
    ensures a.nTried == |set k | k in a.addrIndex && a.addrIndex[k].tried|
  {
    hide *;
    a := new AddrManager();
    trace := [a.Now()];
    a.NowIs();
    RunFrom(a.Now());
    for i := 0 to |events|
      invariant fresh(a) && a.Valid() && |trace| == i + 1
      invariant IsRun(events[..i], trace) && trace[i] == a.Now()
    {
      Handle(a, events[i]);
      RunOn(events[..i], trace, events[i], a.Now());
      assert events[..i] + [events[i]] == events[..i + 1];
      trace := trace + [a.Now()];
    }
    assert events[..|events|] == events;
    Everywhere(a);
  }

  lemma RunFrom(s: Book)
    requires s.index == map[] && (forall b :: 0 <= b < |s.nb| ==> s.nb[b] == {})
    requires forall b :: 0 <= b < |s.tb| ==> s.tb[b] == []
    ensures IsRun([], [s])
  {
  }

  lemma RunOn(events: seq<Event>, trace: seq<Book>, e: Event, s: Book)
    requires IsRun(events, trace) && |trace| == |events| + 1 && Did(e, trace[|events|], s)
    ensures IsRun(events + [e], trace + [s])
  {
    hide Did;
    var es, ts := events + [e], trace + [s];
    forall i | 0 <= i < |es|
      ensures Did(es[i], ts[i], ts[i + 1])
    {
      if i < |events| {
        assert Did(events[i], trace[i], trace[i + 1]);
      }
    }
  }

  /** Where a known address stands. */
  ghost predicate Standing(ka: KnownAddress, nb: NewBuckets, tb: TriedBuckets, k: Key) {
    && ka.refs == |set b | 0 <= b < |nb| && k in nb[b]| <= 8 && (ka.tried <==> ka.refs == 0)
    && ((exists b, i :: InPlace(tb, k, b, i)) <==> ka.tried)
    && forall b, i, c, j :: InPlace(tb, k, b, i) && InPlace(tb, k, c, j) ==> b == c && i == j
  }

  lemma Everywhere(a: AddrManager)
    requires a.Valid()
    ensures forall k :: k in a.addrIndex ==> Standing(a.addrIndex[k], a.addrNew, a.addrTried, k)
    ensures a.nNew == |set k | k in a.addrIndex && !a.addrIndex[k].tried|
    ensures a.nTried == |set k | k in a.addrIndex && a.addrIndex[k].tried|
  {
    hide Standing, Placed, Refs, Places;
    forall k | k in a.addrIndex
      ensures Standing(a.addrIndex[k], a.addrNew, a.addrTried, k)
    {
      StandsSomewhere(a.addrIndex, a.addrNew, a.addrTried, a.nNew, a.nTried, k);
    }
  }

  lemma StandsSomewhere(index: Index, nb: NewBuckets, tb: TriedBuckets, nNew: int, nTried: int, k: Key)
    requires Inv(index, nb, tb, nNew, nTried, None) && k in index
    ensures Standing(index[k], nb, tb, k)
  {
    hide Inv, Refs, Places;
    InvMeaning(index, nb, tb, nNew, nTried, k);
    if index[k].tried {
      var b :| 0 <= b < |tb| && k in tb[b];
      var i :| 0 <= i < |tb[b]| && tb[b][i] == k;
      assert InPlace(tb, k, b, i);
    }
  }
}
