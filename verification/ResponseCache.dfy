/**
 The disk-backed LRU response cache (`internal/cache/cache.go`).

 File reads and writes happen outside the lock, so a `Get` or a `Set` is several atomic
 sections with other goroutines' sections in between. Each section is one method here; it is
 proved to keep `Valid` for *any* arguments, stale ones included, which covers every
 interleaving. `Set` and `Get` compose the sections as one goroutine runs them alone.
 */
module ResponseCache {
  import opened Options

  type Key = string
  type Blob = string

  /** A list element with the record it holds; `id` is the element's identity. */
  datatype Element = Element(id: nat, key: Key, expiresAt: int, sizeBytes: nat)

  /** A cache file as the directory listing shows it. */
  datatype DirEntry = DirEntry(key: Key, modTime: int, size: nat)

  /** What callers read and write, and how it is laid out on disk. */
  datatype Entry = Entry(text: string, thinking: string)
  datatype EntryCodec = EntryCodec(encode: Entry -> Blob, decode: Blob -> Option<Entry>)

  ghost predicate Lawful(c: EntryCodec) {
    forall v :: c.decode(c.encode(v)) == Some(v)
  }

  function Sizes(order: seq<Element>): int {
    if order == [] then 0 else order[0].sizeBytes + Sizes(order[1..])
  }

  lemma {:induction false} SizesConcat(a: seq<Element>, b: seq<Element>)
    ensures Sizes(a + b) == Sizes(a) + Sizes(b)
  {
    if a == [] {
      assert a + b == b;
    } else {
      assert (a + b)[1..] == a[1..] + b;
      SizesConcat(a[1..], b);
    }
  }

  function Without(order: seq<Element>, p: nat): seq<Element>
    requires p < |order|
  {
    order[..p] + order[p + 1..]
  }

  lemma SizesWithout(order: seq<Element>, p: nat)
    requires p < |order|
    ensures Sizes(Without(order, p)) == Sizes(order) - order[p].sizeBytes
  {
    hide Sizes;
    var a, e, b := order[..p], order[p], order[p + 1..];
    assert order == a + ([e] + b);
    SizesOfThree(a, e, b);
  }

  lemma SizesOfThree(a: seq<Element>, e: Element, b: seq<Element>)
    ensures Sizes(a + ([e] + b)) == Sizes(a + b) + e.sizeBytes
  {
    hide Sizes;
    SizesCons(e, b);
    SizesConcat(a, [e] + b);
    SizesConcat(a, b);
  }

  lemma SizesCons(e: Element, rest: seq<Element>)
    ensures Sizes([e] + rest) == e.sizeBytes + Sizes(rest)
  {
    assert ([e] + rest)[1..] == rest;
  }

  lemma WithoutAt(order: seq<Element>, p: nat)
    requires p < |order|
    ensures |Without(order, p)| == |order| - 1
    ensures forall i :: 0 <= i < |order| - 1 ==> Without(order, p)[i] == order[if i < p then i else i + 1]
  {
  }

  ghost predicate HasKey(order: seq<Element>, k: Key) {
    exists i :: 0 <= i < |order| && order[i].key == k
  }

  /** List and index describe the same elements, and no key or identity occurs twice. */
  ghost predicate Bijection(order: seq<Element>, idx: map<Key, nat>, nextId: nat) {
    && (forall i :: 0 <= i < |order| ==> order[i].key in idx && idx[order[i].key] == order[i].id && order[i].id < nextId)
    && (forall k :: k in idx ==> HasKey(order, k))
    && (forall i, j :: 0 <= i < j < |order| ==> order[i].key != order[j].key && order[i].id != order[j].id)
  }

  /** The list runs from the least to the most recently touched element. */
  ghost predicate Recency(order: seq<Element>, touch: map<nat, nat>, ticks: nat) {
    && (forall i :: 0 <= i < |order| ==> order[i].id in touch && touch[order[i].id] < ticks)
    && (forall i, j :: 0 <= i < j < |order| ==> touch[order[i].id] < touch[order[j].id])
  }

  /** Every indexed key has its file, and every file holds something written for its key. */
  ghost predicate FilesMatch(idx: map<Key, nat>, files: map<Key, Blob>, written: set<(Key, Blob)>) {
    && (forall k :: k in idx ==> k in files)
    && (forall k :: k in files ==> (k, files[k]) in written)
  }

  lemma RemovalKeepsBijection(order: seq<Element>, idx: map<Key, nat>, nextId: nat, p: nat)
    requires Bijection(order, idx, nextId) && p < |order|
    ensures Bijection(Without(order, p), idx - {order[p].key}, nextId)
  {
    WithoutAt(order, p);
    var rest := Without(order, p);
    hide Without;
    forall k | k in idx - {order[p].key}
      ensures HasKey(rest, k)
    {
      assert HasKey(order, k);
      var i :| 0 <= i < |order| && order[i].key == k;
      assert rest[if i < p then i else i - 1].key == k;
    }
  }

  lemma RemovalKeepsRecency(order: seq<Element>, touch: map<nat, nat>, ticks: nat, p: nat)
    requires Recency(order, touch, ticks) && p < |order|
    ensures Recency(Without(order, p), touch, ticks)
  {
    WithoutAt(order, p);
    hide Without;
  }

  lemma PushKeepsBijection(order: seq<Element>, idx: map<Key, nat>, nextId: nat, e: Element)
    requires Bijection(order, idx, nextId) && !HasKey(order, e.key) && e.id < nextId
    requires forall i :: 0 <= i < |order| ==> order[i].id != e.id
    ensures Bijection(order + [e], idx[e.key := e.id], nextId)
  {
    var all := order + [e];
    forall k | k in idx[e.key := e.id]
      ensures HasKey(all, k)
    {
      if k == e.key {
        assert all[|order|].key == k;
      } else {
        assert HasKey(order, k);
        var i :| 0 <= i < |order| && order[i].key == k;
        assert all[i].key == k;
      }
    }
  }

  lemma PushKeepsRecency(order: seq<Element>, touch: map<nat, nat>, ticks: nat, e: Element)
    requires Recency(order, touch, ticks) && forall i :: 0 <= i < |order| ==> order[i].id != e.id
    ensures Recency(order + [e], touch[e.id := ticks], ticks + 1)
  {
  }

  /** Behind the removal of an element neither its key nor its identity is left in the list. */
  lemma RemovedIsGone(order: seq<Element>, idx: map<Key, nat>, nextId: nat, p: nat)
    requires Bijection(order, idx, nextId) && p < |order|
    ensures !HasKey(Without(order, p), order[p].key)
    ensures forall i :: 0 <= i < |Without(order, p)| ==> Without(order, p)[i].id != order[p].id
  {
    WithoutAt(order, p);
    hide Without;
  }

  lemma ElementIsIndexed(order: seq<Element>, idx: map<Key, nat>, nextId: nat, p: nat)
    requires Bijection(order, idx, nextId) && p < |order|
    ensures order[p].key in idx && idx[order[p].key] == order[p].id && order[p].id < nextId
  {
  }

  lemma PushKeepsFiles(idx: map<Key, nat>, files: map<Key, Blob>, written: set<(Key, Blob)>, e: Element)
    requires FilesMatch(idx, files, written) && e.key in files
    ensures FilesMatch(idx[e.key := e.id], files, written)
  {
  }

  lemma WithoutFront(order: seq<Element>, e: Element)
    requires order != []
    ensures Without(order + [e], 0) == order[1..] + [e]
  {
  }

  lemma RemovalKeepsFiles(idx: map<Key, nat>, files: map<Key, Blob>, written: set<(Key, Blob)>, k: Key)
    requires FilesMatch(idx, files, written)
    ensures FilesMatch(idx - {k}, files - {k}, written)
  {
  }

  /** Moving an element to the back keeps list and index in step. */
  lemma TouchKeepsOrder(order: seq<Element>, idx: map<Key, nat>, nextId: nat, touch: map<nat, nat>, ticks: nat, p: nat,
                        e: Element)
    requires Bijection(order, idx, nextId) && Recency(order, touch, ticks) && p < |order|
    requires e.id == order[p].id && e.key == order[p].key
    ensures Bijection(Without(order, p) + [e], idx, nextId)
    ensures Recency(Without(order, p) + [e], touch[e.id := ticks], ticks + 1)
    ensures Sizes(Without(order, p) + [e]) == Sizes(order) - order[p].sizeBytes + e.sizeBytes
  {
    ElementIsIndexed(order, idx, nextId, p);
    RemovalKeepsBijection(order, idx, nextId, p);
    RemovalKeepsRecency(order, touch, ticks, p);
    RemovedIsGone(order, idx, nextId, p);
    hide Bijection, Recency, HasKey, Without, Sizes;
    var rest := Without(order, p);
    PushKeepsBijection(rest, idx - {e.key}, nextId, e);
    PushKeepsRecency(rest, touch, ticks, e);
    PutBack(idx, e);
    SizesWithout(order, p);
    SizesOfPush(rest, e);
  }

  lemma PutBack(idx: map<Key, nat>, e: Element)
    requires e.key in idx && idx[e.key] == e.id
    ensures (idx - {e.key})[e.key := e.id] == idx
  {
  }

  lemma SizesOfPush(order: seq<Element>, e: Element)
    ensures Sizes(order + [e]) == Sizes(order) + e.sizeBytes
  {
    SizesConcat(order, [e]);
    assert Sizes([e]) == e.sizeBytes + Sizes([]);
  }

  lemma NewKeyIsPushed(order: seq<Element>, idx: map<Key, nat>, nextId: nat, touch: map<nat, nat>, ticks: nat,
                       e: Element)
    requires Bijection(order, idx, nextId) && Recency(order, touch, ticks)
    requires e.key !in idx && e.id == nextId
    ensures Bijection(order + [e], idx[e.key := e.id], nextId + 1)
    ensures Recency(order + [e], touch[e.id := ticks], ticks + 1)
  {
    assert Bijection(order, idx, nextId + 1) && !HasKey(order, e.key);
    PushKeepsBijection(order, idx, nextId + 1, e);
    PushKeepsRecency(order, touch, ticks, e);
  }

  /** No element was touched before the front of the list. */
  ghost predicate FrontIsOldest(order: seq<Element>, touch: map<nat, nat>) {
    forall i :: 0 <= i < |order| ==>
      order[0].id in touch && order[i].id in touch && touch[order[0].id] <= touch[order[i].id]
  }

  lemma LeastRecentFirst(order: seq<Element>, touch: map<nat, nat>, ticks: nat)
    requires Recency(order, touch, ticks)
    ensures FrontIsOldest(order, touch)
  {
  }

  /** The element at `p`, and no other, left the list. */
  ghost predicate TakenOut(before: seq<Element>, after: seq<Element>, p: nat) {
    p < |before| && after == Without(before, p)
  }

  ghost predicate MovedToBack(before: seq<Element>, after: seq<Element>, p: nat) {
    p < |before| && after == Without(before, p) + [before[p]]
  }

  // ----- what a directory listing restores -----

  ghost predicate Listing(ents: seq<DirEntry>) {
    forall i, j :: 0 <= i < j < |ents| ==> ents[i].key != ents[j].key
  }

  ghost function Keys(ents: seq<DirEntry>): set<Key> {
    set i | 0 <= i < |ents| :: ents[i].key
  }

  ghost function Expired(ents: seq<DirEntry>, now: int, ttl: int): set<Key> {
    set i | 0 <= i < |ents| && now > ents[i].modTime + ttl :: ents[i].key
  }

  ghost function Live(ents: seq<DirEntry>, now: int, ttl: int): seq<DirEntry> {
    if ents == [] then []
    else
      var last := ents[|ents| - 1];
      Live(ents[..|ents| - 1], now, ttl) + if now > last.modTime + ttl then [] else [last]
  }

  /** The live files are those of the listing whose time to live has not run out. */
  lemma {:induction false} LiveIff(ents: seq<DirEntry>, now: int, ttl: int, e: DirEntry)
    ensures e in Live(ents, now, ttl) <==> e in ents && now <= e.modTime + ttl
  {
    if ents != [] {
      var n := |ents| - 1;
      LiveIff(ents[..n], now, ttl, e);
      assert ents == ents[..n] + [ents[n]];
    }
  }

  /** The list holds the live files in listing order, expiring as long after their last write. */
  ghost predicate Rehydrated(order: seq<Element>, live: seq<DirEntry>, ttl: int) {
    && |order| == |live|
    && forall i :: 0 <= i < |live| ==>
         order[i].key == live[i].key && order[i].expiresAt == live[i].modTime + ttl && order[i].sizeBytes ==
                 live[i].size
  }

  lemma LiveIsRehydrated(order: seq<Element>, ents: seq<DirEntry>, now: int, ttl: int)
    requires Rehydrated(order, Live(ents, now, ttl), ttl)
    ensures forall i :: 0 <= i < |order| ==> now <= order[i].expiresAt
    ensures forall e :: e in ents && now <= e.modTime + ttl ==> Fresh(order, e.key, e.modTime + ttl)
  {
    hide Live;
    var live := Live(ents, now, ttl);
    forall i | 0 <= i < |order|
      ensures now <= order[i].expiresAt
    {
      LiveIff(ents, now, ttl, live[i]);
    }
    forall e | e in ents && now <= e.modTime + ttl
      ensures Fresh(order, e.key, e.modTime + ttl)
    {
      LiveIff(ents, now, ttl, e);
      var i :| 0 <= i < |live| && live[i] == e;
      assert order[i].key == e.key;
    }
  }

  lemma NothingListed(ents: seq<DirEntry>, files: map<Key, Blob>, now: int, ttl: int)
    ensures Rehydrated([], Live(ents[..0], now, ttl), ttl)
    ensures files == files - Expired(ents[..0], now, ttl)
    ensures {} <= Keys(ents[..0])
  {
    assert Live([], now, ttl) == [] && Expired([], now, ttl) == {};
  }

  lemma RehydratedPush(order: seq<Element>, live: seq<DirEntry>, ttl: int, id: nat, e: DirEntry)
    requires Rehydrated(order, live, ttl)
    ensures Rehydrated(order + [Element(id, e.key, e.modTime + ttl, e.size)], live + [e], ttl)
  {
  }

  lemma NextListed(ents: seq<DirEntry>, n: nat, now: int, ttl: int, files: map<Key, Blob>)
    requires Listing(ents) && n < |ents| && Keys(ents) <= files.Keys
    ensures ents[n].key !in Keys(ents[..n]) && ents[n].key in files - Expired(ents[..n], now, ttl)
    ensures Keys(ents[..n]) <= Keys(ents[..n + 1]) && ents[n].key in Keys(ents[..n + 1])
    ensures files - Expired(ents[..n + 1], now, ttl) ==
            if now > ents[n].modTime + ttl then files - Expired(ents[..n], now, ttl) - {ents[n].key}
            else files - Expired(ents[..n], now, ttl)
    ensures Live(ents[..n + 1], now, ttl) ==
            if now > ents[n].modTime + ttl then Live(ents[..n], now, ttl) else Live(ents[..n], now, ttl) + [ents[n]]
  {
    assert ents[..n + 1][..n] == ents[..n];
    KeysUpTo(ents, n);
    ExpiredUpTo(ents, n, now, ttl);
  }

  lemma KeysUpTo(ents: seq<DirEntry>, n: nat)
    requires n < |ents|
    ensures Keys(ents[..n + 1]) == Keys(ents[..n]) + {ents[n].key}
  {
    forall k | k in Keys(ents[..n]) + {ents[n].key}
      ensures k in Keys(ents[..n + 1])
    {
      var i :| 0 <= i <= n && ents[i].key == k;
      assert ents[..n + 1][i].key == k;
    }
  }

  lemma ExpiredUpTo(ents: seq<DirEntry>, n: nat, now: int, ttl: int)
    requires n < |ents|
    ensures Expired(ents[..n + 1], now, ttl) ==
            if now > ents[n].modTime + ttl then Expired(ents[..n], now, ttl) + {ents[n].key}
                    else Expired(ents[..n], now, ttl)
  {
    var last := if now > ents[n].modTime + ttl then {ents[n].key} else {};
    forall k | k in Expired(ents[..n], now, ttl) || k in last
      ensures k in Expired(ents[..n + 1], now, ttl)
    {
      var i :| 0 <= i <= n && ents[i].key == k && now > ents[i].modTime + ttl;
      assert ents[..n + 1][i] == ents[i];
    }
  }

  /** The key has an element that has not expired. */
  ghost predicate Fresh(order: seq<Element>, k: Key, now: int) {
    exists p :: 0 <= p < |order| && order[p].key == k && now <= order[p].expiresAt
  }

  lemma FreshIs(order: seq<Element>, k: Key, now: int)
    ensures Fresh(order, k, now) <==> exists p :: 0 <= p < |order| && order[p].key == k && now <= order[p].expiresAt
  {
  }

  lemma StaysFresh(order: seq<Element>, k: Key, end: int)
    requires order != [] && order[|order| - 1].key == k && order[|order| - 1].expiresAt == end
    ensures forall t :: t <= end ==> Fresh(order, k, t)
  {
  }

  lemma ReadsBack(c: EntryCodec, v: Entry)
    ensures Lawful(c) ==> c.decode(c.encode(v)) == Some(v)
  {
  }

  lemma FreshIsDecided(order: seq<Element>, idx: map<Key, nat>, nextId: nat, k: Key, now: int)
    requires Bijection(order, idx, nextId)
    ensures k !in idx ==> !Fresh(order, k, now)
    ensures forall p :: 0 <= p < |order| && order[p].key == k ==> (Fresh(order, k, now) <==> now <= order[p].expiresAt)
  {
  }

  class Cache {
    const maxItems: nat
    const ttl: int
    const codec: EntryCodec

    var order: seq<Element>
    var idx: map<Key, nat>
    var bytesOnDisk: int
    var nextId: nat
    var files: map<Key, Blob>
    var hits: nat
    var misses: nat
    var stores: nat
    var evictions: nat

    /** Everything ever written to a key's file. */
    ghost var written: set<(Key, Blob)>
    /** When each element was last touched, on a clock that ticks at every touch. */
    ghost var touch: map<nat, nat>
    ghost var ticks: nat

    ghost predicate Valid()
      reads this
    {
      && Bijection(order, idx, nextId) && Recency(order, touch, ticks) && FilesMatch(idx, files, written)
      && |order| <= maxItems
      && bytesOnDisk == Sizes(order)
    }

    /** A cache over whatever an earlier process left in the directory, nothing indexed yet. */
    constructor (maxItems: nat, ttl: int, codec: EntryCodec, onDisk: map<Key, Blob>)
      ensures Valid() && order == [] && idx == map[] && files == onDisk && written == onDisk.Items
      ensures this.maxItems == maxItems && this.ttl == ttl && this.codec == codec
    {
      this.maxItems, this.ttl, this.codec := maxItems, ttl, codec;
      order, idx, files := [], map[], onDisk;
      bytesOnDisk, nextId := 0, 0;
      hits, misses, stores, evictions := 0, 0, 0, 0;
      written, touch, ticks := onDisk.Items, map[], 0;
    }

    // ----- list operations -----

    method PositionOf(k: Key) returns (p: nat)
      requires Valid() && k in idx
      ensures p < |order| && order[p].key == k && order[p].id == idx[k]
    {
      assert HasKey(order, k);
      p := 0;
      while order[p].key != k
        invariant p < |order|
        invariant forall i :: 0 <= i < p ==> order[i].key != k
        decreases |order| - p
      {
        p := p + 1;
      }
    }

    /** All of `Valid` but the capacity, which `Commit` exceeds for a moment. */
    ghost predicate Consistent()
      reads this
    {
      && Bijection(order, idx, nextId) && Recency(order, touch, ticks) && FilesMatch(idx, files, written)
      && bytesOnDisk == Sizes(order)
    }

    /** `removeLocked`: node, index entry, bytes and file go together. */
    method RemoveLocked(p: nat)
      requires Consistent() && p < |order|
      modifies this`order, this`idx, this`bytesOnDisk, this`files
      ensures Consistent()
      ensures order == Without(old(order), p) && |order| == |old(order)| - 1
      ensures idx == old(idx) - {old(order[p]).key}
      ensures files == old(files) - {old(order[p]).key}
    {
      hide Bijection, Recency, FilesMatch, Sizes;
      var r := order[p];
      SizesWithout(order, p);
      RemovalKeepsBijection(order, idx, nextId, p);
      RemovalKeepsRecency(order, touch, ticks, p);
      RemovalKeepsFiles(idx, files, written, r.key);
      order := Without(order, p);
      idx := idx - {r.key};
      bytesOnDisk := bytesOnDisk - r.sizeBytes;
      files := files - {r.key};
    }

    /** `MoveToBack`, after the record has been changed in place. */
    method TouchAt(p: nat, changed: Element)
      requires Consistent() && p < |order| && changed.id == order[p].id && changed.key == order[p].key
      modifies this`order, this`bytesOnDisk, this`touch, this`ticks
      ensures Consistent()
      ensures order == Without(old(order), p) + [changed] && |order| == |old(order)|
    {
      hide Bijection, Recency, FilesMatch, Sizes;
      TouchKeepsOrder(order, idx, nextId, touch, ticks, p, changed);
      bytesOnDisk := bytesOnDisk + (changed.sizeBytes - order[p].sizeBytes);
      order := Without(order, p) + [changed];
      touch := touch[changed.id := ticks];
      ticks := ticks + 1;
    }

    // ----- the sections of Get -----

    // Only `Commit` and `Reload` insert, and each insertion takes a number never used before, so
    // an identity read by `Lookup` names that element for good, even across a re-insertion.

    /** The locked lookup: a miss, an expired element dropped, or a hit made most recent. */
    method Lookup(k: Key, now: int) returns (found: Option<nat>)
      requires Valid()
      modifies this
      ensures Valid() && written == old(written)
      ensures stores == old(stores) && evictions == old(evictions) && hits == old(hits)
      ensures misses == old(misses) + if found.None? then 1 else 0
      ensures found.Some? <==> Fresh(old(order), k, now)
      ensures found.Some? ==> files == old(files) && idx == old(idx) && k in idx && idx[k] == found.value
      ensures found.Some? ==> exists p: nat :: MovedToBack(old(order), order, p) && old(order)[p].key == k
      ensures found.None? && k !in old(idx) ==> order == old(order) && idx == old(idx) && files == old(files)
      ensures found.None? && k in old(idx) ==>
                && idx == old(idx) - {k} && files == old(files) - {k}
                && exists p: nat :: TakenOut(old(order), order, p) && old(order)[p].key == k
    {
      hide *;
      if k !in idx {
        FreshHere(k, 0, now);
        Miss();
        return None;
      }
      var p := PositionOf(k);
      FreshHere(k, p, now);
      if now > order[p].expiresAt {
        DropExpired(p);
        return None;
      }
      found := Some(order[p].id);
      KeepFound(p);
    }

    method Miss()
      requires Valid()
      modifies this`misses
      ensures Valid() && misses == old(misses) + 1
    {
      misses := misses + 1;
    }

    lemma FreshHere(k: Key, p: nat, now: int)
      requires Valid()
      ensures k !in idx ==> !Fresh(order, k, now)
      ensures p < |order| && order[p].key == k ==> (Fresh(order, k, now) <==> now <= order[p].expiresAt)
    {
      hide Recency, FilesMatch, Sizes;
      FreshIsDecided(order, idx, nextId, k, now);
    }

    method KeepFound(p: nat)
      requires Valid() && p < |order|
      modifies this`order, this`bytesOnDisk, this`touch, this`ticks
      ensures Valid() && MovedToBack(old(order), order, p)
    {
      hide Bijection, Recency, FilesMatch, Without, Sizes;
      TouchAt(p, order[p]);
    }

    method DropExpired(p: nat)
      requires Valid() && p < |order|
      modifies this`order, this`idx, this`bytesOnDisk, this`files, this`misses
      ensures Valid() && misses == old(misses) + 1 && TakenOut(old(order), order, p)
      ensures idx == old(idx) - {old(order[p]).key} && files == old(files) - {old(order[p]).key}
    {
      hide Bijection, Recency, FilesMatch, Without, Sizes;
      RemoveLocked(p);
      misses := misses + 1;
    }

    /** The unlocked file read: what it returns was written for this very key. */
    method ReadFile(k: Key) returns (blob: Option<Blob>)
      requires Valid()
      ensures blob.None? <==> k !in files
      ensures blob.Some? ==> blob.value == files[k] && (k, blob.value) in written
    {
      blob := if k in files then Some(files[k]) else None;
    }

    /**
     The locked clean-up after a failed read or decode. `id` may be stale: an element that was
     inserted for the key in the meantime stays.
     */
    method DropStale(k: Key, id: nat)
      requires Valid()
      modifies this
      ensures Valid() && written == old(written) && misses == old(misses) + 1
      ensures hits == old(hits) && stores == old(stores) && evictions == old(evictions)
      ensures !(k in old(idx) && old(idx)[k] == id) ==> order == old(order) && idx == old(idx) && files == old(files)
      ensures k in old(idx) && old(idx)[k] == id ==>
                && idx == old(idx) - {k} && files == old(files) - {k}
                && exists p: nat :: TakenOut(old(order), order, p) && old(order)[p].id == id
    {
      hide Bijection, Recency, FilesMatch, Without;
      if k in idx && idx[k] == id {
        var p := PositionOf(k);
        RemoveLocked(p);
        assert TakenOut(old(order), order, p);
      }
      misses := misses + 1;
    }

    method Hit()
      requires Valid()
      modifies this`hits
      ensures Valid() && hits == old(hits) + 1
    {
      hide Bijection, Recency, FilesMatch, Sizes;
      hits := hits + 1;
    }

    // ----- the sections of Set -----

    /** The unlocked atomic file write. */
    method WriteFile(k: Key, blob: Blob)
      requires Valid()
      modifies this`files, this`written
      ensures Valid() && files == old(files)[k := blob] && written == old(written) + {(k, blob)}
    {
      files := files[k := blob];
      written := written + {(k, blob)};
    }

    /**
     The locked commit. A file removed since it was written cancels it; otherwise the record
     becomes the most recent one, and if the list is full the least recently touched element
     makes room for a new key.
     */
    method Commit(k: Key, size: nat, now: int)
      requires Valid() && maxItems > 0
      modifies this
      ensures Valid() && written == old(written) && hits == old(hits) && misses == old(misses)
      ensures nextId == old(nextId) + if k in old(files) && k !in old(idx) then 1 else 0
      ensures k !in old(files) ==>
                order == old(order) && idx == old(idx) && files == old(files)
                && stores == old(stores) && evictions == old(evictions)
      ensures k in old(files) && k in old(idx) ==>
                && idx == old(idx) && files == old(files) && stores == old(stores) && evictions == old(evictions)
                && exists p :: 0 <= p < |old(order)| && old(order)[p].key == k
                               && order == Without(old(order), p) + [Element(idx[k], k, now + ttl, size)]
      ensures k in old(files) && k !in old(idx) ==>
                && stores == old(stores) + 1
                && var r := Element(old(nextId), k, now + ttl, size);
                   if |old(order)| < maxItems
                   then order == old(order) + [r] && idx == old(idx)[k := r.id] && files == old(files) && evictions ==
                           old(evictions)
                   else var victim := old(order)[0];
                        && order == old(order)[1..] + [r] && idx == old(idx)[k := r.id] - {victim.key}
                        && files == old(files) - {victim.key} && evictions == old(evictions) + 1
                        && victim.key in old(idx)
                        && FrontIsOldest(old(order), old(touch))
    {
      hide Bijection, Recency, FilesMatch, Sizes, Without, FrontIsOldest;
      if k !in files {
        return;
      }
      if k in idx {
        var p := PositionOf(k);
        TouchAt(p, order[p].(expiresAt := now + ttl, sizeBytes := size));
      } else {
        CommitNew(Element(nextId, k, now + ttl, size));
      }
    }

    method CommitNew(r: Element)
      requires Valid() && maxItems > 0 && r.key !in idx && r.key in files && r.id == nextId
      modifies this
      ensures Valid() && written == old(written) && hits == old(hits)
      ensures misses == old(misses) && stores == old(stores) + 1
      ensures nextId == old(nextId) + 1
      ensures if |old(order)| < maxItems
              then order == old(order) + [r] && idx == old(idx)[r.key := r.id] && files == old(files) && evictions ==
                      old(evictions)
              else var victim := old(order)[0];
                   && order == old(order)[1..] + [r] && idx == old(idx)[r.key := r.id] - {victim.key}
                   && files == old(files) - {victim.key} && evictions == old(evictions) + 1
                   && victim.key in old(idx)
                   && FrontIsOldest(old(order), old(touch))
    {
      hide Bijection, Recency, FilesMatch, Sizes, Without, FrontIsOldest;
      LeastRecentFirst(order, touch, ticks);
      if order != [] {
        ElementIsIndexed(order, idx, nextId, 0);
        WithoutFront(order, r);
      }
      PushNew(r);
      stores := stores + 1;
      if |order| > maxItems {
        RemoveLocked(0);
        evictions := evictions + 1;
      }
    }

    /** `PushBack` of a record for a key that has none. */
    method PushNew(r: Element)
      requires Consistent() && r.key !in idx && r.key in files && r.id == nextId
      modifies this`order, this`idx, this`nextId, this`touch, this`ticks, this`bytesOnDisk
      ensures Consistent() && order == old(order) + [r] && idx == old(idx)[r.key := r.id] && nextId == old(nextId) + 1
    {
      hide Bijection, Recency, Sizes, FilesMatch;
      NewKeyIsPushed(order, idx, nextId, touch, ticks, r);
      SizesOfPush(order, r);
      PushKeepsFiles(idx, files, written, r);
      order := order + [r];
      idx := idx[r.key := r.id];
      nextId := nextId + 1;
      touch := touch[r.id := ticks];
      ticks := ticks + 1;
      bytesOnDisk := bytesOnDisk + r.sizeBytes;
    }

    // ----- the sections of Clear -----

    method ClearLocked()
      modifies this`order, this`idx, this`files, this`bytesOnDisk
      ensures Valid() && order == [] && idx == map[] && files == map[] && bytesOnDisk == 0
    {
      order, idx, files, bytesOnDisk := [], map[], map[], 0;
    }

    /** Behind the lock. */
    method ResetCounters()
      requires Valid()
      modifies this`hits, this`misses, this`stores, this`evictions
      ensures Valid() && hits == misses == stores == evictions == 0
    {
      hide Bijection, Recency, FilesMatch, Sizes;
      hits, misses, stores, evictions := 0, 0, 0, 0;
    }

    // ----- rehydration -----

    /**
     `reloadFromDisk` at start-up: expired files are deleted and the others indexed in listing
     order, until the listing ends or the capacity is reached. `seen` is how far it came.
     */
    method Reload(ents: seq<DirEntry>, now: int) returns (seen: nat)
      requires Valid() && maxItems > 0 && order == [] && idx == map[]
      requires Listing(ents) && Keys(ents) <= files.Keys
      modifies this
      ensures Valid() && written == old(written)
      ensures seen <= |ents| && (seen == |ents| || |order| == maxItems)
      ensures Reopened(ents[..seen], now, old(files))
      ensures forall i :: 0 <= i < |order| ==> now <= order[i].expiresAt
      ensures forall e :: e in ents[..seen] && now <= e.modTime + ttl ==> Fresh(order, e.key, e.modTime + ttl)
    {
      hide *;
      seen := 0;
      NothingYet(ents, now);
      ReopenedIsLive(ents[..0], now, files);
      while seen < |ents|
        invariant seen <= |ents| && Valid() && written == old(written) && |order| < maxItems
        invariant Reopened(ents[..seen], now, old(files))
        invariant forall i :: 0 <= i < |order| ==> now <= order[i].expiresAt
        invariant forall e :: e in ents[..seen] && now <= e.modTime + ttl ==> Fresh(order, e.key, e.modTime + ttl)
      {
        ReopenNext(ents, seen, now, old(files));
        seen := seen + 1;
        ReopenedIsLive(ents[..seen], now, old(files));
        if |order| >= maxItems {
          return;
        }
      }
    }

    /** The state after the files in `ents` have been gone through, starting from the directory `before`. */
    ghost predicate Reopened(ents: seq<DirEntry>, now: int, before: map<Key, Blob>)
      reads this
    {
      && Rehydrated(order, Live(ents, now, ttl), ttl)
      && files == before - Expired(ents, now, ttl)
      && idx.Keys <= Keys(ents)
    }

    lemma NothingYet(ents: seq<DirEntry>, now: int)
      requires order == [] && idx == map[]
      ensures Reopened(ents[..0], now, files)
    {
      NothingListed(ents, files, now, ttl);
    }

    lemma ReopenedIsLive(ents: seq<DirEntry>, now: int, before: map<Key, Blob>)
      requires Reopened(ents, now, before)
      ensures forall i :: 0 <= i < |order| ==> now <= order[i].expiresAt
      ensures forall e :: e in ents && now <= e.modTime + ttl ==> Fresh(order, e.key, e.modTime + ttl)
    {
      hide Live, Rehydrated, Fresh, Expired, Keys;
      LiveIsRehydrated(order, ents, now, ttl);
    }

    method ReopenNext(ents: seq<DirEntry>, n: nat, now: int, ghost before: map<Key, Blob>)
      requires Valid() && |order| < maxItems
      requires n < |ents| && Listing(ents) && Keys(ents) <= before.Keys && Reopened(ents[..n], now, before)
      modifies this
      ensures Valid() && |order| <= maxItems && written == old(written) && Reopened(ents[..n + 1], now, before)
    {
      hide Bijection, Recency, FilesMatch, Sizes, Live, Rehydrated, Expired, Keys, Listing;
      NextListed(ents, n, now, ttl, before);
      RehydratedPush(order, Live(ents[..n], now, ttl), ttl, nextId, ents[n]);
      Reopen(ents[n], now);
    }

    /** One listed file. */
    method Reopen(e: DirEntry, now: int)
      requires Valid() && |order| < maxItems && e.key in files && e.key !in idx
      modifies this
      ensures Valid() && written == old(written)
      ensures if now > e.modTime + ttl
              then order == old(order) && idx == old(idx) && files == old(files) - {e.key}
              else order == old(order) + [Element(old(nextId), e.key, e.modTime + ttl, e.size)]
                   && idx.Keys == old(idx).Keys + {e.key} && files == old(files)
    {
      hide Bijection, Recency, FilesMatch, Sizes;
      if now > e.modTime + ttl {
        DropFile(e.key);
      } else {
        PushNew(Element(nextId, e.key, e.modTime + ttl, e.size));
      }
    }

    method DropFile(k: Key)
      requires Valid() && k !in idx
      modifies this`files
      ensures Valid() && files == old(files) - {k}
    {
      hide Bijection, Recency, Sizes;
      files := files - {k};
    }

    // ----- whole calls, run alone -----

    method Clear()
      modifies this
      ensures Valid() && order == [] && idx == map[] && files == map[]
      ensures bytesOnDisk == 0 && written == old(written) && nextId == old(nextId)
      ensures hits == misses == stores == evictions == 0
    {
      ClearLocked();
      ResetCounters();
    }

    method Set(k: Key, v: Entry, now: int)
      requires Valid() && maxItems > 0
      modifies this
      ensures Valid()
      ensures v == Entry("", "") ==> order == old(order) && idx == old(idx) && files == old(files) && written == old(written)
      ensures v != Entry("", "") ==>
                && k in files && files[k] == codec.encode(v) && k in idx
                && (Lawful(codec) ==> codec.decode(files[k]) == Some(v))
                && (forall t :: t <= now + ttl ==> Fresh(order, k, t))
                && order != [] && order[|order| - 1].key == k && order[|order| - 1].expiresAt == now + ttl
    {
      hide *;
      if v.text == "" && v.thinking == "" {
        return;
      }
      var blob := codec.encode(v);
      WriteFile(k, blob);
      Commit(k, |blob|, now);
      StaysFresh(order, k, now + ttl);
      ReadsBack(codec, v);
    }

    method Get(k: Key, now: int) returns (r: Option<Entry>)
      requires Valid()
      modifies this
      ensures Valid() && written == old(written)
      ensures hits + misses == old(hits + misses) + 1 && (r.Some? <==> hits == old(hits) + 1)
      ensures r.Some? ==> exists blob :: (k, blob) in written && codec.decode(blob) == r
      ensures r == if (exists p :: 0 <= p < |old(order)| && old(order)[p].key == k && now <= old(order)[p].expiresAt)
                      && k in old(files) then codec.decode(old(files)[k]) else None
    {
      hide Bijection, Recency, FilesMatch, Sizes, Fresh, MovedToBack, TakenOut;
      FreshIs(order, k, now);
      var found := Lookup(k, now);
      if found.None? {
        return None;
      }
      var raw := ReadFile(k);
      if raw.None? {
        DropStale(k, found.value);
        return None;
      }
      r := codec.decode(raw.value);
      if r.None? {
        DropStale(k, found.value);
        return None;
      }
      Hit();
    }
  }

  // ----- whole runs -----

  /** A section of some goroutine, with the arguments that goroutine has by then. */
  datatype Section =
    | GetLookup(k: Key, now: int)
    | GetDrop(k: Key, id: nat)
    | GetHit
    | SetWrite(k: Key, blob: Blob)
    | SetCommit(k: Key, size: nat, now: int)
    | ClearAll
    | ClearCounters

  function Writes(sections: seq<Section>): set<(Key, Blob)> {
    if sections == [] then {}
    else
      var s := sections[|sections| - 1];
      Writes(sections[..|sections| - 1]) + if s.SetWrite? then {(s.k, s.blob)} else {}
  }

  method RunSection(cache: Cache, s: Section)
    requires cache.Valid() && cache.maxItems > 0
    modifies cache
    ensures cache.Valid()
    ensures cache.written == old(cache.written) + if s.SetWrite? then {(s.k, s.blob)} else {}
  {
    hide *;
    match s
    case GetLookup(k, now) => var _ := cache.Lookup(k, now);
    case GetDrop(k, id) => cache.DropStale(k, id);
    case GetHit => cache.Hit();
    case SetWrite(k, blob) => cache.WriteFile(k, blob);
    case SetCommit(k, size, now) => cache.Commit(k, size, now);
    case ClearAll => cache.ClearLocked();
    case ClearCounters => cache.ResetCounters();
  }

  /**
   Any number of goroutines after a start over any directory: their sections in any order, with
   arguments as stale as may be. List, index, recency and byte count stay in step and within the
   capacity, every indexed key has its file, and every file was written for its key, in this run or
   before it.
   */
  method Run(maxItems: nat, ttl: int, codec: EntryCodec, onDisk: map<Key, Blob>, ents: seq<DirEntry>, start: int,
             sections: seq<Section>)
    returns (cache: Cache)
    requires maxItems > 0 && Listing(ents) && Keys(ents) <= onDisk.Keys
    ensures cache.Valid() && |cache.order| <= maxItems && cache.bytesOnDisk == Sizes(cache.order)
    ensures forall k :: k in cache.idx <==> HasKey(cache.order, k)
    ensures forall k :: k in cache.idx ==> k in cache.files
    ensures forall k :: k in cache.files ==> (k, cache.files[k]) in onDisk.Items + Writes(sections)
  {
    hide Bijection, Recency, FilesMatch, Sizes, Keys, Listing, HasKey;
    cache := new Cache(maxItems, ttl, codec, onDisk);
    var _ := cache.Reload(ents, start);
    for i := 0 to |sections|
      invariant fresh(cache) && cache.Valid() && cache.maxItems == maxItems
      invariant cache.written == onDisk.Items + Writes(sections[..i])
    {
      assert sections[..i + 1][..i] == sections[..i];
      RunSection(cache, sections[i]);
    }
    assert sections[..|sections|] == sections;
    InStep(cache.order, cache.idx, cache.nextId, cache.files, cache.written);
  }

  lemma InStep(order: seq<Element>, idx: map<Key, nat>, nextId: nat, files: map<Key, Blob>, written: set<(Key, Blob)>)
    requires Bijection(order, idx, nextId) && FilesMatch(idx, files, written)
    ensures forall k :: k in idx <==> HasKey(order, k)
    ensures forall k :: k in idx ==> k in files
    ensures forall k :: k in files ==> (k, files[k]) in written
  {
  }
}
