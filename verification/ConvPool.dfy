/**
 The cascade reuse pool (`internal/convpool/pool.go`): fingerprints of conversations, and the
 pool of entries kept under them. The hash and the JSON codec are parameters; that different
 inputs hash differently is stated where it is needed.
 */
module ConvPool {
  import opened Options
  import opened GoStrings
  import opened Json

  // ----- fingerprints -----

  datatype Message = Message(role: string, content: Json)
  datatype Canonical = Canonical(role: string, content: string)

  /** `canonicaliseContent`: text as it is, the parts of a list end to end, anything else as JSON. */
  function ContentText(c: Codec, v: Json): string {
    match v
    case Str(s) => s
    case Arr(parts) => PartsText(c, parts)
    case _ => c.marshal(v)
  }

  function PartText(c: Codec, part: Json): string {
    match part
    case Obj(m) => if "text" in m && m["text"].Str? then m["text"].s else c.marshal(part)
    case _ => ""
  }

  function PartsText(c: Codec, parts: seq<Json>): string {
    if parts == [] then "" else PartText(c, parts[0]) + PartsText(c, parts[1..])
  }

  function Canonicalise(c: Codec, msgs: seq<Message>): (r: seq<Canonical>)
    ensures |r| == |msgs|
  {
    seq(|msgs|, i requires 0 <= i < |msgs| => Canonical(msgs[i].role, ContentText(c, msgs[i].content)))
  }

  function AsJson(h: seq<Canonical>): Json {
    Arr(seq(|h|, i requires 0 <= i < |h| => Obj(map["role" := Str(h[i].role), "content" := Str(h[i].content)])))
  }

  /** The bytes that are hashed: the salt and the canonical history as JSON. */
  function Keyed(c: Codec, salt: string, h: seq<Canonical>): string {
    ScopedBytes(c, salt, AsJson(h))
  }

  predicate HasAssistant(msgs: seq<Message>) {
    exists i :: 0 <= i < |msgs| && msgs[i].role == "assistant"
  }

  type Hash = string -> string

  function FingerprintBefore(c: Codec, hash: Hash, msgs: seq<Message>, salt: string): string {
    if |msgs| < 2 then ""
    else
      var hist := msgs[..|msgs| - 1];
      if !HasAssistant(hist) then "" else hash(Keyed(c, salt, Canonicalise(c, hist)))
  }

  function FingerprintAfter(c: Codec, hash: Hash, msgs: seq<Message>, answer: string, salt: string): string {
    hash(Keyed(c, salt, Canonicalise(c, msgs + [Message("assistant", Str(answer))])))
  }

  /**
   What is checked in after a turn is what the next request looks up, whatever its last message is
   and however it writes the earlier ones down, as long as they read the same.
   */
  lemma NextTurnFindsIt(c: Codec, hash: Hash, msgs: seq<Message>, answer: string, salt: string, next: seq<Message>)
    requires next != []
    requires Canonicalise(c, next[..|next| - 1]) == Canonicalise(c, msgs + [Message("assistant", Str(answer))])
    ensures FingerprintBefore(c, hash, next, salt) == FingerprintAfter(c, hash, msgs, answer, salt)
  {
    var full, hist := msgs + [Message("assistant", Str(answer))], next[..|next| - 1];
    assert Canonicalise(c, full)[|msgs|].role == "assistant";
    assert hist[|msgs|].role == "assistant";
  }

  /** In particular when the history is repeated as it was and any message follows. */
  lemma RepeatedHistoryFindsIt(c: Codec, hash: Hash, msgs: seq<Message>, answer: string, salt: string, user: Message)
    ensures FingerprintBefore(c, hash, msgs + [Message("assistant", Str(answer)), user], salt)
            == FingerprintAfter(c, hash, msgs, answer, salt)
  {
    var next := msgs + [Message("assistant", Str(answer)), user];
    assert next[..|next| - 1] == msgs + [Message("assistant", Str(answer))];
    NextTurnFindsIt(c, hash, msgs, answer, salt, next);
  }

  /** A content of text: the text itself, or objects whose texts, end to end, are it. */
  ghost predicate SaysText(v: Json, text: string) {
    || v == Str(text)
    || exists texts :: Concat(texts) == text && v == TextParts(texts)
  }

  function TextParts(texts: seq<string>): Json {
    Arr(seq(|texts|, i requires 0 <= i < |texts| => Obj(map["text" := Str(texts[i])])))
  }

  /** An answer split into text parts reads the same as the answer in one string, and both as the answer itself. */
  lemma {:induction false} TextPartsReadAsText(c: Codec, texts: seq<string>)
    ensures ContentText(c, TextParts(texts)) == ContentText(c, Str(Concat(texts))) == Concat(texts)
  {
    var parts := TextParts(texts).elems;
    if texts != [] {
      TextPartsReadAsText(c, texts[1..]);
      assert parts[1..] == TextParts(texts[1..]).elems;
    }
  }

  lemma TextIsSaid(c: Codec, v: Json, text: string)
    requires SaysText(v, text)
    ensures ContentText(c, v) == text
  {
    if v != Str(text) {
      var texts :| Concat(texts) == text && v == TextParts(texts);
      TextPartsReadAsText(c, texts);
    }
  }

  /** Anything else, alone or as the one part of a list, is read as JSON that decodes to it. */
  lemma OtherContentIsJson(c: Codec, v: Json)
    requires Lawful(c)
    ensures !v.Str? && !v.Arr? ==> c.unmarshal(ContentText(c, v)) == Some(v)
    ensures v.Obj? && "text" !in v.fields ==> c.unmarshal(ContentText(c, Arr([v]))) == Some(v)
  {
    MarshalInverts(c, v);
    hide Lawful;
    if v.Obj? && "text" !in v.fields {
      var parts := [v];
      assert parts[1..] == [];
      assert PartsText(c, parts) == c.marshal(v) + "" == c.marshal(v);
    }
  }

  lemma MarshalInverts(c: Codec, v: Json)
    requires Lawful(c)
    ensures c.unmarshal(c.marshal(v)) == Some(v)
  {
  }

  /** The messages are texts: `texts` has what each says. */
  ghost predicate SayTexts(msgs: seq<Message>, texts: seq<string>) {
    |texts| == |msgs| && forall i :: 0 <= i < |msgs| ==> SaysText(msgs[i].content, texts[i])
  }

  /**
   The same roles and, so far as texts are said, the same texts; if all contents are strings, the same
   messages.
   */
  ghost predicate SameConversation(h1: seq<Message>, h2: seq<Message>) {
    && |h1| == |h2| && (forall i :: 0 <= i < |h1| ==> h1[i].role == h2[i].role)
    && (forall t1, t2 :: SayTexts(h1, t1) && SayTexts(h2, t2) ==> t1 == t2)
    && ((forall m :: m in h1 || m in h2 ==> m.content.Str?) ==> h1 == h2)
  }

  lemma ReadsTheSame(c: Codec, h1: seq<Message>, h2: seq<Message>)
    requires Canonicalise(c, h1) == Canonicalise(c, h2)
    ensures SameConversation(h1, h2)
  {
    SameRoles(c, h1, h2);
    hide Canonicalise, SayTexts;
    forall t1, t2 | SayTexts(h1, t1) && SayTexts(h2, t2)
      ensures t1 == t2
    {
      SameTexts(c, h1, h2, t1, t2);
    }
    if forall m :: m in h1 || m in h2 ==> m.content.Str? {
      StringsSayTexts(h1);
      StringsSayTexts(h2);
      forall i | 0 <= i < |h1|
        ensures h1[i] == h2[i]
      {
        assert h1[i] in h1 && h2[i] in h2 && Spoken(h1)[i] == Spoken(h2)[i];
      }
    }
  }

  lemma SameRoles(c: Codec, h1: seq<Message>, h2: seq<Message>)
    requires Canonicalise(c, h1) == Canonicalise(c, h2)
    ensures |h1| == |h2|
    ensures forall i :: 0 <= i < |h1| ==>
              h1[i].role == h2[i].role && ContentText(c, h1[i].content) == ContentText(c, h2[i].content)
  {
    hide ContentText;
    var c1, c2 := Canonicalise(c, h1), Canonicalise(c, h2);
    assert |h1| == |c1| && |h2| == |c2|;
    forall i | 0 <= i < |h1|
      ensures h1[i].role == h2[i].role && ContentText(c, h1[i].content) == ContentText(c, h2[i].content)
    {
      assert c1[i] == c2[i];
    }
  }

  lemma SameTexts(c: Codec, h1: seq<Message>, h2: seq<Message>, t1: seq<string>, t2: seq<string>)
    requires Canonicalise(c, h1) == Canonicalise(c, h2) && SayTexts(h1, t1) && SayTexts(h2, t2)
    ensures t1 == t2
  {
    SameRoles(c, h1, h2);
    hide ContentText, SaysText, Canonicalise;
    forall i | 0 <= i < |h1|
      ensures t1[i] == t2[i]
    {
      TextIsSaid(c, h1[i].content, t1[i]);
      TextIsSaid(c, h2[i].content, t2[i]);
    }
  }

  lemma StringsSayTexts(h: seq<Message>)
    requires forall m :: m in h ==> m.content.Str?
    ensures SayTexts(h, Spoken(h))
    ensures forall i :: 0 <= i < |h| ==> h[i].content == Str(Spoken(h)[i])
  {
    assert forall i :: 0 <= i < |h| ==> h[i] in h;
  }

  function Spoken(h: seq<Message>): seq<string> {
    seq(|h|, i requires 0 <= i < |h| => if h[i].content.Str? then h[i].content.s else "")
  }

  /** Nothing is looked up unless the assistant has spoken before the last message. */
  lemma NothingLookedUpIff(c: Codec, hash: Hash, msgs: seq<Message>, salt: string)
    requires forall x :: hash(x) != ""
    ensures FingerprintBefore(c, hash, msgs, salt) != "" <==> exists i :: 0 <= i < |msgs| - 1 && msgs[i].role == "assistant"
  {
    hide Keyed;
    if |msgs| >= 2 {
      var hist := msgs[..|msgs| - 1];
      assert forall i :: 0 <= i < |hist| ==> hist[i] == msgs[i];
    }
  }

  /** Different callers or different histories are never hashed from the same bytes. */
  lemma KeyedIsInjective(c: Codec, s1: string, h1: seq<Canonical>, s2: string, h2: seq<Canonical>)
    requires Lawful(c) && Keyed(c, s1, h1) == Keyed(c, s2, h2)
    ensures s1 == s2 && h1 == h2
  {
    ScopedBytesAreInjective(c, s1, AsJson(h1), s2, AsJson(h2));
    AsJsonIsInjective(h1, h2);
  }

  lemma AsJsonIsInjective(h1: seq<Canonical>, h2: seq<Canonical>)
    requires AsJson(h1) == AsJson(h2)
    ensures h1 == h2
  {
    forall i | 0 <= i < |h1|
      ensures |h2| == |h1| && h1[i] == h2[i]
    {
      var o1, o2 := AsJson(h1).elems[i], AsJson(h2).elems[i];
      assert o1.fields["role"] == Str(h1[i].role) && o2.fields["role"] == Str(h2[i].role);
      assert o1.fields["content"] == Str(h1[i].content) && o2.fields["content"] == Str(h2[i].content);
    }
    assert |AsJson(h1).elems| == |h1| && |AsJson(h2).elems| == |h2|;
  }

  // ----- the pool -----

  /** How long an entry may lie unused. */
  function Ttl(): int {
    600_000
  }
  const MaxEntries := 500

  /** `serial` tells check-ins apart. */
  datatype Entry = Entry(cascadeId: string, sessionId: string, lsPort: int, apiKey: string, lastAccess: int, serial: nat)

  /** Whose conversation a check-in was made for. */
  datatype Owner = Owner(salt: string, history: seq<Canonical>)

  /** The entry is filed under its owner's fingerprint and has not been handed out. */
  ghost predicate Filed(c: Codec, hash: Hash, fp: string, e: Entry, owners: map<nat, Owner>, handedOut: set<nat>) {
    && e.serial !in handedOut && e.serial in owners
    && fp == hash(Keyed(c, owners[e.serial].salt, owners[e.serial].history))
  }

  /** Every entry is filed, and no check-in is there twice. */
  ghost predicate Sound(c: Codec, hash: Hash, pool: map<string, Entry>, owners: map<nat, Owner>, handedOut: set<nat>,
                        nextSerial: nat) {
    && "" !in pool
    && (forall fp :: fp in pool ==> Filed(c, hash, fp, pool[fp], owners, handedOut) && pool[fp].serial < nextSerial)
    && (forall x, y :: x in pool && y in pool && pool[x].serial == pool[y].serial ==> x == y)
    && (forall n :: n in handedOut ==> n < nextSerial)
  }

  lemma RemovalIsSound(c: Codec, hash: Hash, pool: map<string, Entry>, owners: map<nat, Owner>, handedOut: set<nat>,
                       nextSerial: nat, fp: string)
    requires Sound(c, hash, pool, owners, handedOut, nextSerial) && fp in pool
    ensures Sound(c, hash, pool - {fp}, owners, handedOut, nextSerial)
    ensures Sound(c, hash, pool - {fp}, owners, handedOut + {pool[fp].serial}, nextSerial)
    ensures pool[fp].serial !in handedOut
  {
    hide Keyed;
  }

  lemma StoreIsSound(c: Codec, hash: Hash, pool: map<string, Entry>, owners: map<nat, Owner>, handedOut: set<nat>,
                     nextSerial: nat,
                     fp: string, e: Entry, owner: Owner)
    requires Sound(c, hash, pool, owners, handedOut, nextSerial)
    requires fp != "" && e.serial == nextSerial && fp == hash(Keyed(c, owner.salt, owner.history))
    ensures Sound(c, hash, pool[fp := e], owners[e.serial := owner], handedOut, nextSerial + 1)
  {
    hide Keyed;
  }

  class Pool {
    const c: Codec
    const hash: Hash
    var pool: map<string, Entry>
    var hits: nat
    var misses: nat
    var stores: nat
    var evictions: nat
    var expired: nat

    ghost var owners: map<nat, Owner>
    /** The check-ins that were handed out. */
    ghost var handedOut: set<nat>
    var nextSerial: nat

    ghost predicate Valid()
      reads this
    {
      |pool| <= MaxEntries && Sound(c, hash, pool, owners, handedOut, nextSerial)
    }

    constructor (c: Codec, hash: Hash)
      ensures Valid() && this.c == c && this.hash == hash && pool == map[] && handedOut == {} && nextSerial == 0
    {
      this.c, this.hash, pool, owners, handedOut, nextSerial := c, hash, map[], map[], {}, 0;
      hits, misses, stores, evictions, expired := 0, 0, 0, 0, 0;
    }

    /** The entry leaves the pool whatever happens; a fresh one is returned. */
    method Checkout(fp: string, now: int) returns (r: Option<Entry>)
      requires Valid()
      modifies this
      ensures Valid() && nextSerial == old(nextSerial) && owners == old(owners)
      ensures pool == old(pool) - {fp}
      ensures r == if fp in old(pool) && now - old(pool)[fp].lastAccess <= Ttl() then Some(old(pool)[fp]) else None
      ensures r.Some? ==> r.value.serial !in old(handedOut) && handedOut == old(handedOut) + {r.value.serial}
      ensures r.None? ==> handedOut == old(handedOut)
      ensures hits + misses + expired == old(hits + misses + expired) + 1 && (r.Some? <==> hits == old(hits) + 1)
    {
      hide *;
      EmptyKey();
      if fp == "" || fp !in pool {
        Miss(fp);
        return None;
      }
      var e := pool[fp];
      if now - e.lastAccess > Ttl() {
        Drop(fp);
        return None;
      }
      HandOut(fp);
      return Some(e);
    }

    lemma EmptyKey()
      requires Valid()
      ensures "" !in pool
    {
    }

    method Miss(fp: string)
      requires Valid() && fp !in pool
      modifies this`misses
      ensures Valid() && misses == old(misses) + 1 && pool == old(pool) - {fp}
    {
      misses := misses + 1;
    }

    method Drop(fp: string)
      requires Valid() && fp in pool
      modifies this`pool, this`expired
      ensures Valid() && pool == old(pool) - {fp} && expired == old(expired) + 1
    {
      hide Sound;
      RemovalIsSound(c, hash, pool, owners, handedOut, nextSerial, fp);
      SizeWithout(pool, fp);
      pool := pool - {fp};
      expired := expired + 1;
    }

    method HandOut(fp: string)
      requires Valid() && fp in pool
      modifies this`pool, this`hits, this`handedOut
      ensures Valid() && pool == old(pool) - {fp} && hits == old(hits) + 1
      ensures old(pool)[fp].serial !in old(handedOut) && handedOut == old(handedOut) + {old(pool)[fp].serial}
    {
      hide Sound;
      RemovalIsSound(c, hash, pool, owners, handedOut, nextSerial, fp);
      SizeWithout(pool, fp);
      handedOut := handedOut + {pool[fp].serial};
      pool := pool - {fp};
      hits := hits + 1;
    }

    /** Stored under its fingerprint; over capacity an entry no other was stored before goes. */
    method Checkin(fp: string, cascadeId: string, sessionId: string, lsPort: int, apiKey: string, now: int,
                   ghost owner: Owner)
      requires Valid() && (fp != "" ==> fp == hash(Keyed(c, owner.salt, owner.history)))
      modifies this
      ensures Valid() && handedOut == old(handedOut)
      ensures fp == "" ==> pool == old(pool) && owners == old(owners) && nextSerial == old(nextSerial)
      ensures fp != "" ==>
                && nextSerial == old(nextSerial) + 1 && owners == old(owners)[old(nextSerial) := owner]
                && var stored := old(pool)[fp := Entry(cascadeId, sessionId, lsPort, apiKey, now, old(nextSerial))];
                   if |stored| <= MaxEntries then pool == stored && evictions == old(evictions)
                   else evictions == old(evictions) + 1 && exists victim ::
                           Oldest(stored, victim) && pool == stored - {victim}
    {
      hide Keyed, Sound, Oldest;
      if fp == "" {
        return;
      }
      var e := Entry(cascadeId, sessionId, lsPort, apiKey, now, nextSerial);
      StoreIsSound(c, hash, pool, owners, handedOut, nextSerial, fp, e, owner);
      SizeWith(pool, fp, e);
      pool := pool[fp := e];
      owners := owners[e.serial := owner];
      nextSerial := nextSerial + 1;
      stores := stores + 1;
      if |pool| > MaxEntries {
        Evict();
      }
    }

    method Evict()
      requires Sound(c, hash, pool, owners, handedOut, nextSerial) && |pool| > 0
      modifies this`pool, this`evictions
      ensures Sound(c, hash, pool, owners, handedOut, nextSerial) && |pool| == |old(pool)| - 1
      ensures evictions == old(evictions) + 1 && exists victim ::
              Oldest(old(pool), victim) && pool == old(pool) - {victim}
    {
      hide Keyed, Sound, Oldest;
      var oldest := FindOldest(pool);
      RemovalIsSound(c, hash, pool, owners, handedOut, nextSerial, oldest);
      SizeWithout(pool, oldest);
      pool := pool - {oldest};
      evictions := evictions + 1;
    }

    /** Entries of an account or a language server that is gone. */
    method InvalidateFor(apiKey: string, lsPort: int) returns (n: nat)
      requires Valid()
      modifies this`pool
      ensures Valid()
      ensures pool == map fp | fp in old(pool) && !Belongs(old(pool)[fp], apiKey, lsPort) :: old(pool)[fp]
      ensures n == |old(pool)| - |pool|
    {
      hide Keyed, Sound, Belongs;
      n := 0;
      var todo := pool.Keys;
      while todo != {}
        invariant Valid() && todo <= pool.Keys <= old(pool).Keys
        invariant forall fp :: fp in pool ==> pool[fp] == old(pool)[fp]
        invariant forall fp :: fp in old(pool) && fp !in todo ==>
                (fp in pool <==> !Belongs(old(pool)[fp], apiKey, lsPort))
        invariant n == |old(pool)| - |pool|
        decreases |todo|
      {
        var fp :| fp in todo;
        if Belongs(pool[fp], apiKey, lsPort) {
          SizeWithout(pool, fp);
          RemovalIsSound(c, hash, pool, owners, handedOut, nextSerial, fp);
          pool := pool - {fp};
          n := n + 1;
        }
        todo := todo - {fp};
      }
      assert todo == {};
    }

    /**
     What a request finds under its fingerprint was checked in by the same caller for a conversation
     that reads the same, provided the hash tells different bytes apart.
     */
    lemma FoundIsOnesOwn(msgs: seq<Message>, salt: string)
      requires Valid() && Lawful(c) && forall a, b :: hash(a) == hash(b) ==> a == b
      requires FingerprintBefore(c, hash, msgs, salt) in pool
      ensures |msgs| >= 2 && pool[FingerprintBefore(c, hash, msgs, salt)].serial in owners
      ensures owners[pool[FingerprintBefore(c, hash, msgs, salt)].serial] ==
              Owner(salt, Canonicalise(c, msgs[..|msgs| - 1]))
      ensures forall turn {:trigger Canonicalise(c, turn)} ::
                owners[pool[FingerprintBefore(c, hash, msgs, salt)].serial] == Owner(salt, Canonicalise(c, turn)) ==>
                  SameConversation(msgs[..|msgs| - 1], turn)
    {
      var fp := FingerprintBefore(c, hash, msgs, salt);
      var owner := owners[pool[fp].serial];
      var h := Canonicalise(c, msgs[..|msgs| - 1]);
      hide Lawful, Canonicalise;
      assert hash(Keyed(c, salt, h)) == hash(Keyed(c, owner.salt, owner.history));
      KeyedIsInjective(c, salt, h, owner.salt, owner.history);
      forall turn {:trigger Canonicalise(c, turn)} | owner == Owner(salt, Canonicalise(c, turn))
        ensures SameConversation(msgs[..|msgs| - 1], turn)
      {
        ReadsTheSame(c, msgs[..|msgs| - 1], turn);
      }
    }
  }

  predicate Belongs(e: Entry, apiKey: string, lsPort: int) {
    (apiKey != "" && e.apiKey == apiKey) || (lsPort != 0 && e.lsPort == lsPort)
  }

  lemma SizeWith(m: map<string, Entry>, k: string, e: Entry)
    ensures |m[k := e]| <= |m| + 1 && |m[k := e]| > 0
  {
    assert m[k := e].Keys == m.Keys + {k};
    assert |m.Keys| == |m| && |m[k := e].Keys| == |m[k := e]|;
  }

  lemma SizeWithout(m: map<string, Entry>, k: string)
    requires k in m
    ensures |m - {k}| == |m| - 1
  {
    assert (m - {k}).Keys == m.Keys - {k};
    assert |m.Keys| == |m| && |(m - {k}).Keys| == |m - {k}|;
  }

  method FindOldest(entries: map<string, Entry>) returns (oldest: string)
    requires |entries| > 0
    ensures Oldest(entries, oldest) && oldest in entries
  {
    var todo := entries.Keys;
    assert |todo| > 0;
    oldest :| oldest in todo;
    todo := todo - {oldest};
    while todo != {}
      invariant todo <= entries.Keys && oldest in entries
      invariant forall x :: x in entries && x !in todo ==> entries[oldest].lastAccess <= entries[x].lastAccess
      decreases |todo|
    {
      var k :| k in todo;
      if entries[k].lastAccess < entries[oldest].lastAccess {
        oldest := k;
      }
      todo := todo - {k};
    }
  }

  /** Nothing in the map was accessed before the entry of this key. */
  ghost predicate Oldest(entries: map<string, Entry>, k: string) {
    k in entries && forall x :: x in entries ==> entries[k].lastAccess <= entries[x].lastAccess
  }

  // ----- whole runs -----

  /** A request that looks its conversation up, a finished turn that is stored, an account or server that goes. */
  datatype Event =
    | LookUp(msgs: seq<Message>, salt: string, now: int)
    | Store(msgs: seq<Message>, answer: string, salt: string, cascadeId: string, sessionId: string,
            lsPort: int, apiKey: string, now: int)
    | Invalidate(apiKey: string, lsPort: int)

  /** A stored turn: the messages and the answer to them. */
  function Turn(e: Event): seq<Message>
    requires e.Store?
  {
    e.msgs + [Message("assistant", Str(e.answer))]
  }

  /** Whom a stored turn belongs to. */
  function OwnerOf(c: Codec, e: Event): Owner
    requires e.Store?
  {
    Owner(e.salt, Canonicalise(c, Turn(e)))
  }

  /** The check-ins in order are the stores in order: `from` has the event of each. */
  ghost predicate Traced(c: Codec, events: seq<Event>, n: nat, from: seq<nat>, owners: map<nat, Owner>, nextSerial: nat)
    requires n <= |events|
  {
    && |from| == nextSerial
    && (forall s :: 0 <= s < nextSerial ==>
          from[s] < n && events[from[s]].Store? && s in owners && owners[s] == OwnerOf(c, events[from[s]]))
    && (forall s, t :: 0 <= s < t < nextSerial ==> from[s] < from[t])
  }

  /** The entry is what its store put in. */
  ghost predicate AsStored(e: Entry, events: seq<Event>, from: seq<nat>) {
    && e.serial < |from| && from[e.serial] < |events|
    && var s := events[from[e.serial]];
       s.Store? && (e.cascadeId, e.sessionId, e.lsPort, e.apiKey, e.lastAccess) ==
                   (s.cascadeId, s.sessionId, s.lsPort, s.apiKey, s.now)
  }

  /** What the `i`-th event found is what the `j`-th stored, for the same caller and the same conversation. */
  ghost predicate FoundFrom(c: Codec, events: seq<Event>, i: nat, e: Entry, j: nat) {
    && j < i < |events| && events[i].LookUp? && events[j].Store?
    && e.cascadeId == events[j].cascadeId && e.sessionId == events[j].sessionId
    && e.lsPort == events[j].lsPort && e.apiKey == events[j].apiKey
    && events[i].now - events[j].now <= 600_000
    && |events[i].msgs| >= 2
    && events[i].salt == events[j].salt
    && SameConversation(events[i].msgs[..|events[i].msgs| - 1], Turn(events[j]))
    && Owner(events[i].salt, Canonicalise(c, events[i].msgs[..|events[i].msgs| - 1])) == OwnerOf(c, events[j])
  }

  ghost predicate AllAsStored(pool: map<string, Entry>, events: seq<Event>, from: seq<nat>) {
    forall fp :: fp in pool ==> AsStored(pool[fp], events, from)
  }

  ghost predicate Injective(hash: Hash) {
    forall a, b :: hash(a) == hash(b) ==> a == b
  }

  lemma WhatIsFound(p: Pool, events: seq<Event>, i: nat, from: seq<nat>)
    requires p.Valid() && Lawful(p.c) && Injective(p.hash)
    requires i < |events| && events[i].LookUp?
    requires Traced(p.c, events, i, from, p.owners, p.nextSerial) && AllAsStored(p.pool, events, from)
    ensures var fp := FingerprintBefore(p.c, p.hash, events[i].msgs, events[i].salt);
            fp in p.pool && events[i].now - p.pool[fp].lastAccess <= Ttl() ==>
              && p.pool[fp].serial < |from|
              && FoundFrom(p.c, events, i, p.pool[fp], from[p.pool[fp].serial])
  {
    var fp := FingerprintBefore(p.c, p.hash, events[i].msgs, events[i].salt);
    if fp in p.pool {
      SerialIsOld(p, fp);
      hide Lawful, FingerprintBefore, Canonicalise, Pool.Valid, SameConversation;
      p.FoundIsOnesOwn(events[i].msgs, events[i].salt);
      var j := from[p.pool[fp].serial];
      ReadsTheSame(p.c, events[i].msgs[..|events[i].msgs| - 1], Turn(events[j]));
    }
  }

  lemma SerialIsOld(p: Pool, fp: string)
    requires p.Valid() && fp in p.pool
    ensures p.pool[fp].serial < p.nextSerial
  {
  }

  method ServeLookUp(p: Pool, events: seq<Event>, i: nat, ghost from: seq<nat>) returns (r: Option<Entry>)
    requires p.Valid() && Lawful(p.c) && Injective(p.hash)
    requires i < |events| && events[i].LookUp?
    requires Traced(p.c, events, i, from, p.owners, p.nextSerial) && AllAsStored(p.pool, events, from)
    modifies p
    ensures p.Valid() && Traced(p.c, events, i + 1, from, p.owners, p.nextSerial) && AllAsStored(p.pool, events, from)
    ensures r.Some? ==>
              && r.value.serial !in old(p.handedOut) && p.handedOut == old(p.handedOut) + {r.value.serial}
              && r.value.serial < |from| && FoundFrom(p.c, events, i, r.value, from[r.value.serial])
    ensures r.None? ==> p.handedOut == old(p.handedOut)
  {
    hide Pool.Valid, Lawful, Injective, FingerprintBefore, FoundFrom, AsStored, OwnerOf;
    WhatIsFound(p, events, i, from);
    r := p.Checkout(FingerprintBefore(p.c, p.hash, events[i].msgs, events[i].salt), events[i].now);
  }

  method ServeStore(p: Pool, events: seq<Event>, i: nat, ghost from: seq<nat>) returns (ghost more: seq<nat>)
    requires p.Valid() && i < |events| && events[i].Store?
    requires Traced(p.c, events, i, from, p.owners, p.nextSerial) && AllAsStored(p.pool, events, from)
    modifies p
    ensures p.Valid() && Traced(p.c, events, i + 1, more, p.owners, p.nextSerial) && AllAsStored(p.pool, events, more)
    ensures from <= more && p.handedOut == old(p.handedOut)
  {
    var Store(msgs, answer, salt, cascadeId, sessionId, lsPort, apiKey, now) := events[i];
    var fp := FingerprintAfter(p.c, p.hash, msgs, answer, salt);
    ghost var owner := OwnerOf(p.c, events[i]);
    assert fp == p.hash(Keyed(p.c, owner.salt, owner.history));
    hide Pool.Valid, FingerprintAfter, Keyed, OwnerOf, Oldest, Traced, AllAsStored;
    TraceGrows(p.c, events, i, from, p.owners, p.nextSerial);
    FilesTheNext(p.pool, events, i, from, fp, Entry(cascadeId, sessionId, lsPort, apiKey, now, |from|));
    p.Checkin(fp, cascadeId, sessionId, lsPort, apiKey, now, owner);
    more := if fp == "" then from else from + [i];
  }

  lemma TraceGrows(c: Codec, events: seq<Event>, i: nat, from: seq<nat>, owners: map<nat, Owner>, nextSerial: nat)
    requires i < |events| && events[i].Store? && Traced(c, events, i, from, owners, nextSerial)
    ensures |from| == nextSerial && Traced(c, events, i + 1, from, owners, nextSerial)
    ensures Traced(c, events, i + 1, from + [i], owners[nextSerial := OwnerOf(c, events[i])], nextSerial + 1)
  {
    hide OwnerOf;
  }

  lemma FilesTheNext(pool: map<string, Entry>, events: seq<Event>, i: nat, from: seq<nat>, fp: string, e: Entry)
    requires i < |events| && events[i].Store? && AllAsStored(pool, events, from) && e.serial == |from|
    requires (e.cascadeId, e.sessionId, e.lsPort, e.apiKey, e.lastAccess) ==
             (events[i].cascadeId, events[i].sessionId, events[i].lsPort, events[i].apiKey, events[i].now)
    ensures AllAsStored(pool[fp := e], events, from + [i])
    ensures forall victim :: AllAsStored(pool[fp := e] - {victim}, events, from + [i])
  {
    forall x | x in pool
      ensures AsStored(pool[x], events, from + [i])
    {
      assert AsStored(pool[x], events, from);
    }
    assert AsStored(e, events, from + [i]);
    hide AsStored;
  }

  method ServeInvalidate(p: Pool, events: seq<Event>, i: nat, ghost from: seq<nat>)
    requires p.Valid() && i < |events| && events[i].Invalidate?
    requires Traced(p.c, events, i, from, p.owners, p.nextSerial) && AllAsStored(p.pool, events, from)
    modifies p
    ensures p.Valid() && Traced(p.c, events, i + 1, from, p.owners, p.nextSerial) && AllAsStored(p.pool, events, from)
    ensures p.handedOut == old(p.handedOut)
  {
    hide Pool.Valid, AsStored, OwnerOf, Belongs;
    var _ := p.InvalidateFor(events[i].apiKey, events[i].lsPort);
  }

  /** What was found so far, no check-in twice. */
  ghost predicate AllFound(c: Codec, events: seq<Event>, found: seq<Option<Entry>>, from: seq<nat>,
                           handedOut: set<nat>) {
    && |found| <= |events|
    && (forall i :: 0 <= i < |found| && found[i].Some? ==>
          && found[i].value.serial < |from| && found[i].value.serial in handedOut
          && FoundFrom(c, events, i, found[i].value, from[found[i].value.serial]))
    && forall i, j :: 0 <= i < j < |found| && found[i].Some? && found[j].Some? ==>
            found[i].value.serial != found[j].value.serial
  }

  lemma OneMoreFound(c: Codec, events: seq<Event>, found: seq<Option<Entry>>, from: seq<nat>, more: seq<nat>,
                     before: set<nat>, after: set<nat>, r: Option<Entry>)
    requires AllFound(c, events, found, from, before) && from <= more && |found| < |events|
    requires r.None? ==> after == before
    requires r.Some? ==>
               && r.value.serial !in before && after == before + {r.value.serial}
               && r.value.serial < |more| && FoundFrom(c, events, |found|, r.value, more[r.value.serial])
    ensures AllFound(c, events, found + [r], more, after)
  {
    hide FoundFrom;
  }

  /**
   Any sequence of events, of any callers. Every lookup that finds something finds what an earlier turn
   of the same conversation stored for the same caller, not longer ago than the entries live; and no
   store is found twice. `from` has the event of each check-in.
   */
  method Serve(c: Codec, hash: Hash, events: seq<Event>)
    returns (p: Pool, found: seq<Option<Entry>>, ghost from: seq<nat>)
    requires Lawful(c) && Injective(hash)
    ensures p.Valid() && |found| == |events|
    ensures forall i :: 0 <= i < |found| && found[i].Some? ==>
              found[i].value.serial < |from| && FoundFrom(c, events, i, found[i].value, from[found[i].value.serial])
    ensures forall i, j :: 0 <= i < j < |found| && found[i].Some? && found[j].Some? ==>
              && found[i].value.serial < |from| && found[j].value.serial < |from|
              && from[found[i].value.serial] != from[found[j].value.serial]
  {
    p := new Pool(c, hash);
    found, from := [], [];
    hide Pool.Valid, Lawful, Injective, FoundFrom, OwnerOf, AsStored, AllFound;
    NothingFound(c, events, from, p.handedOut);
    for i := 0 to |events|
      invariant fresh(p) && p.Valid() && p.c == c && p.hash == hash && |found| == i
      invariant Traced(c, events, i, from, p.owners, p.nextSerial) && AllAsStored(p.pool, events, from)
      invariant AllFound(c, events, found, from, p.handedOut)
    {
      ghost var before, more := p.handedOut, from;
      var r: Option<Entry> := None;
      match events[i] {
        case LookUp(_, _, _) => r := ServeLookUp(p, events, i, from);
        case Store(_, _, _, _, _, _, _, _) => more := ServeStore(p, events, i, from);
        case Invalidate(_, _) => ServeInvalidate(p, events, i, from);
      }
      OneMoreFound(c, events, found, from, more, before, p.handedOut, r);
      found, from := found + [r], more;
    }
    DifferentStores(c, events, found, from, p);
  }

  lemma NothingFound(c: Codec, events: seq<Event>, from: seq<nat>, handedOut: set<nat>)
    ensures AllFound(c, events, [], from, handedOut)
  {
  }

  lemma DifferentStores(c: Codec, events: seq<Event>, found: seq<Option<Entry>>, from: seq<nat>, p: Pool)
    requires AllFound(c, events, found, from, p.handedOut) && Traced(c, events, |events|, from, p.owners, p.nextSerial)
    ensures forall i :: 0 <= i < |found| && found[i].Some? ==>
              found[i].value.serial < |from| && FoundFrom(c, events, i, found[i].value, from[found[i].value.serial])
    ensures forall i, j :: 0 <= i < j < |found| && found[i].Some? && found[j].Some? ==>
              && found[i].value.serial < |from| && found[j].value.serial < |from|
              && from[found[i].value.serial] != from[found[j].value.serial]
  {
    hide FoundFrom, OwnerOf;
    forall i, j | 0 <= i < j < |found| && found[i].Some? && found[j].Some?
      ensures from[found[i].value.serial] != from[found[j].value.serial]
    {
      var s, t := found[i].value.serial, found[j].value.serial;
      if s < t {
        assert from[s] < from[t];
      } else {
        assert from[t] < from[s];
      }
    }
  }
}
