/**
 The account pool (`internal/auth/pool.go`): accounts updated in place under one lock. A ghost
 log remembers every grant ever made; the pruned history is shown to be all of it that counts.
 Clock readings are assumed not to go back in lock order: the source reads the clock before it
 takes the lock.
 */
module AccountPool {
  import opened Options
  import opened RateWindow
  import opened AccountRules

  class Account {
    const key: string
    var status: string
    var tier: string
    var rateLimitedUntil: int
    var modelRateLimits: map<string, int>
    var blockedModels: seq<string>
    var lastUsed: int
    /** `rpmHistory`: the first `rpmLen` cells of a buffer. */
    var rpm: array<int>
    var rpmLen: nat

    /** Every grant ever made, the time up to which history was dropped, and the last clock reading. */
    ghost var log: seq<Grant>
    ghost var floor: int
    ghost var clock: int

    predicate Shaped()
      reads this
    {
      rpmLen <= rpm.Length
    }

    ghost function View(): Acct
      reads this, rpm
      requires Shaped()
    {
      Acct(key, status, tier, rateLimitedUntil, modelRateLimits, blockedModels, lastUsed, rpm[..rpmLen])
    }

    /** The history is what the log holds since `floor`, and no grant exceeded its cap. */
    ghost predicate Valid()
      reads this, rpm
    {
      && Shaped()
      && Ordered(Times(log)) && WithinCaps(log)
      && (forall i :: 0 <= i < |log| ==> log[i].at <= clock)
      && floor <= clock - Window
      && View().history == Kept(Times(log), floor)
    }

    constructor (key: string, tier: string, now: int)
      ensures Valid() && fresh(rpm) && log == [] && clock == now
      ensures View() == Acct(key, "active", tier, 0, map[], [], 0, [])
    {
      this.key, this.tier, status := key, tier, "active";
      rateLimitedUntil, modelRateLimits, blockedModels, lastUsed := 0, map[], [], 0;
      rpm, rpmLen := new int[4], 0;
      log, floor, clock := [], now - Window, now;
    }

    /** What is left after pruning is exactly what the log says about the last minute. */
    method PruneRPM(now: int) returns (used: nat)
      requires Valid() && clock <= now
      modifies this`rpmLen, this`floor, this`clock, rpm
      ensures Valid() && clock == now && floor == now - Window
      ensures View() == old(View()).(history := Recent(old(View()), now))
      ensures used == Used(old(View()), now) == |View().history|
      ensures used == CountIn(log, now - Window, now)
    {
      hide Ordered, WithinCaps, Kept, CountIn;
      KeptKept(Times(log), floor, now - Window);
      CountIsKept(log, now - Window, now);
      used := Compact(rpm, rpmLen, now - Window);
      rpmLen, floor, clock := used, now - Window, now;
    }

    /** The append that records a grant; a full buffer is replaced by a larger one. */
    method Record(now: int)
      requires Valid() && clock == now && floor == now - Window
      requires |View().history| < Cap(tier)
      modifies this`rpm, this`rpmLen, this`lastUsed, this`log, rpm
      ensures Valid() && (rpm == old(rpm) || fresh(rpm))
      ensures View() == Granted(old(View()), now)
      ensures log == old(log) + [Grant(now, Cap(tier))]
    {
      hide Ordered, WithinCaps, Kept;
      GrantFits(log, Grant(now, Cap(tier)), floor);
      if rpmLen == rpm.Length {
        var bigger := new int[2 * rpmLen + 1];
        forall i | 0 <= i < rpmLen {
          bigger[i] := rpm[i];
        }
        rpm := bigger;
        assert rpm[..rpmLen] == old(rpm[..rpmLen]);
      }
      rpm[rpmLen] := now;
      rpmLen := rpmLen + 1;
      lastUsed := now;
      log := log + [Grant(now, Cap(tier))];
      assert rpm[..rpmLen] == old(rpm[..rpmLen]) + [now];
    }

    /** `isRateLimitedRW`: drops an expired window of this model on the way. */
    method IsRateLimitedRW(model: string, now: int) returns (limited: bool)
      requires Valid()
      modifies this`modelRateLimits
      ensures Valid() && limited == Limited(old(View()), model, now)
      ensures View() == if limited then old(View()) else DropExpired(old(View()), model, now)
    {
      if rateLimitedUntil > now {
        return true;
      }
      if model != "" && model in modelRateLimits {
        if modelRateLimits[model] > now {
          return true;
        }
        modelRateLimits := modelRateLimits - {model};
      }
      return false;
    }

    predicate IsRateLimited(model: string, now: int)
      reads this, rpm
      requires Shaped()
      ensures IsRateLimited(model, now) == Limited(View(), model, now)
    {
      rateLimitedUntil > now || (model != "" && model in modelRateLimits && modelRateLimits[model] > now)
    }

    /** `soonest` after the windows of this account, as the loop of `IsAllRateLimited` takes them in. */
    function FoldWindows(soonest: int, model: string, now: int): (s: int)
      reads this, rpm
      requires Shaped()
      ensures s == Folded(View(), soonest, model, now)
    {
      var s := if rateLimitedUntil > now then Earlier(soonest, rateLimitedUntil) else soonest;
      if model != "" && model in modelRateLimits && modelRateLimits[model] > now
              then Earlier(s, modelRateLimits[model]) else s
    }

    predicate CountsFor(model: string, allowed: TierTable)
      reads this, rpm
      requires Shaped()
      ensures CountsFor(model, allowed) == Counts(View(), model, allowed)
    {
      status == "active" && (model == "" || (allowed(tier, model) && model !in blockedModels))
    }

    method Mark(model: string, until: int)
      requires Valid()
      modifies this`modelRateLimits, this`rateLimitedUntil
      ensures Valid() && View() == Marked(old(View()), model, until)
    {
      if model != "" {
        modelRateLimits := modelRateLimits[model := until];
      } else {
        rateLimitedUntil := until;
      }
    }

    /** The checks, and the grant if they pass. */
    method Take(ask: Ask, now: int, allowed: TierTable) returns (ok: bool)
      requires Valid() && clock <= now
      modifies this, rpm
      ensures Valid() && clock <= now && (rpm == old(rpm) || fresh(rpm))
      ensures ok <==> Eligible(old(View()), ask, now, allowed)
      ensures View() == (var seen := Visited(old(View()), ask, now, allowed); if ok then Granted(seen, now) else seen)
      ensures log == old(log) + if ok then [Grant(now, Cap(old(tier)))] else []
    {
      hide Eligible, Visited;
      VisitKeepsTier(View(), ask, now, allowed);
      var c := Consider(ask, now, allowed);
      if c.Some? {
        Record(now);
      }
      ok := c.Some?;
    }

    /** The checks one account passes through in `Acquire`, in their order. */
    method Consider(ask: Ask, now: int, allowed: TierTable) returns (c: Option<Candidate>)
      requires Valid() && clock <= now
      modifies this`rpmLen, this`floor, this`clock, this`modelRateLimits, rpm
      ensures Valid() && clock <= now
      ensures View() == Visited(old(View()), ask, now, allowed)
      ensures c.Some? <==> Eligible(old(View()), ask, now, allowed)
      ensures c.Some? ==> c.value == CandidateOf(old(View()), now)
      ensures c.Some? ==> clock == now && floor == now - Window && |View().history| < Cap(tier)
    {
      if status != "active" || key in ask.tried {
        return None;
      }
      var limited := IsRateLimitedRW(ask.model, now);
      if limited {
        return None;
      }
      var limit := Cap(tier);
      if limit <= 0 {
        return None;
      }
      if ask.model != "" && (!allowed(tier, ask.model) || ask.model in blockedModels) {
        return None;
      }
      var used := PruneRPM(now);
      if used >= limit {
        return None;
      }
      return Some(Candidate(used, limit, lastUsed));
    }
  }

  lemma GrantFits(log: seq<Grant>, g: Grant, floor: int)
    requires Ordered(Times(log)) && WithinCaps(log) && forall i :: 0 <= i < |log| ==> log[i].at <= g.at
    requires floor == g.at - Window && |Kept(Times(log), floor)| < g.cap
    ensures Ordered(Times(log + [g])) && WithinCaps(log + [g])
    ensures Kept(Times(log + [g]), floor) == Kept(Times(log), floor) + [g.at]
  {
    CountIsKept(log, floor, g.at);
    GrantKeepsCaps(log, g);
    assert Times(log + [g]) == Times(log) + [g.at];
    KeptAppend(Times(log), g.at, floor);
  }

  /** A position in the pool with its rank. */
  datatype Ranked = Ranked(at: nat, rank: Candidate)

  /** The first of two has no smaller unused share of its limit and, if the shares are equal, no later use. */
  predicate Leads(used: nat, limit: nat, lastUsed: int, used': nat, limit': nat, lastUsed': int) {
    && (limit - used) * limit' >= (limit' - used') * limit
    && ((limit - used) * limit' == (limit' - used') * limit ==> lastUsed <= lastUsed')
  }

  /** `list[0]` after the sort: an entry that leads every other. */
  method First(list: seq<Ranked>) returns (best: nat)
    requires list != [] && forall i :: 0 <= i < |list| ==> list[i].rank.limit > 0
    ensures best < |list|
    ensures forall i :: 0 <= i < |list| ==>
              var b, x := list[best].rank, list[i].rank; Leads(b.used, b.limit, b.lastUsed, x.used, x.limit, x.lastUsed)
  {
    best := 0;
    for n := 1 to |list|
      invariant best < n
      invariant forall i :: 0 <= i < n ==> !Before(list[i].rank, list[best].rank)
    {
      if Before(list[n].rank, list[best].rank) {
        forall i | 0 <= i < n
          ensures !Before(list[i].rank, list[n].rank)
        {
          BeforeIsAsymmetric(list[n].rank, list[best].rank);
          NotBeforeIsTransitive(list[n].rank, list[best].rank, list[i].rank);
        }
        best := n;
      }
    }
    forall i | 0 <= i < |list|
      ensures var b, x := list[best].rank, list[i].rank; Leads(b.used, b.limit, b.lastUsed, x.used, x.limit, x.lastUsed)
    {
      NotBehindIff(list[best].rank, list[i].rank);
    }
  }

  lemma VisitKeepsTier(a: Acct, ask: Ask, now: int, allowed: TierTable)
    ensures Visited(a, ask, now, allowed).tier == a.tier
  {
  }

  lemma BeforeIsAsymmetric(x: Candidate, y: Candidate)
    ensures Before(x, y) ==> !Before(y, x)
  {
  }

  function FirstWithKey(rows: seq<Acct>, k: string): (r: Option<nat>)
    ensures r.Some? ==> r.value < |rows| && rows[r.value].key == k && forall i :: 0 <= i < r.value ==> rows[i].key != k
    ensures r.None? <==> forall i :: 0 <= i < |rows| ==> rows[i].key != k
  {
    if rows == [] then None
    else
      var n := |rows| - 1;
      match FirstWithKey(rows[..n], k)
      case Some(i) => Some(i)
      case None =>
        assert forall i :: 0 <= i < n ==> rows[i] == rows[..n][i];
        if rows[n].key == k then Some(n) else None
  }

  lemma FirstIs(rows: seq<Acct>, k: string, n: nat)
    requires n < |rows| && rows[n].key == k && forall i :: 0 <= i < n ==> rows[i].key != k
    ensures FirstWithKey(rows, k) == Some(n)
  {
    hide FirstWithKey;
    var r := FirstWithKey(rows, k);
    assert r.Some?;
  }

  // ----- the first window to end -----

  function Earlier(soonest: int, t: int): int {
    if soonest == -1 || t < soonest then t else soonest
  }

  ghost predicate Soonest(ends: set<int>, e: int) {
    e in ends && forall x :: x in ends ==> e <= x
  }

  /** `soonest` as the loop keeps it: -1 while no account counted. */
  ghost predicate Tracked(ends: set<int>, soonest: int, any: bool) {
    if any then Soonest(ends, soonest) && soonest >= 0 else ends == {} && soonest == -1
  }

  /** What the loop makes of `soonest` for a limited account. */
  function Folded(a: Acct, soonest: int, model: string, now: int): int {
    var s := if a.until > now then Earlier(soonest, a.until) else soonest;
    if model != "" && model in a.models && a.models[model] > now then Earlier(s, a.models[model]) else s
  }

  /** What the loop of `IsAllRateLimited` knows after `n` rows. */
  ghost predicate Scanned(rows: seq<Acct>, n: nat, any: bool, soonest: int, model: string, now: int,
                          allowed: TierTable) {
    && n <= |rows|
    && (any <==> exists i :: 0 <= i < n && Counts(rows[i], model, allowed))
    && (forall i :: 0 <= i < n && Counts(rows[i], model, allowed) ==> Limited(rows[i], model, now))
    && Tracked(AllEnds(rows[..n], model, now, allowed), soonest, any)
  }

  lemma NothingScanned(rows: seq<Acct>, model: string, now: int, allowed: TierTable)
    ensures Scanned(rows, 0, false, -1, model, now, allowed)
  {
  }

  lemma NextScanned(rows: seq<Acct>, n: nat, any: bool, soonest: int, model: string, now: int, allowed: TierTable)
    requires n < |rows| && now >= 0 && Scanned(rows, n, any, soonest, model, now, allowed)
    ensures !Counts(rows[n], model, allowed) ==> Scanned(rows, n + 1, any, soonest, model, now, allowed)
    ensures Counts(rows[n], model, allowed) && Limited(rows[n], model, now) ==>
              Scanned(rows, n + 1, true, Folded(rows[n], soonest, model, now), model, now, allowed)
    ensures Counts(rows[n], model, allowed) && !Limited(rows[n], model, now) ==> !AllLimited(rows, model, now, allowed)
  {
    NextEnds(rows, n, soonest, any, model, now, allowed);
    hide Counts, Limited, Folded, Tracked, AllEnds;
  }

  lemma AllScanned(rows: seq<Acct>, any: bool, soonest: int, model: string, now: int, allowed: TierTable)
    requires Scanned(rows, |rows|, any, soonest, model, now, allowed)
    ensures any <==> AllLimited(rows, model, now, allowed)
    ensures any ==> soonest >= 0 && Soonest(AllEnds(rows, model, now, allowed), soonest)
  {
    hide Counts, Limited, AllEnds;
    assert rows[..|rows|] == rows;
  }

  lemma NextEnds(rows: seq<Acct>, n: nat, soonest: int, any: bool, model: string, now: int, allowed: TierTable)
    requires n < |rows| && now >= 0
    requires Tracked(AllEnds(rows[..n], model, now, allowed), soonest, any)
    ensures Counts(rows[n], model, allowed) && Limited(rows[n], model, now) ==>
              Tracked(AllEnds(rows[..n + 1], model, now, allowed), Folded(rows[n], soonest, model, now), true)
    ensures !Counts(rows[n], model, allowed) ==> Tracked(AllEnds(rows[..n + 1], model, now, allowed), soonest, any)
  {
    assert rows[..n + 1][..n] == rows[..n];
    var ends := AllEnds(rows[..n], model, now, allowed);
    var more := AllEnds(rows[..n + 1], model, now, allowed);
    hide AllEnds;
    if !Counts(rows[n], model, allowed) {
      assert more == ends;
    }
  }

  class Pool {
    const allowed: TierTable
    const accounts: seq<Account>
    /** The latest clock reading taken under the lock. */
    ghost var clock: int

    ghost predicate Valid()
      reads this, accounts, Buffers()
    {
      && (forall i :: 0 <= i < |accounts| ==> accounts[i].Valid() && accounts[i].clock <= clock)
      && Apart()
    }

    /** No two rows are the same account or share a buffer. */
    ghost predicate Apart()
      reads accounts
    {
      forall i, j :: 0 <= i < j < |accounts| ==> accounts[i] != accounts[j] && accounts[i].rpm != accounts[j].rpm
    }

    ghost function Buffers(): set<array<int>>
      reads accounts
    {
      set i | 0 <= i < |accounts| :: accounts[i].rpm
    }

    ghost function Rows(): (r: seq<Acct>)
      reads this, accounts, Buffers()
      requires Valid()
      ensures |r| == |accounts|
    {
      seq(|accounts|, i requires 0 <= i < |accounts| reads this, accounts, Buffers() requires Valid() => accounts[i].View())
    }

    ghost function Logs(): (r: seq<seq<Grant>>)
      reads accounts
    {
      seq(|accounts|, i requires 0 <= i < |accounts| reads accounts => accounts[i].log)
    }

    ghost function BufferList(): (r: seq<array<int>>)
      reads accounts
    {
      seq(|accounts|, i requires 0 <= i < |accounts| reads accounts => accounts[i].rpm)
    }

    constructor (accounts: seq<Account>, allowed: TierTable, now: int)
      requires forall i :: 0 <= i < |accounts| ==> accounts[i].Valid() && accounts[i].clock <= now
      requires forall i, j :: 0 <= i < j < |accounts| ==>
              accounts[i] != accounts[j] && accounts[i].rpm != accounts[j].rpm
      ensures Valid() && this.accounts == accounts && this.allowed == allowed && clock == now
    {
      this.accounts, this.allowed, clock := accounts, allowed, now;
    }

    /**
     The loop of `Acquire` has come to row `n`: the rows before it are visited and, where eligible,
     ready to record a grant; the others are as they were.
     */
    ghost predicate Swept(rows: seq<Acct>, logs: seq<seq<Grant>>, bufs: seq<array<int>>, n: nat, ask: Ask, now: int)
      reads accounts, Buffers()
    {
      && |rows| == |logs| == |bufs| == |accounts|
      && forall i :: 0 <= i < |accounts| ==>
           && accounts[i].Valid() && accounts[i].clock <= now
           && accounts[i].log == logs[i] && accounts[i].rpm == bufs[i]
           && RowIs(accounts[i], rows[i], i < n, ask, now, allowed)
    }

    method Visit(ghost rows: seq<Acct>, ghost logs: seq<seq<Grant>>, ghost bufs: seq<array<int>>, n: nat, ask: Ask,
                 now: int)
      returns (c: Option<Candidate>)
      requires n < |accounts| && Apart() && Swept(rows, logs, bufs, n, ask, now)
      modifies accounts[n], accounts[n].rpm
      ensures Apart() && Swept(rows, logs, bufs, n + 1, ask, now)
      ensures c.Some? <==> Eligible(rows[n], ask, now, allowed)
      ensures c.Some? ==> c.value == CandidateOf(rows[n], now)
    {
      hide Eligible, CandidateOf, Visited, Ordered, WithinCaps, Times, Kept;
      c := accounts[n].Consider(ask, now, allowed);
    }

    /** The loop of `Acquire`. */
    method Collect(ghost rows: seq<Acct>, ghost logs: seq<seq<Grant>>, ghost bufs: seq<array<int>>, ask: Ask, now: int)
      returns (list: seq<Ranked>)
      requires Apart() && Swept(rows, logs, bufs, 0, ask, now)
      modifies accounts, Buffers()
      ensures Apart() && Swept(rows, logs, bufs, |accounts|, ask, now)
      ensures Lists(list, rows, |rows|, ask, now, allowed)
    {
      hide Eligible, CandidateOf, Visited, Swept, Lists, Apart;
      list := [];
      NothingListed(rows, ask, now, allowed);
      SweptSize(rows, logs, bufs, 0, ask, now);
      for n := 0 to |accounts|
        invariant Apart() && Swept(rows, logs, bufs, n, ask, now)
        invariant Buffers() == old(Buffers())
        invariant Lists(list, rows, n, ask, now, allowed)
      {
        ListNext(list, rows, n, ask, now, allowed);
        SweptBuffers(rows, logs, bufs, n, ask, now);
        var c := Visit(rows, logs, bufs, n, ask, now);
        SweptBuffers(rows, logs, bufs, n + 1, ask, now);
        if c.Some? {
          list := list + [Ranked(n, c.value)];
        }
      }
    }

    lemma SweptBuffers(rows: seq<Acct>, logs: seq<seq<Grant>>, bufs: seq<array<int>>, n: nat, ask: Ask, now: int)
      requires Swept(rows, logs, bufs, n, ask, now)
      ensures Buffers() == set i | 0 <= i < |bufs| :: bufs[i]
    {
    }

    lemma NothingSwept(ask: Ask, now: int)
      requires Valid() && clock <= now
      ensures Apart() && Swept(Rows(), Logs(), BufferList(), 0, ask, now)
    {
    }

    /** The rows after the sweep, with a grant to the chosen one. */
    ghost predicate Settled(rows: seq<Acct>, logs: seq<seq<Grant>>, r: Option<nat>, ask: Ask, now: int)
      reads accounts, Buffers()
    {
      && |rows| == |logs| == |accounts|
      && forall i :: 0 <= i < |accounts| ==>
           && accounts[i].Valid() && accounts[i].clock <= now
           && accounts[i].View() == (var seen := Visited(rows[i], ask, now, allowed);
                                     if r == Some(i) then Granted(seen, now) else seen)
           && accounts[i].log == logs[i] + if r == Some(i) then [Grant(now, Cap(rows[i].tier))] else []
    }

    lemma NoneSettled(rows: seq<Acct>, logs: seq<seq<Grant>>, bufs: seq<array<int>>, ask: Ask, now: int)
      requires Swept(rows, logs, bufs, |accounts|, ask, now)
      ensures Settled(rows, logs, None, ask, now)
    {
      hide Visited, Eligible;
    }

    method RecordAt(ghost rows: seq<Acct>, ghost logs: seq<seq<Grant>>, ghost bufs: seq<array<int>>, at: nat,
                    ghost ask: Ask, now: int)
      requires Apart() && Swept(rows, logs, bufs, |accounts|, ask, now)
      requires at < |rows| && Eligible(rows[at], ask, now, allowed)
      modifies accounts, Buffers()
      ensures Apart() && Settled(rows, logs, Some(at), ask, now)
    {
      hide Visited, Eligible, Ordered, WithinCaps, Times, Kept;
      VisitKeepsTier(rows[at], ask, now, allowed);
      accounts[at].Record(now);
    }

    /**
     The account to use, or none exactly when no row is eligible. The chosen one has the largest
     unused share of its cap and, among equals, was unused the longest; it alone gets a grant.
     */
    method Acquire(ask: Ask, now: int) returns (r: Option<nat>)
      requires Valid() && clock <= now
      modifies this`clock, accounts, Buffers()
      ensures Valid() && clock == now
      ensures BestChoice(old(Rows()), r, ask, now, allowed)
      ensures Settled(old(Rows()), old(Logs()), r, ask, now)
    {
      hide *;
      NothingSwept(ask, now);
      ghost var rows, logs, bufs := Rows(), Logs(), BufferList();
      SweptSize(rows, logs, bufs, 0, ask, now);
      SweptBuffers(rows, logs, bufs, 0, ask, now);
      var list := Collect(rows, logs, bufs, ask, now);
      SweptBuffers(rows, logs, bufs, |accounts|, ask, now);
      ListedLimits(list, rows, ask, now, allowed);
      if list == [] {
        NoneSettled(rows, logs, bufs, ask, now);
        r := None;
      } else {
        var best := First(list);
        FirstIsBest(list, rows, best, ask, now, allowed);
        RecordAt(rows, logs, bufs, list[best].at, ask, now);
        r := Some(list[best].at);
      }
      Close(rows, logs, r, ask, now);
    }

    ghost method Close(rows: seq<Acct>, logs: seq<seq<Grant>>, r: Option<nat>, ask: Ask, now: int)
      requires Apart() && Settled(rows, logs, r, ask, now)
      modifies this`clock
      ensures Valid() && clock == now && Settled(rows, logs, r, ask, now)
    {
      hide Visited;
      clock := now;
    }

    /** Where the first row with the key stands, if there is one. */
    method Find(k: string) returns (at: Option<nat>)
      requires Valid()
      ensures at == FirstWithKey(Rows(), k)
      ensures Valid() && Rows() == old(Rows()) && Logs() == old(Logs()) && Buffers() == old(Buffers())
    {
      for n := 0 to |accounts|
        invariant forall i :: 0 <= i < n ==> accounts[i].key != k
      {
        if accounts[n].key == k {
          FirstIs(Rows(), k, n);
          return Some(n);
        }
      }
      return None;
    }

    /** The pinned account, exactly when it exists and is eligible; no other row changes. */
    method AcquireByKey(k: string, model: string, now: int) returns (r: Option<nat>)
      requires Valid() && clock <= now
      modifies this`clock, accounts, Buffers()
      ensures Valid() && clock == now
      ensures var at := FirstWithKey(old(Rows()), k);
              var ask := Ask({}, model);
              && (r.Some? <==> at.Some? && Eligible(old(Rows())[at.value], ask, now, allowed))
              && (r.Some? ==> r == at)
              && Pinned(old(Rows()), old(Logs()), at, r.Some?, ask, now)
    {
      hide *;
      ghost var rows, logs, ask := Rows(), Logs(), Ask({}, model);
      var at := Find(k);
      NonePinned(rows, logs, ask, now);
      ValidIsApart();
      var ok := false;
      if at.Some? {
        Member(at.value);
        ok := TakeAt(rows, logs, at.value, Ask({}, model), now);
      }
      ClosePinned(rows, logs, at, ok, ask, now);
      r := if ok then at else None;
    }

    lemma Member(i: nat)
      requires Valid() && i < |accounts|
      ensures accounts[i].rpm in Buffers()
    {
    }

    method TakeAt(ghost rows: seq<Acct>, ghost logs: seq<seq<Grant>>, at: nat, ask: Ask, now: int) returns (ok: bool)
      requires Apart() && at < |accounts| && Pinned(rows, logs, None, false, ask, now)
      modifies accounts[at], accounts[at].rpm
      ensures Apart() && Pinned(rows, logs, Some(at), ok, ask, now)
      ensures ok <==> Eligible(rows[at], ask, now, allowed)
    {
      hide Eligible, Visited, Ordered, WithinCaps, Times, Kept;
      ok := accounts[at].Take(ask, now, allowed);
    }

    lemma NonePinned(rows: seq<Acct>, logs: seq<seq<Grant>>, ask: Ask, now: int)
      requires Valid() && clock <= now && rows == Rows() && logs == Logs()
      ensures Pinned(rows, logs, None, false, ask, now)
    {
      hide Visited;
    }

    ghost method ClosePinned(rows: seq<Acct>, logs: seq<seq<Grant>>, at: Option<nat>, granted: bool, ask: Ask, now: int)
      requires Apart() && Pinned(rows, logs, at, granted, ask, now)
      modifies this`clock
      ensures Valid() && clock == now && Pinned(rows, logs, at, granted, ask, now)
    {
      hide Visited;
      clock := now;
    }

    lemma ValidIsApart()
      requires Valid()
      ensures Apart()
    {
    }

    /** At most the row `at` was looked at, and granted if `granted`. */
    ghost predicate Pinned(rows: seq<Acct>, logs: seq<seq<Grant>>, at: Option<nat>, granted: bool, ask: Ask, now: int)
      reads accounts, Buffers()
    {
      && |rows| == |logs| == |accounts|
      && forall i :: 0 <= i < |accounts| ==>
           && accounts[i].Valid() && accounts[i].clock <= now
           && accounts[i].View() == (if at != Some(i) then rows[i]
                                     else var seen := Visited(rows[i], ask, now, allowed);
                                          if granted then Granted(seen, now) else seen)
           && accounts[i].log == logs[i] + if at == Some(i) && granted then [Grant(now, Cap(rows[i].tier))] else []
    }

    /**
     Whether all accounts that could serve the model are limited, and for how long: until the first
     of their windows ends, but at least a second. The default of a minute is never returned.
     */
    method IsAllRateLimited(model: string, now: int) returns (all: bool, retry: int, ghost first: int)
      requires Valid() && now >= 0
      ensures all <==> AllLimited(Rows(), model, now, allowed)
      ensures !all ==> retry == 0
      ensures all ==> Soonest(AllEnds(Rows(), model, now, allowed), first)
      ensures all ==> retry == if first - now < 1000 then 1000 else first - now
    {
      hide *;
      ghost var rows := Rows();
      var soonest, anyEligible := -1, false;
      NothingScanned(rows, model, now, allowed);
      for n := 0 to |accounts|
        invariant Valid() && rows == Rows()
        invariant Scanned(rows, n, anyEligible, soonest, model, now, allowed)
      {
        RowAt(n);
        NextScanned(rows, n, anyEligible, soonest, model, now, allowed);
        if accounts[n].CountsFor(model, allowed) {
          anyEligible := true;
          if !accounts[n].IsRateLimited(model, now) {
            return false, 0, 0;
          }
          soonest := accounts[n].FoldWindows(soonest, model, now);
        }
      }
      AllScanned(rows, anyEligible, soonest, model, now, allowed);
      if !anyEligible {
        return false, 0, 0;
      }
      if soonest == -1 {
        return true, 60_000, -1;
      }
      retry := soonest - now;
      if retry < 1000 {
        retry := 1000;
      }
      all, first := true, soonest;
    }

    lemma RowAt(n: nat)
      requires Valid() && n < |accounts|
      ensures accounts[n].Shaped() && Rows()[n] == accounts[n].View()
    {
    }

    /** `MarkRateLimited`: the first row with the key is held back for the effective window. */
    method MarkRateLimited(k: string, d: int, model: string, now: int)
      requires Valid()
      modifies accounts
      ensures Valid() && clock == old(clock)
      ensures MarkedOnly(old(Rows()), old(Logs()), FirstWithKey(old(Rows()), k), model, now + EffectiveMillis(d))
    {
      hide *;
      ghost var rows, logs := Rows(), Logs();
      var at := Find(k);
      NoneMarked(rows, logs, model, now + EffectiveMillis(d));
      if at.Some? {
        MarkAt(rows, logs, at.value, model, now + EffectiveMillis(d));
      }
    }

    /** At most the row `at` got a window; nothing else changed. */
    ghost predicate MarkedOnly(rows: seq<Acct>, logs: seq<seq<Grant>>, at: Option<nat>, model: string, until: int)
      reads accounts, Buffers()
    {
      && |rows| == |logs| == |accounts|
      && forall i :: 0 <= i < |accounts| ==>
           && accounts[i].Valid() && accounts[i].log == logs[i]
           && accounts[i].View() == if at == Some(i) then Marked(rows[i], model, until) else rows[i]
    }

    lemma NoneMarked(rows: seq<Acct>, logs: seq<seq<Grant>>, model: string, until: int)
      requires Valid() && rows == Rows() && logs == Logs()
      ensures MarkedOnly(rows, logs, None, model, until)
    {
    }

    method MarkAt(ghost rows: seq<Acct>, ghost logs: seq<seq<Grant>>, at: nat, model: string, until: int)
      requires Valid() && at < |accounts| && MarkedOnly(rows, logs, None, model, until)
      modifies accounts[at]
      ensures Valid() && clock == old(clock) && MarkedOnly(rows, logs, Some(at), model, until)
    {
      hide Marked, Ordered, WithinCaps, Times, Kept;
      accounts[at].Mark(model, until);
    }

    /** In every reachable state every closed minute of every account holds at most its largest cap. */
    lemma EveryMinuteIsCapped(i: nat, w: int, cap: nat)
      requires Valid() && i < |accounts|
      requires forall k :: 0 <= k < |accounts[i].log| ==> accounts[i].log[k].cap <= cap
      ensures CountIn(accounts[i].log, w, w + 60_000) <= cap
    {
      WindowHoldsTheCap(accounts[i].log, w, cap);
    }

    /** The pruned history counts exactly the grants of the last minute in the whole log. */
    lemma HistoryTellsTheLastMinute(i: nat, now: int)
      requires Valid() && i < |accounts| && clock <= now
      ensures Used(Rows()[i], now) == CountIn(accounts[i].log, now - 60_000, now)
    {
      var a := accounts[i];
      KeptKept(Times(a.log), a.floor, now - Window);
      CountIsKept(a.log, now - Window, now);
    }

    lemma SweptSize(rows: seq<Acct>, logs: seq<seq<Grant>>, bufs: seq<array<int>>, n: nat, ask: Ask, now: int)
      requires Swept(rows, logs, bufs, n, ask, now)
      ensures |rows| == |accounts|
    {
    }
  }

  /** The list holds the eligible ones of the first `n` rows, each with its rank. */
  ghost predicate Lists(list: seq<Ranked>, rows: seq<Acct>, n: nat, ask: Ask, now: int, allowed: TierTable) {
    && n <= |rows|
    && (forall i :: 0 <= i < n && Eligible(rows[i], ask, now, allowed) ==> Listed(list, i))
    && (forall k :: 0 <= k < |list| ==>
          && list[k].at < n
          && Eligible(rows[list[k].at], ask, now, allowed)
          && list[k].rank == CandidateOf(rows[list[k].at], now))
  }

  /** No row is eligible and none is chosen, or an eligible one is that leads every eligible one. */
  ghost predicate BestChoice(rows: seq<Acct>, r: Option<nat>, ask: Ask, now: int, allowed: TierTable) {
    match r
    case None => forall i :: 0 <= i < |rows| ==> !Eligible(rows[i], ask, now, allowed)
    case Some(at) =>
      && at < |rows| && Eligible(rows[at], ask, now, allowed)
      && forall i :: 0 <= i < |rows| && Eligible(rows[i], ask, now, allowed) ==>
           Leads(Used(rows[at], now), Cap(rows[at].tier), rows[at].lastUsed,
                 Used(rows[i], now), Cap(rows[i].tier), rows[i].lastUsed)
  }

  lemma ListedLimits(list: seq<Ranked>, rows: seq<Acct>, ask: Ask, now: int, allowed: TierTable)
    requires Lists(list, rows, |rows|, ask, now, allowed)
    ensures forall k :: 0 <= k < |list| ==> list[k].rank.limit > 0
    ensures list == [] ==> BestChoice(rows, None, ask, now, allowed)
  {
    hide Used;
    if list == [] {
      assert forall i :: 0 <= i < |rows| ==> !Listed(list, i);
    }
  }

  lemma FirstIsBest(list: seq<Ranked>, rows: seq<Acct>, best: nat, ask: Ask, now: int, allowed: TierTable)
    requires Lists(list, rows, |rows|, ask, now, allowed)
    requires best < |list|
    requires forall k :: 0 <= k < |list| ==>
               var b, x := list[best].rank, list[k].rank; Leads(b.used, b.limit, b.lastUsed, x.used, x.limit, x.lastUsed)
    ensures list[best].at < |rows| && Eligible(rows[list[best].at], ask, now, allowed)
    ensures BestChoice(rows, Some(list[best].at), ask, now, allowed)
  {
    hide Eligible, Used, Cap, Leads;
    assert forall a: Acct :: CandidateOf(a, now) == Candidate(Used(a, now), Cap(a.tier), a.lastUsed);
  }

  lemma NothingListed(rows: seq<Acct>, ask: Ask, now: int, allowed: TierTable)
    ensures Lists([], rows, 0, ask, now, allowed)
  {
  }

  lemma ListNext(list: seq<Ranked>, rows: seq<Acct>, n: nat, ask: Ask, now: int, allowed: TierTable)
    requires n < |rows| && Lists(list, rows, n, ask, now, allowed)
    ensures if Eligible(rows[n], ask, now, allowed)
            then Lists(list + [Ranked(n, CandidateOf(rows[n], now))], rows, n + 1, ask, now, allowed)
            else Lists(list, rows, n + 1, ask, now, allowed)
  {
    hide Eligible, CandidateOf;
    var more := list + [Ranked(n, CandidateOf(rows[n], now))];
    assert more[|list|].at == n && Listed(more, n);
    forall i | 0 <= i < n && Listed(list, i)
      ensures Listed(more, i)
    {
      var k :| 0 <= k < |list| && list[k].at == i;
      assert more[k].at == i;
    }
  }

  ghost predicate RowIs(a: Account, before: Acct, visited: bool, ask: Ask, now: int, allowed: TierTable)
    reads a, a.rpm
  {
    && a.Shaped()
    && a.View() == (if visited then Visited(before, ask, now, allowed) else before)
    && (visited && Eligible(before, ask, now, allowed) ==> Ready(a, now))
  }

  ghost predicate Listed(list: seq<Ranked>, i: nat) {
    exists k :: 0 <= k < |list| && list[k].at == i
  }

  /** The account has just been pruned and is below its cap. */
  ghost predicate Ready(a: Account, now: int)
    reads a, a.rpm
  {
    a.Shaped() && a.clock == now && a.floor == now - Window && |a.View().history| < Cap(a.tier)
  }
}
