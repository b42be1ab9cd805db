/**
 The dashboard's brute-force lockout (`internal/dashapi/dashapi.go`). A ghost log keeps the
 times of all failed password comparisons of an address since its last success. Requests overlap: the gate
 and the count are sections of their own. The clock does not go back.
 */
module Lockout {
  import opened Options

  const Threshold := 5
  const Ban := 1_800_000
  const IdleTTL := 7_200_000

  /** `lockoutState`; no ban is the zero time. Times are in milliseconds. */
  datatype Entry = Entry(count: nat, blockedUntil: Option<int>, lastActivity: int)

  predicate Blocked(e: Entry, now: int) {
    e.blockedUntil.Some? && e.blockedUntil.value > now
  }

  predicate Idle(e: Entry, now: int) {
    !Blocked(e, now) && now - e.lastActivity > IdleTTL
  }

  // ----- counting -----

  function CountIn(fs: seq<int>, lo: int, hi: int): nat {
    if fs == [] then 0
    else CountIn(fs[..|fs| - 1], lo, hi) + if lo <= fs[|fs| - 1] < hi then 1 else 0
  }

  ghost predicate Ordered(fs: seq<int>) {
    forall i, j :: 0 <= i < j < |fs| ==> fs[i] <= fs[j]
  }

  /** Six failures in a row take at least as long as a ban. */
  ghost predicate Spread(fs: seq<int>) {
    forall i, j :: 0 <= i && i + Threshold <= j < |fs| ==> fs[j] >= fs[i] + Ban
  }

  /** Of an ordered log a window catches no more than it has room for. */
  lemma {:induction false} CountAtMost(fs: seq<int>, lo: int, hi: int, k: nat)
    requires Ordered(fs) && (|fs| > k ==> fs[|fs| - 1 - k] < lo)
    ensures CountIn(fs, lo, hi) <= k
  {
    if fs != [] {
      var n := |fs| - 1;
      if k == 0 {
        NoneBefore(fs, lo, hi);
      } else {
        CountAtMost(fs[..n], lo, hi, k - 1);
      }
    }
  }

  lemma {:induction false} NoneBefore(fs: seq<int>, lo: int, hi: int)
    requires Ordered(fs) && (fs != [] ==> fs[|fs| - 1] < lo)
    ensures CountIn(fs, lo, hi) == 0
  {
    if fs != [] {
      NoneBefore(fs[..|fs| - 1], lo, hi);
    }
  }

  /** Any half-open window as long as a ban holds at most five failures. */
  lemma {:induction false} WindowHoldsFive(fs: seq<int>, w: int)
    requires Ordered(fs) && Spread(fs)
    ensures CountIn(fs, w, w + 1_800_000) <= 5
  {
    if fs != [] {
      var n := |fs| - 1;
      if fs[n] >= w + Ban {
        WindowHoldsFive(fs[..n], w);
      } else {
        CountAtMost(fs, w, w + Ban, Threshold);
      }
    }
  }

  // ----- what an entry remembers -----

  function CountOf(e: Option<Entry>): nat {
    if e.Some? && e.value.blockedUntil.None? then e.value.count else 0
  }

  /** No comparison of the address can happen before. */
  function Gate(e: Option<Entry>, clock: int): int {
    if e.Some? && e.value.blockedUntil.Some? && e.value.blockedUntil.value > clock then e.value.blockedUntil.value
            else clock
  }

  /**
   The failures before the last `count` ones are at least a ban's length older than all later ones,
   and than any that can still come.
   */
  ghost predicate Agrees(e: Option<Entry>, fs: seq<int>, clock: int) {
    var settled := |fs| - CountOf(e);
    && CountOf(e) < Threshold && 0 <= settled
    && Ordered(fs) && Spread(fs)
    && (fs != [] ==> fs[|fs| - 1] <= clock)
    && (e.Some? ==> e.value.count < Threshold && e.value.lastActivity <= clock)
    && (e.Some? && fs != [] ==> fs[|fs| - 1] <= e.value.lastActivity)
    && (forall j, k :: 0 <= j < settled <= k < |fs| ==> fs[k] >= fs[j] + Ban)
    && (forall j :: 0 <= j < settled ==> Gate(e, clock) >= fs[j] + Ban)
  }

  lemma TimePasses(e: Option<Entry>, fs: seq<int>, clock: int, now: int)
    requires Agrees(e, fs, clock) && clock <= now
    ensures Agrees(e, fs, now)
  {
  }

  lemma PurgeAgrees(e: Entry, fs: seq<int>, now: int)
    requires Agrees(Some(e), fs, now) && Idle(e, now)
    ensures Agrees(None, fs, now)
  {
  }

  /** `checkLockout`'s reset of an expired ban. */
  function Checked(e: Entry, now: int): Entry {
    if e.blockedUntil.Some? && !Blocked(e, now) then e.(count := 0, blockedUntil := None) else e
  }

  lemma CheckAgrees(e: Entry, fs: seq<int>, now: int)
    requires Agrees(Some(e), fs, now)
    ensures Agrees(Some(Checked(e, now)), fs, now)
  {
  }

  /** `failedAuthAttempt`'s change to the entry. */
  function Charged(e: Option<Entry>, now: int): Entry {
    var b := if e.Some? then e.value else Entry(0, None, now);
    var c := b.(count := b.count + 1, lastActivity := now);
    if c.count >= Threshold then c.(blockedUntil := Some(now + Ban), count := 0) else c
  }

  lemma ChargeAgrees(e: Option<Entry>, fs: seq<int>, now: int)
    requires Agrees(e, fs, now) && (e.Some? ==> e.value.blockedUntil.None?)
    ensures Agrees(Some(Charged(e, now)), fs + [now], now)
  {
  }

  /** Of five failures in a row the fifth, and none before it, locks the address out for half an hour. */
  lemma FifthFailureLocks(t1: int, t2: int, t3: int, t4: int, t5: int)
    ensures var e1 := Charged(None, t1);
            var e2 := Charged(Some(e1), t2);
            var e3 := Charged(Some(e2), t3);
            var e4 := Charged(Some(e3), t4);
            var e5 := Charged(Some(e4), t5);
            && e1.blockedUntil.None? && e2.blockedUntil.None? && e3.blockedUntil.None? && e4.blockedUntil.None?
            && (forall now :: !Blocked(e4, now) && (Idle(e4, now) <==> now > t4 + 7_200_000))
            && (forall now :: Blocked(e5, now) <==> now < t5 + 1_800_000)
  {
  }

  /** A ban is set, running or not. */
  predicate Banned(e: Option<Entry>) {
    e.Some? && e.value.blockedUntil.Some?
  }

  /** A failure of a request that had passed the gate before the ban was set. */
  lemma LateChargeAgrees(e: Option<Entry>, fs: seq<int>, now: int)
    requires Agrees(e, fs, now) && Banned(e)
    ensures Agrees(Some(Charged(e, now)), fs, now)
  {
  }

  // ----- the lockout table -----

  function EntryOf(lockouts: map<string, Entry>, ip: string): Option<Entry> {
    if ip in lockouts then Some(lockouts[ip]) else None
  }

  function LogOf(failures: map<string, seq<int>>, ip: string): seq<int> {
    if ip in failures then failures[ip] else []
  }

  /** The table agrees with the log address by address. */
  ghost predicate Coherent(lockouts: map<string, Entry>, failures: map<string, seq<int>>, clock: int) {
    forall ip: string :: Agrees(EntryOf(lockouts, ip), LogOf(failures, ip), clock)
  }

  lemma LaterIsCoherent(lockouts: map<string, Entry>, failures: map<string, seq<int>>, clock: int, now: int)
    requires Coherent(lockouts, failures, clock) && clock <= now
    ensures Coherent(lockouts, failures, now)
  {
    forall ip: string
      ensures Agrees(EntryOf(lockouts, ip), LogOf(failures, ip), now)
    {
      TimePasses(EntryOf(lockouts, ip), LogOf(failures, ip), clock, now);
    }
  }

  lemma PutIsCoherent(lockouts: map<string, Entry>, failures: map<string, seq<int>>, clock: int, ip: string, e: Entry,
                      log: seq<int>)
    requires Coherent(lockouts, failures, clock) && Agrees(Some(e), log, clock)
    ensures Coherent(lockouts[ip := e], failures[ip := log], clock)
    ensures log == LogOf(failures, ip) ==> Coherent(lockouts[ip := e], failures, clock)
  {
    hide Agrees;
    forall x: string
      ensures Agrees(EntryOf(lockouts[ip := e], x), LogOf(failures[ip := log], x), clock)
      ensures log == LogOf(failures, ip) ==> Agrees(EntryOf(lockouts[ip := e], x), LogOf(failures, x), clock)
    {
      assert Agrees(EntryOf(lockouts, x), LogOf(failures, x), clock);
    }
  }

  lemma DropIsCoherent(lockouts: map<string, Entry>, failures: map<string, seq<int>>, clock: int, ip: string)
    requires Coherent(lockouts, failures, clock)
    ensures Coherent(lockouts - {ip}, failures - {ip}, clock)
    ensures ip in lockouts && Idle(lockouts[ip], clock) ==> Coherent(lockouts - {ip}, failures, clock)
  {
    assert Agrees(None, [], clock);
    assert Agrees(EntryOf(lockouts, ip), LogOf(failures, ip), clock);
    if ip in lockouts && Idle(lockouts[ip], clock) {
      PurgeAgrees(lockouts[ip], LogOf(failures, ip), clock);
    }
    hide Agrees;
    forall x: string
      ensures Agrees(EntryOf(lockouts - {ip}, x), LogOf(failures - {ip}, x), clock)
      ensures ip in lockouts && Idle(lockouts[ip], clock) ==>
              Agrees(EntryOf(lockouts - {ip}, x), LogOf(failures, x), clock)
    {
      assert Agrees(EntryOf(lockouts, x), LogOf(failures, x), clock);
    }
  }

  lemma CheckIsCoherent(lockouts: map<string, Entry>, failures: map<string, seq<int>>, now: int, ip: string)
    requires Coherent(lockouts, failures, now) && ip in lockouts
    ensures Coherent(lockouts[ip := Checked(lockouts[ip], now)], failures, now)
  {
    assert Agrees(EntryOf(lockouts, ip), LogOf(failures, ip), now);
    CheckAgrees(lockouts[ip], LogOf(failures, ip), now);
    hide Agrees;
    PutIsCoherent(lockouts, failures, now, ip, Checked(lockouts[ip], now), LogOf(failures, ip));
  }

  lemma ChargeIsCoherent(lockouts: map<string, Entry>, failures: map<string, seq<int>>, now: int, ip: string)
    requires Coherent(lockouts, failures, now)
    ensures var log := LogOf(failures, ip) + if Banned(EntryOf(lockouts, ip)) then [] else [now];
            Coherent(lockouts[ip := Charged(EntryOf(lockouts, ip), now)], failures[ip := log], now)
  {
    var e, log := EntryOf(lockouts, ip), LogOf(failures, ip);
    assert Agrees(e, log, now);
    if Banned(e) {
      LateChargeAgrees(e, log, now);
      assert log + [] == log;
    } else {
      ChargeAgrees(e, log, now);
    }
    hide Agrees;
    PutIsCoherent(lockouts, failures, now, ip, Charged(e, now), log + if Banned(e) then [] else [now]);
  }

  datatype Reply = Rejected(retryMs: int) | Accepted | Denied | Locked(retryMs: int)

  class Guard {
    var lockouts: map<string, Entry>
    /** Times of the failed comparisons since the last success: those that found no ban set, and those that did. */
    ghost var failures: map<string, seq<int>>
    ghost var late: map<string, seq<int>>
    ghost var clock: int

    ghost function Failures(ip: string): seq<int>
      reads this
    {
      LogOf(failures, ip)
    }

    ghost predicate Valid()
      reads this
    {
      Coherent(lockouts, failures, clock) && "" !in lockouts
    }

    constructor (now: int)
      ensures Valid() && lockouts == map[] && failures == map[] && late == map[] && clock == now
    {
      lockouts, failures, late, clock := map[], map[], map[], now;
    }

    ghost method Advance(now: int)
      requires Valid() && clock <= now
      modifies this`clock
      ensures Valid() && clock == now
    {
      LaterIsCoherent(lockouts, failures, clock, now);
      hide Coherent;
      clock := now;
    }

    /** The time to wait, if the address is blocked; an expired ban is cleared on the way. */
    method CheckLockout(ip: string, now: int) returns (retryMs: Option<int>)
      requires Valid() && clock <= now
      modifies this`lockouts, this`clock
      ensures Valid() && clock == now
      ensures retryMs.Some? <==> ip in old(lockouts) && Blocked(old(lockouts[ip]), now)
      ensures retryMs.Some? ==> retryMs.value == old(lockouts[ip]).blockedUntil.value - now > 0 && lockouts == old(lockouts)
      ensures retryMs.None? && ip in old(lockouts) ==> lockouts == old(lockouts)[ip := Checked(old(lockouts[ip]), now)]
      ensures ip !in old(lockouts) ==> lockouts == old(lockouts)
    {
      hide Agrees, Coherent;
      Advance(now);
      if ip == "" || ip !in lockouts {
        return None;
      }
      var e := lockouts[ip];
      if Blocked(e, now) {
        return Some(e.blockedUntil.value - now);
      }
      if e.blockedUntil.Some? {
        CheckIsCoherent(lockouts, failures, now, ip);
        lockouts := lockouts[ip := e.(count := 0, blockedUntil := None)];
      }
      return None;
    }

    /** Entries without activity for long and without a ban are dropped. */
    method PurgeLockouts(now: int)
      requires Valid() && clock == now
      modifies this`lockouts
      ensures Valid()
      ensures lockouts == map ip | ip in old(lockouts) && !Idle(old(lockouts[ip]), now) :: old(lockouts[ip])
    {
      hide Agrees, Coherent;
      var todo := lockouts.Keys;
      while todo != {}
        invariant Valid() && todo <= lockouts.Keys
        invariant lockouts.Keys <= old(lockouts).Keys
        invariant forall ip :: ip in lockouts ==> lockouts[ip] == old(lockouts[ip])
        invariant forall ip :: ip in old(lockouts) && ip !in todo ==>
                (ip in lockouts <==> !Idle(old(lockouts[ip]), now))
        decreases |todo|
      {
        var ip :| ip in todo;
        if Idle(lockouts[ip], now) {
          DropIsCoherent(lockouts, failures, now, ip);
          lockouts := lockouts - {ip};
        }
        todo := todo - {ip};
      }
    }

    /** The entry a failure finds, once idle ones have gone. */
    function Found(ip: string, now: int): Option<Entry>
      reads this
    {
      if ip in lockouts && !Idle(lockouts[ip], now) then Some(lockouts[ip]) else None
    }

    /**
     A failed comparison: counted, and locked out at the fifth. One that finds a ban set, because its request
     had passed the gate before, counts towards the next ban.
     */
    method FailedAuthAttempt(ip: string, now: int) returns (retryMs: Option<int>)
      requires Valid() && clock <= now
      modifies this
      ensures Valid() && clock == now
      ensures ip == "" ==> retryMs.None? && lockouts == old(lockouts) && failures == old(failures) && late == old(late)
      ensures ip != "" ==>
                && lockouts.Keys == (set x | x in old(lockouts) && !Idle(old(lockouts[x]), now)) + {ip}
                && (forall x :: x in lockouts && x != ip ==> lockouts[x] == old(lockouts[x]))
                && var e := old(Found(ip, now));
                   var c := 1 + if e.Some? then e.value.count else 0;
                   var ban := if e.Some? then e.value.blockedUntil else None;
                   && (if ban.None?
                       then failures == old(failures)[ip := old(Failures(ip)) + [now]] && late == old(late)
                       else failures == old(failures)[ip := old(Failures(ip))]
                            && late == old(late)[ip := LogOf(old(late), ip) + [now]])
                   && (if c < Threshold
                       then lockouts[ip] == Entry(c, ban, now)
                            && retryMs == (if ban.Some? && ban.value > now then Some(ban.value - now) else None)
                       else lockouts[ip] == Entry(0, Some(now + Ban), now) && retryMs == Some(Ban))
    {
      hide Agrees, Coherent;
      Advance(now);
      if ip == "" {
        return None;
      }
      PurgeLockouts(now);
      ChargeIsCoherent(lockouts, failures, now, ip);
      var e := Charged(EntryOf(lockouts, ip), now);
      if Banned(EntryOf(lockouts, ip)) {
        late := late[ip := LogOf(late, ip) + [now]];
        assert Failures(ip) + [] == Failures(ip);
        failures := failures[ip := Failures(ip)];
      } else {
        failures := failures[ip := Failures(ip) + [now]];
      }
      lockouts := lockouts[ip := e];
      retryMs := if Blocked(e, now) then Some(e.blockedUntil.value - now) else None;
    }

    /** A success forgets the address. */
    method SuccessfulAuthAttempt(ip: string)
      requires Valid()
      modifies this`lockouts, this`failures, this`late
      ensures Valid() && ip !in lockouts && (ip != "" ==> Failures(ip) == [])
      ensures lockouts == old(lockouts) - {ip}
    {
      hide Agrees, Coherent;
      DropIsCoherent(lockouts, failures, clock, ip);
      if ip == "" {
        return;
      }
      lockouts := lockouts - {ip};
      failures := failures - {ip};
      late := late - {ip};
    }

    /** One request: the gate is asked first, and only then the password is compared. */
    method HandleRequest(ip: string, valid: bool, checkAt: int, failAt: int) returns (r: Reply)
      requires Valid() && clock <= checkAt <= failAt
      modifies this
      ensures Valid()
      ensures r.Rejected? <==> ip in old(lockouts) && Blocked(old(lockouts[ip]), checkAt)
      ensures r.Rejected? ==> failures == old(failures)
      ensures !r.Rejected? ==> (r.Accepted? <==> valid)
      ensures r.Denied? || r.Locked? ==> ip != "" ==> failures == old(failures)[ip := old(Failures(ip)) + [failAt]]
      ensures r.Locked? ==> r.retryMs == Ban
      ensures r.Denied? || r.Locked? ==> late == old(late)
    {
      hide Agrees, Coherent;
      var wait := CheckLockout(ip, checkAt);
      if wait.Some? {
        return Rejected(wait.value);
      }
      if valid {
        SuccessfulAuthAttempt(ip);
        return Accepted;
      }
      var locked := FailedAuthAttempt(ip, failAt);
      r := if locked.Some? then Locked(locked.value) else Denied;
    }

    /**
     In every reachable state, however requests overlap: since its last success no address had more than five
     failed comparisons without a ban set in any half-open half hour, and its counter is below five. Only
     failures that find a ban set come on top, and a request handled without others in between
     is none (`HandleRequest`).
     */
    lemma AtMostFiveInAnyHalfHour(ip: string, w: int)
      requires Valid()
      ensures CountIn(Failures(ip), w, w + 1_800_000) <= 5
      ensures ip in lockouts ==> lockouts[ip].count < 5
    {
      assert Agrees(EntryOf(lockouts, ip), LogOf(failures, ip), clock);
      WindowHoldsFive(Failures(ip), w);
    }
  }
}
