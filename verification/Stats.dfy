/**
 The request statistics (`internal/stats/stats.go`). A ghost log keeps every recorded call since
 the last reset; each counter is tied to a count over the log, and the tables are shown to add up.
 */
module Stats {
  import opened Options

  datatype Call = Call(model: string, success: bool, ms: int, account: string, input: int, output: int, status: int, hour: string)

  datatype Tally = Tally(requests: nat, success: nat, errors: nat)
  datatype ModelCounts = ModelCounts(tally: Tally, totalMs: int, recent: seq<int>, input: int, output: int)
  datatype AccountCounts = AccountCounts(tally: Tally, rateLimits: nat, internalErrors: nat, quarantines: nat, fallbacks: nat)
  datatype Bucket = Bucket(hour: string, requests: nat, errors: nat)

  const Zero := Tally(0, 0, 0)
  const NewModel := ModelCounts(Zero, 0, [], 0, 0)
  const NewAccount := AccountCounts(Zero, 0, 0, 0, 0)
  const MaxBuckets := 72
  const MaxRecent := 200

  function Bump(t: Tally, success: bool): Tally {
    Tally(t.requests + 1, t.success + if success then 1 else 0, t.errors + if success then 0 else 1)
  }

  function Plus(a: Tally, b: Tally): Tally {
    Tally(a.requests + b.requests, a.success + b.success, a.errors + b.errors)
  }

  // ----- the tables a call is entered in -----

  datatype Table = ByStatus | ByModel | ByAccount | ByHour

  function Itoa(n: nat): string {
    var digit := [(n % 10) as char + '0'];
    if n < 10 then digit else Itoa(n / 10) + digit
  }

  /** No upstream status counts as "0". */
  function StatusKey(status: int): string {
    if status > 0 then Itoa(status) else "0"
  }

  function AccountKey(account: string): string {
    if |account| > 8 then account[..8] else account
  }

  function KeyIn(t: Table, c: Call): Option<string> {
    match t
    case ByStatus => Some(StatusKey(c.status))
    case ByModel => Some(c.model)
    case ByAccount => if c.account == "" then None else Some(AccountKey(c.account))
    case ByHour => Some(c.hour)
  }

  /** The calls of the log under one key of a table. */
  function Tallied(log: seq<Call>, t: Table, k: string): Tally {
    if log == [] then Zero
    else
      var n := |log| - 1;
      var before := Tallied(log[..n], t, k);
      if KeyIn(t, log[n]) == Some(k) then Bump(before, log[n].success) else before
  }

  function Total(log: seq<Call>): Tally {
    if log == [] then Zero else Bump(Total(log[..|log| - 1]), log[|log| - 1].success)
  }

  lemma TalliedSnoc(log: seq<Call>, c: Call)
    ensures forall t, k :: Tallied(log + [c], t, k) ==
                           if KeyIn(t, c) == Some(k) then Bump(Tallied(log, t, k), c.success) else Tallied(log, t, k)
    ensures Total(log + [c]) == Bump(Total(log), c.success)
  {
    hide KeyIn, Bump;
    assert (log + [c])[..|log|] == log;
  }

  lemma TotalSnoc(log: seq<Call>, c: Call)
    ensures Total(log + [c]) == Bump(Total(log), c.success)
  {
    assert (log + [c])[..|log|] == log;
  }

  lemma {:induction false} TotalBalances(log: seq<Call>)
    ensures Total(log).requests == |log| == Total(log).success + Total(log).errors
  {
    if log != [] {
      TotalBalances(log[..|log| - 1]);
    }
  }

  /** How many calls of the log succeeded, and how many failed. */
  function Outcomes(log: seq<Call>, success: bool): nat {
    |set i | 0 <= i < |log| && log[i].success == success|
  }

  lemma OutcomesSnoc(log: seq<Call>, success: bool)
    requires log != []
    ensures Outcomes(log, success) ==
            Outcomes(log[..|log| - 1], success) + if log[|log| - 1].success == success then 1 else 0
  {
    var n := |log| - 1;
    var all := set i | 0 <= i < |log| && log[i].success == success;
    var front := set i | 0 <= i < |log[..n]| && log[..n][i].success == success;
    assert all == front + if log[n].success == success then {n} else {};
  }

  /** The total counts the calls, those that succeeded and those that failed. */
  lemma {:induction false} TotalIs(log: seq<Call>)
    ensures Total(log) == Tally(|log|, Outcomes(log, true), Outcomes(log, false))
  {
    if log != [] {
      TotalIs(log[..|log| - 1]);
      OutcomesSnoc(log, true);
      OutcomesSnoc(log, false);
    }
  }

  /** Under a key a table counts the calls that fall under it, as the total counts all. */
  lemma {:induction false} TalliedIs(log: seq<Call>, t: Table, k: string)
    ensures Tallied(log, t, k) == Total(Under(log, t, k))
  {
    hide KeyIn;
    if log != [] {
      var n := |log| - 1;
      TalliedIs(log[..n], t, k);
      if KeyIn(t, log[n]) == Some(k) {
        TotalSnoc(Under(log[..n], t, k), log[n]);
      } else {
        assert Under(log, t, k) == Under(log[..n], t, k);
      }
    }
  }

  function Under(log: seq<Call>, t: Table, k: string): seq<Call> {
    if log == [] then []
    else
      var n := |log| - 1;
      Under(log[..n], t, k) + if KeyIn(t, log[n]) == Some(k) then [log[n]] else []
  }

  /** The keys: the status in decimal, and of an account no more than eight characters. */
  lemma KeysAre(c: Call)
    ensures KeyIn(ByModel, c) == Some(c.model) && KeyIn(ByHour, c) == Some(c.hour)
    ensures c.status == 429 ==> KeyIn(ByStatus, c) == Some("429")
    ensures c.status <= 0 ==> KeyIn(ByStatus, c) == Some("0")
    ensures c.account == "" ==> KeyIn(ByAccount, c) == None
    ensures 0 < |c.account| <= 8 ==> KeyIn(ByAccount, c) == Some(c.account)
    ensures |c.account| > 8 ==> KeyIn(ByAccount, c) == Some(c.account[..8])
  {
    DecimalOf429();
  }

  lemma DecimalOf429()
    ensures Itoa(429) == "429"
  {
    assert 4 as char + '0' == '4' && 2 as char + '0' == '2' && 9 as char + '0' == '9';
    assert Itoa(4) == ['4'];
    assert Itoa(42) == Itoa(4) + ['2'];
    assert Itoa(429) == Itoa(42) + ['9'];
  }

  // ----- a table adds up -----

  predicate Distinct(keys: seq<string>) {
    forall i, j :: 0 <= i < j < |keys| ==> keys[i] != keys[j]
  }

  function SumOver(log: seq<Call>, t: Table, keys: seq<string>): Tally {
    if keys == [] then Zero else Plus(Tallied(log, t, keys[0]), SumOver(log, t, keys[1..]))
  }

  lemma {:induction false} OneMoreInTheSum(log: seq<Call>, c: Call, t: Table, keys: seq<string>)
    requires Distinct(keys)
    ensures SumOver(log + [c], t, keys) ==
            if KeyIn(t, c).Some? && KeyIn(t, c).value in keys then Bump(SumOver(log, t, keys), c.success)
                    else SumOver(log, t, keys)
  {
    hide KeyIn, Tallied, Bump, Plus;
    if keys != [] {
      var k, rest := keys[0], keys[1..];
      OneMoreInTheSum(log, c, t, rest);
      TalliedSnoc(log, c);
      BumpMoves(Tallied(log, t, k), SumOver(log, t, rest), c.success);
      FirstIsNew(keys);
    }
  }

  lemma BumpMoves(a: Tally, b: Tally, success: bool)
    ensures Plus(Bump(a, success), b) == Bump(Plus(a, b), success) == Plus(a, Bump(b, success))
  {
  }

  lemma FirstIsNew(keys: seq<string>)
    requires keys != [] && Distinct(keys)
    ensures Distinct(keys[1..]) && keys[0] !in keys[1..] && forall k :: k in keys <==> k in keys[1..] || k == keys[0]
  {
  }

  lemma SumNext(log: seq<Call>, t: Table, keys: seq<string>)
    ensures SumOver(log, t, keys) ==
            if keys == [] then Zero else Plus(Tallied(log, t, keys[0]), SumOver(log, t, keys[1..]))
  {
    hide Tallied, Plus;
  }

  lemma PlusNone(a: Tally, b: Tally)
    requires b.requests == b.success == b.errors == 0
    ensures Plus(a, b) == a
  {
  }

  lemma {:induction false} EmptySum(t: Table, keys: seq<string>)
    ensures SumOver([], t, keys) == Zero
  {
    hide SumOver, Tallied, Plus;
    SumNext([], t, keys);
    if keys != [] {
      EmptySum(t, keys[1..]);
      NothingTallied(t, keys[0]);
      PlusNone(Zero, Zero);
    }
  }

  lemma NothingTallied(t: Table, k: string)
    ensures Tallied([], t, k) == Zero
  {
  }

  /** Over keys that cover the log a table sums to the total: requests, successes and errors alike. */
  lemma {:induction false} TableAddsUp(log: seq<Call>, t: Table, keys: seq<string>)
    requires Distinct(keys)
    requires forall i :: 0 <= i < |log| ==> KeyIn(t, log[i]).Some? && KeyIn(t, log[i]).value in keys
    ensures SumOver(log, t, keys) == Total(log)
  {
    hide KeyIn, Tallied;
    if log == [] {
      EmptySum(t, keys);
    } else {
      var n := |log| - 1;
      TableAddsUp(log[..n], t, keys);
      OneMoreInTheSum(log[..n], log[n], t, keys);
      assert log == log[..n] + [log[n]];
    }
  }

  lemma {:induction false} SumIsWithin(log: seq<Call>, t: Table, keys: seq<string>)
    requires Distinct(keys)
    ensures SumOver(log, t, keys).requests <= |log| && SumOver(log, t, keys).errors <= Total(log).errors
  {
    hide KeyIn, Tallied;
    if log == [] {
      EmptySum(t, keys);
    } else {
      var n := |log| - 1;
      SumIsWithin(log[..n], t, keys);
      OneMoreInTheSum(log[..n], log[n], t, keys);
      assert log == log[..n] + [log[n]];
    }
  }

  // ----- what the counters say about the log -----

  /** The positive durations of a model's calls. */
  function Durations(log: seq<Call>, model: string): seq<int> {
    if log == [] then []
    else
      var c := log[|log| - 1];
      Durations(log[..|log| - 1], model) + if c.model == model && c.ms > 0 then [c.ms] else []
  }

  /** Milliseconds, input tokens and output tokens of a model's calls. */
  function Sums(log: seq<Call>, model: string): (int, int, int) {
    if log == [] then (0, 0, 0)
    else
      var c, (ms, input, output) := log[|log| - 1], Sums(log[..|log| - 1], model);
      if c.model == model then (ms + c.ms, input + c.input, output + c.output) else (ms, input, output)
  }

  function LastOf(s: seq<int>, n: nat): seq<int> {
    if |s| > n then s[|s| - n..] else s
  }

  lemma LastOfSnoc(s: seq<int>, x: int, n: nat)
    requires n > 0
    ensures LastOf(LastOf(s, n) + [x], n) == LastOf(s + [x], n)
  {
  }

  function StatusOf(m: map<string, nat>, k: string): nat {
    if k in m then m[k] else 0
  }

  function ModelOf(m: map<string, ModelCounts>, k: string): ModelCounts {
    if k in m then m[k] else NewModel
  }

  function AccountOf(m: map<string, AccountCounts>, k: string): AccountCounts {
    if k in m then m[k] else NewAccount
  }

  ghost predicate StatusesAgree(m: map<string, nat>, log: seq<Call>) {
    forall k: string :: StatusOf(m, k) == Tallied(log, ByStatus, k).requests
  }

  ghost predicate ModelsAgree(m: map<string, ModelCounts>, log: seq<Call>) {
    && (forall k: string :: ModelOf(m, k).tally == Tallied(log, ByModel, k))
    && (forall k: string :: ModelOf(m, k).recent == LastOf(Durations(log, k), MaxRecent))
    && SumsAgree(m, log)
  }

  ghost predicate SumsAgree(m: map<string, ModelCounts>, log: seq<Call>) {
    forall k: string :: (ModelOf(m, k).totalMs, ModelOf(m, k).input, ModelOf(m, k).output) == Sums(log, k)
  }

  ghost predicate AccountsAgree(m: map<string, AccountCounts>, log: seq<Call>) {
    forall k: string :: AccountOf(m, k).tally == Tallied(log, ByAccount, k)
  }

  /**
   At most 72 buckets of distinct hours. A bucket never counts too much, and counts exactly unless
   its hour had been dropped before; an hour without a bucket was dropped.
   */
  ghost predicate BucketsAgree(bs: seq<Bucket>, dropped: set<string>, log: seq<Call>) {
    && |bs| <= MaxBuckets
    && (forall i, j :: 0 <= i < j < |bs| ==> bs[i].hour != bs[j].hour)
    && (forall i :: 0 <= i < |bs| ==> BucketAgrees(bs[i], dropped, log))
    && (forall i :: 0 <= i < |log| ==> log[i].hour in dropped || HasHour(bs, log[i].hour))
  }

  ghost predicate BucketAgrees(b: Bucket, dropped: set<string>, log: seq<Call>) {
    var t := Tallied(log, ByHour, b.hour);
    && b.requests <= t.requests && b.errors <= t.errors
    && (b.hour !in dropped ==> b.requests == t.requests && b.errors == t.errors)
  }

  ghost predicate HasHour(bs: seq<Bucket>, h: string) {
    exists i :: 0 <= i < |bs| && bs[i].hour == h
  }

  lemma StatusRecorded(m: map<string, nat>, log: seq<Call>, c: Call)
    requires StatusesAgree(m, log)
    ensures var k := StatusKey(c.status); StatusesAgree(m[k := StatusOf(m, k) + 1], log + [c])
  {
    TalliedSnoc(log, c);
    hide Tallied, StatusKey;
  }

  /** One more call of the model. */
  function WithCall(mc: ModelCounts, c: Call): ModelCounts {
    ModelCounts(Bump(mc.tally, c.success), mc.totalMs + c.ms,
                if c.ms > 0 then LastOf(mc.recent + [c.ms], MaxRecent) else mc.recent,
                mc.input + c.input, mc.output + c.output)
  }

  lemma SumsRecorded(m: map<string, ModelCounts>, log: seq<Call>, c: Call)
    requires SumsAgree(m, log)
    ensures SumsAgree(m[c.model := WithCall(ModelOf(m, c.model), c)], log + [c])
  {
    hide LastOf, Bump;
    assert (log + [c])[..|log|] == log;
    var m' := m[c.model := WithCall(ModelOf(m, c.model), c)];
    forall k: string
      ensures (ModelOf(m', k).totalMs, ModelOf(m', k).input, ModelOf(m', k).output) == Sums(log + [c], k)
    {
      assert (ModelOf(m, k).totalMs, ModelOf(m, k).input, ModelOf(m, k).output) == Sums(log, k);
    }
  }

  lemma ModelRecorded(m: map<string, ModelCounts>, log: seq<Call>, c: Call)
    requires ModelsAgree(m, log)
    ensures ModelsAgree(m[c.model := WithCall(ModelOf(m, c.model), c)], log + [c])
  {
    TalliedSnoc(log, c);
    assert (log + [c])[..|log|] == log;
    var all := Durations(log, c.model);
    LastOfSnoc(all, c.ms, MaxRecent);
    assert all + [] == all;
    SumsRecorded(m, log, c);
    hide Tallied, LastOf, Bump, SumsAgree;
    var m' := m[c.model := WithCall(ModelOf(m, c.model), c)];
    forall k: string
      ensures ModelOf(m', k).recent == LastOf(Durations(log + [c], k), MaxRecent)
    {
      assert ModelOf(m, k).recent == LastOf(Durations(log, k), MaxRecent);
      assert Durations(log, k) + [] == Durations(log, k);
    }
    forall k: string
      ensures ModelOf(m', k).tally == Tallied(log + [c], ByModel, k)
    {
      assert ModelOf(m, k).tally == Tallied(log, ByModel, k);
    }
  }

  lemma AccountRecorded(m: map<string, AccountCounts>, log: seq<Call>, c: Call)
    requires AccountsAgree(m, log)
    ensures c.account == "" ==> AccountsAgree(m, log + [c])
    ensures c.account != "" ==>
              var k := AccountKey(c.account); var a := AccountOf(m, k);
              AccountsAgree(m[k := a.(tally := Bump(a.tally, c.success))], log + [c])
  {
    TalliedSnoc(log, c);
    hide Tallied, AccountKey, Bump;
  }

  // ----- hours -----

  function Charged(b: Bucket, success: bool): Bucket {
    b.(requests := b.requests + 1, errors := b.errors + if success then 0 else 1)
  }

  lemma HourRecorded(bs: seq<Bucket>, dropped: set<string>, log: seq<Call>, c: Call, i: nat)
    requires BucketsAgree(bs, dropped, log) && i < |bs| && bs[i].hour == c.hour
    ensures BucketsAgree(bs[i := Charged(bs[i], c.success)], dropped, log + [c])
  {
    TalliedSnoc(log, c);
    hide Tallied;
    var bs' := bs[i := Charged(bs[i], c.success)];
    forall j | 0 <= j < |bs'|
      ensures BucketAgrees(bs'[j], dropped, log + [c])
    {
      assert BucketAgrees(bs[j], dropped, log);
    }
    forall k | 0 <= k < |log + [c]|
      ensures (log + [c])[k].hour in dropped || HasHour(bs', (log + [c])[k].hour)
    {
      if k < |log| && log[k].hour !in dropped {
        assert HasHour(bs, log[k].hour);
        var j :| 0 <= j < |bs| && bs[j].hour == log[k].hour;
        assert bs'[j].hour == log[k].hour;
      } else if k == |log| {
        assert bs'[i].hour == c.hour;
      }
    }
  }

  /** A new hour's bucket, and the oldest one dropped if there are too many. */
  function WithHour(bs: seq<Bucket>, h: string): seq<Bucket> {
    var more := bs + [Bucket(h, 0, 0)];
    if |more| > MaxBuckets then more[|more| - MaxBuckets..] else more
  }

  function DroppedBy(bs: seq<Bucket>, dropped: set<string>): set<string> {
    if |bs| >= MaxBuckets then dropped + {bs[0].hour} else dropped
  }

  lemma {:induction false} UnseenHourIsZero(log: seq<Call>, h: string)
    requires forall i :: 0 <= i < |log| ==> log[i].hour != h
    ensures Tallied(log, ByHour, h) == Zero
  {
    if log != [] {
      UnseenHourIsZero(log[..|log| - 1], h);
    }
  }

  lemma HourAdded(bs: seq<Bucket>, dropped: set<string>, log: seq<Call>, h: string)
    requires BucketsAgree(bs, dropped, log) && !HasHour(bs, h)
    ensures var after := WithHour(bs, h);
            BucketsAgree(after, DroppedBy(bs, dropped), log) && after != [] && after[|after| - 1] == Bucket(h, 0, 0)
  {
    var after, gone := WithHour(bs, h), DroppedBy(bs, dropped);
    var off := if |bs| >= MaxBuckets then 1 else 0;
    assert |after| == |bs| + 1 - off;
    assert forall j :: 0 <= j < |after| - 1 ==> after[j] == bs[j + off];
    if h !in dropped {
      assert forall i :: 0 <= i < |log| ==> log[i].hour != h;
      UnseenHourIsZero(log, h);
    }
    hide Tallied, WithHour;
    forall j | 0 <= j < |after|
      ensures BucketAgrees(after[j], gone, log)
    {
      if j < |after| - 1 {
        assert BucketAgrees(bs[j + off], dropped, log);
      }
    }
    forall k | 0 <= k < |log|
      ensures log[k].hour in gone || HasHour(after, log[k].hour)
    {
      if log[k].hour !in gone {
        assert HasHour(bs, log[k].hour);
        var j :| 0 <= j < |bs| && bs[j].hour == log[k].hour;
        assert after[j - off].hour == log[k].hour;
      }
    }
  }

  class Counters {
    var total: Tally
    var statuses: map<string, nat>
    var models: map<string, ModelCounts>
    var accounts: map<string, AccountCounts>
    var buckets: seq<Bucket>
    var totalInput: int
    var totalOutput: int

    ghost var log: seq<Call>
    ghost var dropped: set<string>

    ghost predicate Valid()
      reads this
    {
      && total == Total(log)
      && StatusesAgree(statuses, log) && ModelsAgree(models, log) && AccountsAgree(accounts, log)
      && BucketsAgree(buckets, dropped, log)
    }

    constructor ()
      ensures Valid() && log == []
    {
      total, statuses, models, accounts, buckets := Zero, map[], map[], map[], [];
      totalInput, totalOutput, log, dropped := 0, 0, [], {};
    }

    method Record(c: Call)
      requires Valid()
      modifies this
      ensures Valid() && log == old(log) + [c]
      ensures totalInput == old(totalInput) + (if c.input > 0 then c.input else 0)
      ensures totalOutput == old(totalOutput) + (if c.output > 0 then c.output else 0)
    {
      hide Total, StatusesAgree, ModelsAgree, AccountsAgree, BucketsAgree, Bump;
      TotalSnoc(log, c);
      total := Bump(total, c.success);
      CountStatus(c);
      CountTokens(c);
      CountModel(c);
      CountAccount(c);
      CountHour(c);
      log := log + [c];
    }

    method CountStatus(c: Call)
      requires StatusesAgree(statuses, log)
      modifies this`statuses
      ensures StatusesAgree(statuses, log + [c])
    {
      hide StatusesAgree;
      StatusRecorded(statuses, log, c);
      var statusKey := StatusKey(c.status);
      statuses := statuses[statusKey := StatusOf(statuses, statusKey) + 1];
    }

    method CountTokens(c: Call)
      modifies this`totalInput, this`totalOutput
      ensures totalInput == old(totalInput) + (if c.input > 0 then c.input else 0)
      ensures totalOutput == old(totalOutput) + (if c.output > 0 then c.output else 0)
    {
      if c.input > 0 {
        totalInput := totalInput + c.input;
      }
      if c.output > 0 {
        totalOutput := totalOutput + c.output;
      }
    }

    method CountModel(c: Call)
      requires ModelsAgree(models, log)
      modifies this`models
      ensures ModelsAgree(models, log + [c])
    {
      hide ModelsAgree;
      ModelRecorded(models, log, c);
      models := models[c.model := WithCall(ModelOf(models, c.model), c)];
    }

    method CountAccount(c: Call)
      requires AccountsAgree(accounts, log)
      modifies this`accounts
      ensures AccountsAgree(accounts, log + [c])
    {
      hide AccountsAgree;
      AccountRecorded(accounts, log, c);
      if c.account != "" {
        var key := AccountKey(c.account);
        var ac := AccountOf(accounts, key);
        accounts := accounts[key := ac.(tally := Bump(ac.tally, c.success))];
      }
    }

    /** The bucket of the hour: found, or made new with the oldest dropped over capacity. */
    method CountHour(c: Call)
      requires BucketsAgree(buckets, dropped, log)
      modifies this`buckets, this`dropped
      ensures BucketsAgree(buckets, dropped, log + [c])
    {
      hide Tallied, BucketsAgree;
      var i := FindHour(buckets, c.hour);
      if i.None? {
        HourAdded(buckets, dropped, log, c.hour);
        dropped := DroppedBy(buckets, dropped);
        buckets := WithHour(buckets, c.hour);
        i := Some(|buckets| - 1);
      }
      HourRecorded(buckets, dropped, log, c, i.value);
      buckets := buckets[i.value := Charged(buckets[i.value], c.success)];
    }

    /** Circuit events have counters of their own and leave the tallies alone. */
    method RecordCircuitEvent(account: string, kind: string)
      requires Valid()
      modifies this`accounts
      ensures Valid()
      ensures account == "" || kind == "" ==> accounts == old(accounts)
      ensures account != "" && kind != "" ==>
                var key := AccountKey(account);
                var before, after := AccountOf(old(accounts), key), AccountOf(accounts, key);
                && accounts == old(accounts)[key := after] && after.tally == before.tally
                && after.rateLimits == before.rateLimits + (if kind == "rateLimit" then 1 else 0)
                && after.internalErrors == before.internalErrors + (if kind == "internalError" then 1 else 0)
                && after.quarantines == before.quarantines + (if kind == "quarantine" then 1 else 0)
                && after.fallbacks == before.fallbacks + (if kind == "fallback" then 1 else 0)
    {
      hide Tallied;
      if account == "" || kind == "" {
        return;
      }
      var key := AccountKey(account);
      var ac := AccountOf(accounts, key);
      if kind == "rateLimit" {
        ac := ac.(rateLimits := ac.rateLimits + 1);
      } else if kind == "internalError" {
        ac := ac.(internalErrors := ac.internalErrors + 1);
      } else if kind == "quarantine" {
        ac := ac.(quarantines := ac.quarantines + 1);
      } else if kind == "fallback" {
        ac := ac.(fallbacks := ac.fallbacks + 1);
      }
      accounts := accounts[key := ac];
    }

    method Reset()
      modifies this
      ensures Valid() && log == []
    {
      total, statuses, models, accounts, buckets := Zero, map[], map[], map[], [];
      totalInput, totalOutput, log, dropped := 0, 0, [], {};
    }

    /** total = success + errors = sum of the status histogram = sum over the models, and each split adds up. */
    lemma EverythingAddsUp(statusKeys: seq<string>, modelKeys: seq<string>)
      requires Valid()
      requires Distinct(statusKeys) && forall k :: k in statuses <==> k in statusKeys
      requires Distinct(modelKeys) && forall k :: k in models <==> k in modelKeys
      ensures total.requests == |log| == total.success + total.errors
      ensures StatusSum(statuses, statusKeys) == total.requests && ModelSum(models, modelKeys) == total
      ensures forall k :: k in models ==> models[k].tally.requests == models[k].tally.success + models[k].tally.errors
      ensures forall k :: k in accounts ==>
              accounts[k].tally.requests == accounts[k].tally.success + accounts[k].tally.errors
      ensures forall k :: k in models ==> |models[k].recent| <= MaxRecent
    {
      TotalBalances(log);
      forall i | 0 <= i < |log|
        ensures StatusKey(log[i].status) in statusKeys && log[i].model in modelKeys
      {
        CallIsTallied(log, ByStatus, i);
        CallIsTallied(log, ByModel, i);
        assert StatusOf(statuses, StatusKey(log[i].status)) > 0;
        assert ModelOf(models, log[i].model).tally.requests > 0;
      }
      hide Tallied;
      TableAddsUp(log, ByStatus, statusKeys);
      TableAddsUp(log, ByModel, modelKeys);
      StatusSumIs(statuses, log, statusKeys);
      ModelSumIs(models, log, modelKeys);
      forall k | k in accounts
        ensures accounts[k].tally.requests == accounts[k].tally.success + accounts[k].tally.errors
      {
        assert AccountOf(accounts, k) == accounts[k];
        TalliedBalances(log, ByAccount, k);
      }
      forall k | k in models
        ensures models[k].tally.requests == models[k].tally.success + models[k].tally.errors
        ensures |models[k].recent| <= MaxRecent
      {
        assert ModelOf(models, k) == models[k];
        TalliedBalances(log, ByModel, k);
      }
    }

    /** The hourly buckets are few, of distinct hours, and together never exceed the total. */
    lemma BucketsStayWithin()
      requires Valid()
      ensures |buckets| <= MaxBuckets
      ensures forall i, j :: 0 <= i < j < |buckets| ==> buckets[i].hour != buckets[j].hour
      ensures BucketSum(buckets) <= total.requests
    {
      var hours := Hours(buckets);
      SumIsWithin(log, ByHour, hours);
      TotalBalances(log);
      BucketSumWithin(buckets, log);
    }
  }

  /** The histogram's counts, and the models' tallies, over the listed keys. */
  function StatusSum(m: map<string, nat>, keys: seq<string>): nat {
    if keys == [] then 0 else StatusOf(m, keys[0]) + StatusSum(m, keys[1..])
  }

  function ModelSum(m: map<string, ModelCounts>, keys: seq<string>): Tally {
    if keys == [] then Zero else Plus(ModelOf(m, keys[0]).tally, ModelSum(m, keys[1..]))
  }

  lemma {:induction false} StatusSumIs(m: map<string, nat>, log: seq<Call>, keys: seq<string>)
    requires StatusesAgree(m, log)
    ensures StatusSum(m, keys) == SumOver(log, ByStatus, keys).requests
  {
    hide Tallied;
    if keys != [] {
      StatusSumIs(m, log, keys[1..]);
      assert StatusOf(m, keys[0]) == Tallied(log, ByStatus, keys[0]).requests;
    }
  }

  lemma {:induction false} ModelSumIs(m: map<string, ModelCounts>, log: seq<Call>, keys: seq<string>)
    requires ModelsAgree(m, log)
    ensures ModelSum(m, keys) == SumOver(log, ByModel, keys)
  {
    hide Tallied;
    if keys != [] {
      ModelSumIs(m, log, keys[1..]);
      assert ModelOf(m, keys[0]).tally == Tallied(log, ByModel, keys[0]);
    }
  }

  function Hours(bs: seq<Bucket>): seq<string> {
    seq(|bs|, i requires 0 <= i < |bs| => bs[i].hour)
  }

  function BucketSum(bs: seq<Bucket>): nat {
    if bs == [] then 0 else bs[0].requests + BucketSum(bs[1..])
  }

  lemma {:induction false} BucketSumWithin(bs: seq<Bucket>, log: seq<Call>)
    requires forall i :: 0 <= i < |bs| ==> bs[i].requests <= Tallied(log, ByHour, bs[i].hour).requests
    ensures BucketSum(bs) <= SumOver(log, ByHour, Hours(bs)).requests
  {
    hide Tallied;
    if bs != [] {
      BucketSumWithin(bs[1..], log);
      assert Hours(bs)[1..] == Hours(bs[1..]) && Hours(bs)[0] == bs[0].hour;
    }
  }

  method FindHour(bs: seq<Bucket>, h: string) returns (r: Option<nat>)
    ensures r.Some? ==> r.value < |bs| && bs[r.value].hour == h
    ensures r.None? <==> !HasHour(bs, h)
  {
    for i := 0 to |bs|
      invariant forall j :: 0 <= j < i ==> bs[j].hour != h
    {
      if bs[i].hour == h {
        return Some(i);
      }
    }
    return None;
  }

  lemma {:induction false} CallIsTallied(log: seq<Call>, t: Table, i: nat)
    requires i < |log| && KeyIn(t, log[i]).Some?
    ensures Tallied(log, t, KeyIn(t, log[i]).value).requests > 0
  {
    hide KeyIn;
    if i < |log| - 1 {
      CallIsTallied(log[..|log| - 1], t, i);
    }
  }

  lemma {:induction false} TalliedBalances(log: seq<Call>, t: Table, k: string)
    ensures Tallied(log, t, k).requests == Tallied(log, t, k).success + Tallied(log, t, k).errors
  {
    hide KeyIn;
    if log != [] {
      TalliedBalances(log[..|log| - 1], t, k);
    }
  }
}
