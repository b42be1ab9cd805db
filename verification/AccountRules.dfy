/**
 The rules by which the account pool answers (`internal/auth/pool.go`), on values: who is
 eligible, who is preferred, what pruning leaves, and what rate-limit windows promise.
 `AccountPool` has the pool itself.
 */
module AccountRules {
  import opened RateWindow

  /** The part of an account the selection looks at. */
  datatype Acct = Acct(key: string, status: string, tier: string, until: int, models: map<string, int>,
                       blocked: seq<string>, lastUsed: int, history: seq<int>)

  /** A request for an account: the model asked for (or ""), and keys already tried. */
  datatype Ask = Ask(tried: set<string>, model: string)

  /** `models.IsTierAllowed`. */
  type TierTable = (string, string) -> bool

  function Cap(tier: string): nat {
    if tier == "pro" then 60
    else if tier == "free" then 10
    else if tier == "expired" then 0
    else 20
  }

  predicate Limited(a: Acct, model: string, now: int) {
    a.until > now || (model != "" && model in a.models && a.models[model] > now)
  }

  predicate MayUse(a: Acct, model: string, allowed: TierTable) {
    model == "" || (allowed(a.tier, model) && model !in a.blocked)
  }

  function Recent(a: Acct, now: int): seq<int> {
    Kept(a.history, now - Window)
  }

  function Used(a: Acct, now: int): nat {
    |Recent(a, now)|
  }

  predicate Eligible(a: Acct, ask: Ask, now: int, allowed: TierTable) {
    && a.status == "active" && a.key !in ask.tried
    && !Limited(a, ask.model, now)
    && Cap(a.tier) > 0
    && MayUse(a, ask.model, allowed)
    && Used(a, now) < Cap(a.tier)
  }

  /** A candidate as `Acquire` ranks it. */
  datatype Candidate = Candidate(used: nat, limit: nat, lastUsed: int)

  function CandidateOf(a: Acct, now: int): Candidate {
    Candidate(Used(a, now), Cap(a.tier), a.lastUsed)
  }

  /**
   The order of `sort.Slice`: the larger unused share of the cap first, then the longest unused.
   The shares are compared by cross-multiplication.
   */
  predicate Before(x: Candidate, y: Candidate) {
    var rx, ry := (x.limit - x.used) * y.limit, (y.limit - y.used) * x.limit;
    rx > ry || (rx == ry && x.lastUsed < y.lastUsed)
  }

  /** The order is a strict weak one, so that sorting by it puts a minimum first. */
  lemma NotBeforeIsTransitive(x: Candidate, y: Candidate, z: Candidate)
    requires x.limit > 0 && y.limit > 0 && z.limit > 0
    requires !Before(y, x) && !Before(z, y)
    ensures !Before(z, x)
  {
    var ux, uy, uz := x.limit - x.used, y.limit - y.used, z.limit - z.used;
    CrossMultiply(ux, x.limit, uy, y.limit, uz, z.limit);
  }

  /** Not to come behind another: an unused share no smaller and, if the shares are the same, no later use. */
  lemma NotBehindIff(x: Candidate, y: Candidate)
    ensures !Before(y, x) <==>
            var ux, uy := (x.limit - x.used) * y.limit, (y.limit - y.used) * x.limit;
            ux >= uy && (ux == uy ==> x.lastUsed <= y.lastUsed)
  {
  }

  /** What it takes to be eligible, in the fields themselves and the limits per minute. */
  lemma EligibleIff(a: Acct, ask: Ask, now: int, allowed: TierTable)
    ensures Eligible(a, ask, now, allowed) <==>
            && a.status == "active" && a.key !in ask.tried && a.until <= now
            && (ask.model != "" ==>
                  && (ask.model in a.models ==> a.models[ask.model] <= now)
                  && allowed(a.tier, ask.model) && ask.model !in a.blocked)
            && |Kept(a.history, now - 60_000)| <
               (match a.tier case "pro" => 60 case "free" => 10 case "expired" => 0 case _ => 20)
  {
  }

  lemma CrossMultiply(ux: int, lx: nat, uy: int, ly: nat, uz: int, lz: nat)
    requires lx > 0 && ly > 0 && lz > 0
    requires ux * ly >= uy * lx && uy * lz >= uz * ly
    ensures ux * lz >= uz * lx
    ensures ux * lz == uz * lx ==> ux * ly == uy * lx && uy * lz == uz * ly
  {
    Scale(ux * ly, uy * lx, lz);
    Scale(uy * lz, uz * ly, lx);
    assert (ux * lz) * ly == (ux * ly) * lz && (uz * lx) * ly == (uz * ly) * lx && (uy * lx) * lz == (uy * lz) * lx;
    Unscale(ux * lz, uz * lx, ly);
    if ux * lz == uz * lx {
      Unscale(uy * lx, ux * ly, lz);
      Unscale(uz * ly, uy * lz, lx);
    }
  }

  lemma Scale(a: int, b: int, k: nat)
    requires a >= b
    ensures a * k >= b * k
  {
  }

  lemma Unscale(a: int, b: int, k: nat)
    requires k > 0 && a * k >= b * k
    ensures a >= b
  {
    if a < b {
      Scale(b - 1, a, k);
    }
  }

  // ----- what looking at an account leaves behind -----

  function DropExpired(a: Acct, model: string, now: int): Acct {
    if model != "" && model in a.models && a.models[model] <= now then a.(models := a.models - {model}) else a
  }

  /** The account after `Acquire` considered it without choosing it. */
  function Visited(a: Acct, ask: Ask, now: int, allowed: TierTable): Acct {
    if a.status != "active" || a.key in ask.tried || Limited(a, ask.model, now) then a
    else
      var b := DropExpired(a, ask.model, now);
      if Cap(a.tier) == 0 || !MayUse(a, ask.model, allowed) then b else b.(history := Recent(a, now))
  }

  function Granted(a: Acct, now: int): Acct {
    a.(history := a.history + [now], lastUsed := now)
  }

  /** A grant: the times of the last minute and now, and now as the last use. */
  lemma GrantIs(a: Acct, ask: Ask, now: int, allowed: TierTable)
    requires Eligible(a, ask, now, allowed)
    ensures var g := Granted(Visited(a, ask, now, allowed), now);
            && g.history == Kept(a.history, now - 60_000) + [now] && g.lastUsed == now
            && g.status == a.status && g.tier == a.tier && g.key == a.key && g.until == a.until && g.blocked == a.blocked
  {
  }

  /** Looking never matters: every later question about the account gets the same answer. */
  lemma VisitingChangesNoAnswer(a: Acct, ask: Ask, now: int, allowed: TierTable, later: Ask, t: int)
    requires now <= t
    ensures var b := Visited(a, ask, now, allowed);
            && Limited(b, later.model, t) == Limited(a, later.model, t)
            && Used(b, t) == Used(a, t)
            && Eligible(b, later, t, allowed) == Eligible(a, later, t, allowed)
            && CandidateOf(b, t) == CandidateOf(a, t)
  {
    KeptKept(a.history, now - Window, t - Window);
  }

  /** `Load` drops the windows that have ended. */
  function Pruned(a: Acct, now: int): Acct {
    a.(until := if a.until > 0 && a.until <= now then 0 else a.until,
       models := map m | m in a.models && a.models[m] > now :: a.models[m])
  }

  /** Reloading at a time no earlier than the epoch changes no answer either. */
  lemma ReloadingChangesNoAnswer(a: Acct, now: int, model: string, t: int)
    requires 0 <= now <= t
    ensures Limited(Pruned(a, now), model, t) == Limited(a, model, t)
  {
  }

  // ----- when every account is limited -----

  predicate Counts(a: Acct, model: string, allowed: TierTable) {
    a.status == "active" && MayUse(a, model, allowed)
  }

  /** The ends of the windows that hold the account back now. */
  function Ends(a: Acct, model: string, now: int): set<int> {
    (if a.until > now then {a.until} else {})
    + (if model != "" && model in a.models && a.models[model] > now then {a.models[model]} else {})
  }

  function AllEnds(accts: seq<Acct>, model: string, now: int, allowed: TierTable): set<int> {
    if accts == [] then {}
    else
      var n := |accts| - 1;
      AllEnds(accts[..n], model, now, allowed)
      + if Counts(accts[n], model, allowed) then Ends(accts[n], model, now) else {}
  }

  lemma {:induction false} EndsAreIn(accts: seq<Acct>, i: nat, model: string, now: int, allowed: TierTable)
    requires i < |accts| && Counts(accts[i], model, allowed)
    ensures Ends(accts[i], model, now) <= AllEnds(accts, model, now, allowed)
  {
    if i < |accts| - 1 {
      EndsAreIn(accts[..|accts| - 1], i, model, now, allowed);
    }
  }

  /** A window of an active account that may use the model ends then. */
  predicate EndsThen(a: Acct, model: string, allowed: TierTable, e: int) {
    && a.status == "active" && (model == "" || (allowed(a.tier, model) && model !in a.blocked))
    && (a.until == e || (model != "" && model in a.models && a.models[model] == e))
  }

  lemma EndOfOne(a: Acct, model: string, now: int, allowed: TierTable, e: int)
    ensures Counts(a, model, allowed) && e in Ends(a, model, now) <==> e > now && EndsThen(a, model, allowed, e)
  {
  }

  lemma {:induction false} EndOfSome(accts: seq<Acct>, model: string, now: int, allowed: TierTable, e: int)
    ensures e in AllEnds(accts, model, now, allowed) <==>
            e > now && exists a :: a in accts && EndsThen(a, model, allowed, e)
  {
    hide Counts, Ends, EndsThen;
    if accts != [] {
      var n := |accts| - 1;
      EndOfSome(accts[..n], model, now, allowed, e);
      EndOfOne(accts[n], model, now, allowed, e);
      assert accts == accts[..n] + [accts[n]];
    }
  }

  /** A time is one of the ends exactly if such a window ends then, later than now. */
  lemma EndsIff(accts: seq<Acct>, model: string, now: int, allowed: TierTable, e: int)
    ensures e in AllEnds(accts, model, now, allowed) <==>
            e > now
            && exists a :: a in accts
                           && a.status == "active" && (model == "" || (allowed(a.tier, model) && model !in a.blocked))
                           && (a.until == e || (model != "" && model in a.models && a.models[model] == e))
  {
    EndOfSome(accts, model, now, allowed, e);
    hide AllEnds;
    assert forall a :: EndsThen(a, model, allowed, e) <==>
                         && a.status == "active" && (model == "" || (allowed(a.tier, model) && model !in a.blocked))
                         && (a.until == e || (model != "" && model in a.models && a.models[model] == e));
  }

  /** Some account counts, and all that count are limited. */
  predicate AllLimited(accts: seq<Acct>, model: string, now: int, allowed: TierTable) {
    && (exists i :: 0 <= i < |accts| && Counts(accts[i], model, allowed))
    && (forall i :: 0 <= i < |accts| && Counts(accts[i], model, allowed) ==> Limited(accts[i], model, now))
  }

  /** Until the first window ends, no request for the model finds an account, whatever was tried. */
  lemma NothingFreesBefore(accts: seq<Acct>, model: string, now: int, soonest: int, allowed: TierTable,
                           tried: set<string>, t: int)
    requires AllLimited(accts, model, now, allowed)
    requires forall e :: e in AllEnds(accts, model, now, allowed) ==> soonest <= e
    requires now <= t < soonest
    ensures forall i :: 0 <= i < |accts| ==> !Eligible(accts[i], Ask(tried, model), t, allowed)
  {
    forall i | 0 <= i < |accts|
      ensures !Eligible(accts[i], Ask(tried, model), t, allowed)
    {
      if Counts(accts[i], model, allowed) {
        EndsAreIn(accts, i, model, now, allowed);
        assert Ends(accts[i], model, now) != {};
      }
    }
  }

  // ----- the length of a quarantine -----

  function Marked(a: Acct, model: string, until: int): Acct {
    if model != "" then a.(models := a.models[model := until]) else a.(until := until)
  }

  /**
   A mark holds the account back, for its model or for all, until the window ends and no longer,
   unless another window does; it replaces an earlier mark of the same scope even if that was longer.
   */
  lemma MarkHolds(a: Acct, model: string, until: int, asked: string, t: int)
    ensures Limited(Marked(a, model, until), asked, t) <==>
              || ((model == "" || model == asked) && t < until)
              || (model != "" && a.until > t)
              || (asked != "" && asked != model && asked in a.models && a.models[asked] > t)
  {
  }

  const Millisecond := 1_000_000
  const Minute := 60_000_000_000

  /** `EffectiveRateLimitWindow`, in nanoseconds; `Milliseconds` truncates. */
  function EffectiveWindow(d: int): (r: int)
    ensures r % Minute == 0 && r >= Minute
    ensures d > 0 ==> r < d + 2 * Minute
  {
    if d <= 0 then Minute
    else
      var ms := d / Millisecond;
      (ms + 60_000 - 1) / 60_000 * Minute + Minute
  }

  function EffectiveMillis(d: int): int {
    EffectiveWindow(d) / Millisecond
  }

  /**
   The window covers what the server asked for plus a whole minute, unless the request runs over a
   whole minute by less than a millisecond, which the conversion drops; then the grace covers it.
   */
  lemma WindowCoversTheRequest(d: int)
    requires d > 0
    ensures EffectiveWindow(d) - Minute >= d <==> d % Minute == 0 || d % Minute >= Millisecond
    ensures EffectiveWindow(d) > d
  {
    var q, r := d / Minute, d % Minute;
    assert d / Millisecond == 60_000 * q + r / Millisecond;
    if r / Millisecond == 0 {
      assert EffectiveWindow(d) == q * Minute + Minute;
    } else {
      assert (r / Millisecond + 60_000 - 1) / 60_000 == 1;
      assert EffectiveWindow(d) == (q + 1) * Minute + Minute;
    }
  }
}
