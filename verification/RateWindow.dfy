/**
 The per-minute request history of an account (`internal/auth/pool.go`, `pruneRPM`): why
 keeping only recent times is enough, and what counting them bounds.
 */
module RateWindow {

  const Window := 60_000

  /** A request granted, and the cap that was in force for it. */
  datatype Grant = Grant(at: int, cap: nat)

  function Times(log: seq<Grant>): (r: seq<int>)
    ensures |r| == |log|
    ensures forall i :: 0 <= i < |log| ==> r[i] == log[i].at
  {
    seq(|log|, i requires 0 <= i < |log| => log[i].at)
  }

  ghost predicate Ordered(ts: seq<int>) {
    forall i, j :: 0 <= i < j < |ts| ==> ts[i] <= ts[j]
  }

  /** The times not before `cutoff`. */
  function Kept(ts: seq<int>, cutoff: int): (r: seq<int>)
    ensures |r| <= |ts|
    ensures forall t :: t in r <==> t in ts && t >= cutoff
  {
    if ts == [] then []
    else
      var n := |ts| - 1;
      var rest := Kept(ts[..n], cutoff);
      assert ts == ts[..n] + [ts[n]];
      if ts[n] >= cutoff then rest + [ts[n]] else rest
  }

  /** `pruneRPM`: compacts the first `n` cells of the buffer in place. */
  method Compact(buf: array<int>, n: nat, cutoff: int) returns (k: nat)
    requires n <= buf.Length
    modifies buf
    ensures k <= n && buf[..k] == Kept(old(buf[..n]), cutoff)
  {
    k := 0;
    for i := 0 to n
      invariant k <= i && buf[..k] == Kept(old(buf[..i]), cutoff)
      invariant buf[i..n] == old(buf[i..n])
    {
      ghost var seen := old(buf[..i + 1]);
      assert seen[..i] == old(buf[..i]);
      assert buf[i] == buf[i..n][0] == seen[i];
      if buf[i] >= cutoff {
        buf[k] := buf[i];
        k := k + 1;
      }
    }
  }

  lemma {:induction false} KeptAppend(ts: seq<int>, t: int, cutoff: int)
    ensures Kept(ts + [t], cutoff) == Kept(ts, cutoff) + if t >= cutoff then [t] else []
  {
    assert (ts + [t])[..|ts|] == ts;
  }

  /** Pruning twice is pruning at the later time: what is dropped never matters again. */
  lemma {:induction false} KeptKept(ts: seq<int>, c: int, d: int)
    requires c <= d
    ensures Kept(Kept(ts, c), d) == Kept(ts, d)
  {
    if ts != [] {
      var n := |ts| - 1;
      KeptKept(ts[..n], c, d);
      if ts[n] >= c {
        KeptAppend(Kept(ts[..n], c), ts[n], d);
      }
    }
  }

  lemma {:induction false} KeptNothing(ts: seq<int>, cutoff: int)
    requires forall i :: 0 <= i < |ts| ==> ts[i] < cutoff
    ensures Kept(ts, cutoff) == []
  {
    if ts != [] {
      KeptNothing(ts[..|ts| - 1], cutoff);
    }
  }

  /** Of an ordered log pruning keeps a suffix. */
  lemma {:induction false} KeptIsSuffix(ts: seq<int>, cutoff: int)
    requires Ordered(ts)
    ensures var k := |Kept(ts, cutoff)|;
            && ts[|ts| - k..] == Kept(ts, cutoff)
            && forall i :: 0 <= i < |ts| - k ==> ts[i] < cutoff
  {
    if ts != [] {
      var n := |ts| - 1;
      KeptIsSuffix(ts[..n], cutoff);
      var k := |Kept(ts[..n], cutoff)|;
      if ts[n] >= cutoff {
        assert ts[n - k..] == ts[..n][n - k..] + [ts[n]];
      } else {
        KeptNothing(ts, cutoff);
      }
    }
  }

  // ----- counting grants in a window -----

  /** How many grants fall into the closed interval. */
  function CountIn(log: seq<Grant>, lo: int, hi: int): nat {
    if log == [] then 0
    else
      var n := |log| - 1;
      CountIn(log[..n], lo, hi) + if lo <= log[n].at <= hi then 1 else 0
  }

  lemma CountSnoc(log: seq<Grant>, g: Grant, lo: int, hi: int)
    ensures CountIn(log + [g], lo, hi) == CountIn(log, lo, hi) + if lo <= g.at <= hi then 1 else 0
  {
    assert (log + [g])[..|log|] == log;
  }

  lemma {:induction false} CountIsKept(log: seq<Grant>, lo: int, hi: int)
    requires forall i :: 0 <= i < |log| ==> log[i].at <= hi
    ensures CountIn(log, lo, hi) == |Kept(Times(log), lo)|
  {
    if log != [] {
      var n := |log| - 1;
      CountIsKept(log[..n], lo, hi);
      assert Times(log)[..n] == Times(log[..n]);
    }
  }

  /** Each grant was, counting itself, within its cap over the minute that it ends. */
  ghost predicate WithinCaps(log: seq<Grant>) {
    forall i :: 0 <= i < |log| ==> CapHeld(log, i)
  }

  ghost predicate CapHeld(log: seq<Grant>, i: nat)
    requires i < |log|
  {
    CountIn(log[..i + 1], log[i].at - Window, log[i].at) <= log[i].cap
  }

  lemma GrantKeepsCaps(log: seq<Grant>, g: Grant)
    requires WithinCaps(log) && CountIn(log, g.at - Window, g.at) < g.cap
    ensures WithinCaps(log + [g])
  {
    var all := log + [g];
    forall i | 0 <= i < |all|
      ensures CapHeld(all, i)
    {
      if i < |log| {
        assert CapHeld(log, i) && all[..i + 1] == log[..i + 1];
      } else {
        assert all[..i + 1] == all;
        CountSnoc(log, g, g.at - Window, g.at);
      }
    }
  }

  lemma {:induction false} CountMonotone(log: seq<Grant>, lo: int, hi: int, lo': int, hi': int)
    requires forall i :: 0 <= i < |log| && lo <= log[i].at <= hi ==> lo' <= log[i].at <= hi'
    ensures CountIn(log, lo, hi) <= CountIn(log, lo', hi')
  {
    if log != [] {
      CountMonotone(log[..|log| - 1], lo, hi, lo', hi');
    }
  }

  /** Any closed minute, wherever it starts, holds no more grants than the largest cap. */
  lemma {:induction false} WindowHoldsTheCap(log: seq<Grant>, w: int, cap: nat)
    requires Ordered(Times(log)) && WithinCaps(log)
    requires forall i :: 0 <= i < |log| ==> log[i].cap <= cap
    ensures CountIn(log, w, w + Window) <= cap
  {
    if log != [] {
      var n := |log| - 1;
      var g := log[n];
      if w <= g.at <= w + Window {
        assert CapHeld(log, n) && log[..n + 1] == log;
        assert forall i :: 0 <= i < |log| ==> log[i].at == Times(log)[i] <= g.at;
        CountMonotone(log, w, w + Window, g.at - Window, g.at);
      } else {
        PrefixKeepsLog(log, n);
        WindowHoldsTheCap(log[..n], w, cap);
      }
    }
  }

  lemma PrefixKeepsLog(log: seq<Grant>, n: nat)
    requires n <= |log| && Ordered(Times(log)) && WithinCaps(log)
    ensures Ordered(Times(log[..n])) && WithinCaps(log[..n])
  {
    forall i | 0 <= i < n
      ensures CapHeld(log[..n], i)
    {
      assert CapHeld(log, i) && log[..n][..i + 1] == log[..i + 1];
    }
    assert forall i :: 0 <= i < n ==> Times(log[..n])[i] == Times(log)[i];
  }
}
