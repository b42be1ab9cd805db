/**
 The chunks the chat handler writes to its stream (`internal/server/chat.go`), one constructor for
 each kind, and what they add up to.
 */
module ChatWrites {
  import opened Options
  import opened Upstream

  datatype Emission =
    | Role
    | Content(text: string)
    | Thought(text: string)
    | Call(idx: int, id: string, name: string, args: string)
    | Ended(reason: string, usage: Option<Usage>)
    | UsageOnly(usage: Option<Usage>)
    | KeepAlive
    | DoneMark

  function ContentOf(es: seq<Emission>): string {
    if es == [] then ""
    else
      var n := |es| - 1;
      ContentOf(es[..n]) + if es[n].Content? then es[n].text else ""
  }

  function ThoughtOf(es: seq<Emission>): string {
    if es == [] then ""
    else
      var n := |es| - 1;
      ThoughtOf(es[..n]) + if es[n].Thought? then es[n].text else ""
  }

  /** The calls among the writes, in order. */
  function CallsOf(es: seq<Emission>): seq<Emission> {
    if es == [] then []
    else
      var n := |es| - 1;
      CallsOf(es[..n]) + if es[n].Call? then [es[n]] else []
  }

  lemma WritesSnoc(es: seq<Emission>, e: Emission)
    ensures ContentOf(es + [e]) == ContentOf(es) + if e.Content? then e.text else ""
    ensures ThoughtOf(es + [e]) == ThoughtOf(es) + if e.Thought? then e.text else ""
    ensures CallsOf(es + [e]) == CallsOf(es) + if e.Call? then [e] else []
  {
    assert (es + [e])[..|es|] == es;
  }

  /** The role is written first, and once. */
  predicate RoleComesFirst(es: seq<Emission>) {
    es != [] && es[0] == Role && forall i :: 0 < i < |es| ==> es[i] != Role
  }

  lemma RoleSnoc(es: seq<Emission>, e: Emission)
    ensures RoleComesFirst(es) && e != Role ==> RoleComesFirst(es + [e])
    ensures es == [] && e == Role ==> RoleComesFirst(es + [e])
  {
  }

  lemma RoleIsLeading(es: seq<Emission>)
    requires RoleComesFirst(es)
    ensures es != [] && es[0] == Role && forall i :: 0 < i < |es| ==> es[i] != Role
  {
  }

  /** Every call is written whole, under an index of its own. */
  predicate CallsAreDistinct(es: seq<Emission>) {
    forall i, j :: 0 <= i < j < |es| && es[i].Call? && es[j].Call? ==> es[i].idx != es[j].idx
  }

  /** Calls written under their position among the calls are written under distinct indices. */
  lemma {:induction false} PositionsAreDistinct(es: seq<Emission>)
    requires forall k :: 0 <= k < |CallsOf(es)| ==> CallsOf(es)[k].Call? && CallsOf(es)[k].idx == k
    ensures CallsAreDistinct(es)
    ensures forall i :: 0 <= i < |es| && es[i].Call? ==> 0 <= es[i].idx < |CallsOf(es)|
  {
    if es != [] {
      var n := |es| - 1;
      var calls := CallsOf(es[..n]);
      assert forall k :: 0 <= k < |calls| ==> calls[k] == CallsOf(es)[k];
      PositionsAreDistinct(es[..n]);
      assert es[n].Call? ==> CallsOf(es)[|calls|] == es[n];
      assert forall i :: 0 <= i < n ==> es[i] == es[..n][i];
    }
  }

  /** The keep-alives come from a goroutine of its own, between any two writes. */
  function NoPings(es: seq<Emission>): seq<Emission> {
    if es == [] then []
    else
      var n := |es| - 1;
      NoPings(es[..n]) + if es[n].KeepAlive? then [] else [es[n]]
  }

  lemma {:induction false} PingsSayNothing(es: seq<Emission>)
    ensures ContentOf(NoPings(es)) == ContentOf(es) && ThoughtOf(NoPings(es)) == ThoughtOf(es)
    ensures CallsOf(NoPings(es)) == CallsOf(es)
  {
    if es != [] {
      var n := |es| - 1;
      PingsSayNothing(es[..n]);
      if es[n].KeepAlive? {
        assert NoPings(es) == NoPings(es[..n]);
      } else {
        WritesSnoc(NoPings(es[..n]), es[n]);
      }
    }
  }
}
