/** Choosing the units the remote no longer tracks. */
module Reconciler {
  import opened StatusTypes

  /** What one reply entry contributes to the removals: its ID when the remote
      did not find it. */
  function GoneContribution(u: RespUnit): seq<string> {
    if u.found then [] else [u.id]
  }

  /** The IDs of the reply entries the remote did not find, in reply order. */
  function GoneIds(resp: seq<RespUnit>): (gone: seq<string>)
    ensures |gone| <= |resp|
  {
    if resp == [] then []
    else GoneIds(resp[..|resp| - 1]) + GoneContribution(resp[|resp| - 1])
  }

  /** The first loop of the reconciler: collect the IDs of the gone units. */
  method CollectGone(resp: seq<RespUnit>) returns (gone: seq<string>)
    ensures gone == GoneIds(resp)
  {
    gone := [];
    for i := 0 to |resp|
      invariant gone == GoneIds(resp[..i])
    {
      assert resp[..i + 1][..i] == resp[..i];
      if !resp[i].found {
        gone := gone + [resp[i].id];
      }
    }
    assert resp[..|resp|] == resp;
  }

  /** Selection keeps the reply's order. */
  lemma {:induction false} GoneIdsAppend(a: seq<RespUnit>, b: seq<RespUnit>)
    ensures GoneIds(a + b) == GoneIds(a) + GoneIds(b)
    decreases |b|
  {
    if b == [] {
      assert a + b == a;
    } else {
      var b' := b[..|b| - 1];
      assert (a + b)[..|a + b| - 1] == a + b';
      GoneIdsAppend(a, b');
    }
  }

  /** An ID is selected exactly when some reply entry with that ID was not found. */
  lemma {:induction false} GoneIdsMembers(resp: seq<RespUnit>, id: string)
    ensures id in GoneIds(resp) <==> exists i :: 0 <= i < |resp| && !resp[i].found && resp[i].id == id
    decreases |resp|
  {
    if resp != [] {
      var init := resp[..|resp| - 1];
      GoneIdsMembers(init, id);
      if id in GoneIds(resp) && id in GoneIds(init) {
        var i :| 0 <= i < |init| && !init[i].found && init[i].id == id;
        assert resp[i] == init[i];
      }
      if exists i :: 0 <= i < |resp| && !resp[i].found && resp[i].id == id {
        var i :| 0 <= i < |resp| && !resp[i].found && resp[i].id == id;
        if i < |resp| - 1 {
          assert init[i] == resp[i];
        }
      }
    }
  }

  /** A unit every reply entry of which says found is never selected. */
  lemma FoundNeverGone(resp: seq<RespUnit>, id: string)
    requires forall i | 0 <= i < |resp| :: resp[i].id == id ==> resp[i].found
    ensures id !in GoneIds(resp)
  {
  }

  /** When each reply entry is not found, every entry is selected, in order. */
  lemma {:induction false} GoneIdsAllMissing(resp: seq<RespUnit>)
    requires forall i | 0 <= i < |resp| :: !resp[i].found
    ensures |GoneIds(resp)| == |resp|
    ensures forall k | 0 <= k < |resp| :: GoneIds(resp)[k] == resp[k].id
    decreases |resp|
  {
    if resp != [] {
      var init := resp[..|resp| - 1];
      assert forall i | 0 <= i < |init| :: init[i] == resp[i];
      GoneIdsAllMissing(init);
    }
  }

  /** A found unit and a gone one: only the gone one is selected. */
  lemma GoneIdsExample()
    ensures GoneIds([RespUnit("a", true), RespUnit("b", false)]) == ["b"]
  {
  }
}
