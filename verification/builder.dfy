/** Turning the runtime's container list into the status payload. */
module ReportBuilder {
  import opened StatusTypes
  import opened StatusDeriver

  /** The payload entry of a managed container. */
  function Report(l: Listed): (e: ContainerStatus)
    requires !l.inspection.NotManaged?
    ensures e.id == l.container.id
    ensures e.name == ReportedName(l.container.names)
    ensures e.status == DeriveStatus(l.inspection) && IsLabel(e.status)
  {
    ContainerStatus(l.container.id, ReportedName(l.container.names), DeriveStatus(l.inspection))
  }

  /** What one listed container contributes to the payload: nothing when it is
      not a unit, its entry otherwise. */
  function Contribution(l: Listed): seq<ContainerStatus> {
    if l.inspection.NotManaged? then [] else [Report(l)]
  }

  /** The payload for a container list, in list order. */
  function Payload(listed: seq<Listed>): (p: seq<ContainerStatus>)
    ensures |p| <= |listed|
    ensures forall e | e in p :: IsLabel(e.status)
  {
    if listed == [] then []
    else Payload(listed[..|listed| - 1]) + Contribution(listed[|listed| - 1])
  }

  /** The loop of the report builder: one pass over the list, appending the
      entry of every managed container. */
  method BuildPayload(listed: seq<Listed>) returns (payload: seq<ContainerStatus>)
    ensures payload == Payload(listed)
  {
    payload := [];
    for i := 0 to |listed|
      invariant payload == Payload(listed[..i])
    {
      assert listed[..i + 1][..i] == listed[..i];
      var c := listed[i];
      if c.inspection.NotManaged? {
        continue;
      }
      var status := DeriveStatus(c.inspection);
      var name := ReportedName(c.container.names);
      payload := payload + [ContainerStatus(c.container.id, name, status)];
    }
    assert listed[..|listed|] == listed;
  }

  /** The payload of a concatenation is the concatenation of the payloads, so
      the builder keeps the list's order. */
  lemma {:induction false} PayloadAppend(a: seq<Listed>, b: seq<Listed>)
    ensures Payload(a + b) == Payload(a) + Payload(b)
    decreases |b|
  {
    if b == [] {
      assert a + b == a;
    } else {
      var b' := b[..|b| - 1];
      assert (a + b)[..|a + b| - 1] == a + b';
      PayloadAppend(a, b');
    }
  }

  /** An entry is in the payload exactly when some managed container reports it. */
  lemma {:induction false} PayloadMembers(listed: seq<Listed>, e: ContainerStatus)
    ensures e in Payload(listed) <==>
      exists i :: 0 <= i < |listed| && !listed[i].inspection.NotManaged? && e == Report(listed[i])
    decreases |listed|
  {
    if listed != [] {
      var init, last := listed[..|listed| - 1], listed[|listed| - 1];
      PayloadMembers(init, e);
      assert Payload(listed) == Payload(init) + Contribution(last);
      if e in Payload(init) {
        var i :| 0 <= i < |init| && !init[i].inspection.NotManaged? && e == Report(init[i]);
        assert listed[i] == init[i];
      } else if e in Contribution(last) {
        assert listed[|listed| - 1] == last;
      }
      if exists i :: 0 <= i < |listed| && !listed[i].inspection.NotManaged? && e == Report(listed[i]) {
        var i :| 0 <= i < |listed| && !listed[i].inspection.NotManaged? && e == Report(listed[i]);
        if i < |listed| - 1 {
          assert init[i] == listed[i];
        } else {
          assert e in Contribution(last);
        }
      }
    }
  }

  /** The payload is empty, and no request is sent, exactly when no listed
      container is a managed unit (an empty list included). */
  lemma {:induction false} PayloadEmptyIff(listed: seq<Listed>)
    ensures Payload(listed) == [] <==> forall i | 0 <= i < |listed| :: listed[i].inspection.NotManaged?
    decreases |listed|
  {
    if listed != [] {
      var init := listed[..|listed| - 1];
      PayloadEmptyIff(init);
      assert forall i | 0 <= i < |init| :: init[i] == listed[i];
    }
  }

  /** A container that is not a unit is skipped entirely: dropping it from
      anywhere in the list leaves the payload as it was. */
  lemma NotManagedSkipped(pre: seq<Listed>, x: Listed, post: seq<Listed>)
    requires x.inspection.NotManaged?
    ensures Payload(pre + [x] + post) == Payload(pre + post)
  {
    PayloadAppend(pre + [x], post);
    PayloadSkipsLast(pre, x);
    PayloadAppend(pre, post);
  }

  /** Appending a container that is not a unit leaves the payload as it was. */
  lemma PayloadSkipsLast(pre: seq<Listed>, x: Listed)
    requires x.inspection.NotManaged?
    ensures Payload(pre + [x]) == Payload(pre)
  {
  }

  /** When every container is a unit, the payload has one entry per container,
      at the same position and with the same ID. */
  lemma {:induction false} PayloadOfUnits(listed: seq<Listed>)
    requires forall i | 0 <= i < |listed| :: !listed[i].inspection.NotManaged?
    ensures |Payload(listed)| == |listed|
    ensures forall k | 0 <= k < |listed| :: Payload(listed)[k] == Report(listed[k])
    decreases |listed|
  {
    if listed != [] {
      var init, last := listed[..|listed| - 1], listed[|listed| - 1];
      assert forall i | 0 <= i < |init| :: init[i] == listed[i];
      PayloadOfUnits(init);
      var p := Payload(listed);
      assert p == Payload(init) + [Report(last)];
      forall k | 0 <= k < |listed| ensures p[k] == Report(listed[k]) {
        if k < |init| {
          assert p[k] == Payload(init)[k];
        }
      }
    }
  }

  /** A running container and a restarting one, both inspected successfully. */
  lemma PayloadExample()
    ensures Payload([
      Listed(ApiContainer("a", ["/app-a"]), Inspected(false, true)),
      Listed(ApiContainer("b", ["/app-b"]), Inspected(true, true))])
      == [ContainerStatus("a", "app-a", StatusStarted), ContainerStatus("b", "app-b", StatusError)]
  {
  }
}
