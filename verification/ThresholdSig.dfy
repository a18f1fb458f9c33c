/** The coordinator that hands shares to nodes and rebuilds the key from a quorum. */
module ThresholdSig {
  import opened Wrappers
  import opened Bytes
  import opened GaloisTables
  import opened Interpolation
  import opened Shamir

  datatype CoordinatorError =
    | WrongNodeCount
    | UnknownRequest
    | InsufficientParticipants
    | UnknownNode
    | Sharing(error: ShamirError)

  /** A keyed digest of a message: HMAC with SHA-256. */
  type Mac = (bytes, bytes) -> bytes

  /** The shares of the first ids, in the order asked for. */
  function Selected(nodes: map<string, Share>, ids: seq<string>): (r: Result<seq<Share>, CoordinatorError>)
    ensures r.Err? ==> r.error == UnknownNode
  {
    if ids == [] then Ok([])
    else
      var rest := Selected(nodes, ids[..|ids| - 1]);
      if rest.Err? then rest
      else if ids[|ids| - 1] !in nodes then Err(UnknownNode)
      else Ok(rest.value + [nodes[ids[|ids| - 1]]])
  }

  /** The nodes after every id has been given its share; a repeated id keeps the last one. */
  function Assigned(nodes: map<string, Share>, ids: seq<string>, issued: seq<Share>): map<string, Share>
    requires |ids| <= |issued|
  {
    if ids == [] then nodes
    else Assigned(nodes, ids[..|ids| - 1], issued)[ids[|ids| - 1] := issued[|ids| - 1]]
  }

  ghost function CombinedKey(nodes: map<string, Share>, requests: set<string>, threshold: nat, request: string,
                             ids: seq<string>): Result<bytes, CoordinatorError>
  {
    if request !in requests then Err(UnknownRequest)
    else if |ids| < threshold then Err(InsufficientParticipants)
    else
      var picked := Selected(nodes, ids[..threshold]);
      if picked.Err? then Err(picked.error)
      else
        var key := Combine(picked.value);
        if key.Err? then Err(Sharing(key.error)) else Ok(key.value)
  }

  class ThresholdSigCoordinator {
    var nodes: map<string, Share>
    var partialSigs: map<string, map<string, bytes>>
    const mac: Mac
    const threshold: nat
    const totalShares: nat

    constructor (mac: Mac, threshold: nat, totalShares: nat)
      ensures this.mac == mac && this.threshold == threshold && this.totalShares == totalShares
      ensures nodes == map[] && partialSigs == map[]
    {
      this.mac := mac;
      this.threshold := threshold;
      this.totalShares := totalShares;
      nodes := map[];
      partialSigs := map[];
    }

    method DistributeShares(tables: Tables, masterSecret: bytes, nodeIds: seq<string>, draw: Draw)
      returns (r: Result<(), CoordinatorError>)
      requires tables.Valid()
      modifies this`nodes
      ensures |nodeIds| != totalShares ==> r == Err(WrongNodeCount)
      ensures |nodeIds| == totalShares ==>
        var issued := Split(masterSecret, threshold, totalShares, draw);
        if issued.Err? then r == Err(Sharing(issued.error))
        else
          && r == Ok(()) && nodes == Assigned(old(nodes), nodeIds, issued.value)
          && (forall k :: 0 <= k < |nodeIds| && (forall j :: k < j < |nodeIds| ==> nodeIds[j] != nodeIds[k]) ==>
                nodeIds[k] in nodes && nodes[nodeIds[k]] == issued.value[k])
          && (forall id :: id !in nodeIds ==> (id in nodes <==> id in old(nodes)) && (id in nodes ==> nodes[id] == old(nodes)[id]))
      ensures r.Err? ==> nodes == old(nodes)
    {
      if |nodeIds| != totalShares {
        return Err(WrongNodeCount);
      }
      var issued := SplitSecret(tables, masterSecret, threshold, totalShares, draw);
      if issued.Err? {
        return Err(Sharing(issued.error));
      }
      for i := 0 to |nodeIds|
        invariant nodes == Assigned(old(nodes), nodeIds[..i], issued.value)
      {
        assert nodeIds[..i + 1][..i] == nodeIds[..i];
        nodes := nodes[nodeIds[i] := issued.value[i]];
      }
      assert nodeIds[..|nodeIds|] == nodeIds;
      forall k | 0 <= k < |nodeIds| && (forall j :: k < j < |nodeIds| ==> nodeIds[j] != nodeIds[k])
        ensures nodeIds[k] in nodes && nodes[nodeIds[k]] == issued.value[k]
      {
        AssignedAt(old(nodes), nodeIds, issued.value, k);
      }
      forall id | id !in nodeIds ensures (id in nodes <==> id in old(nodes)) && (id in nodes ==> nodes[id] == old(nodes)[id]) {
        OthersKept(old(nodes), nodeIds, issued.value, id);
      }
      r := Ok(());
    }

    /**
     * Stores the partial code of every node asked for, once all of them are known: keyed with
     * its share, over the message and the low byte of its share number.
     */
    method BeginSigning(requestId: string, message: bytes, nodeIds: seq<string>) returns (r: Result<(), CoordinatorError>)
      modifies this`partialSigs
      ensures r ==
        if |nodeIds| < threshold then Err(InsufficientParticipants)
        else if exists id :: id in nodeIds && id !in nodes then Err(UnknownNode)
        else Ok(())
      ensures r.Err? ==> partialSigs == old(partialSigs)
      ensures r.Ok? ==> partialSigs.Keys == old(partialSigs.Keys) + {requestId}
      ensures r.Ok? ==> forall other :: other in old(partialSigs) && other != requestId ==> partialSigs[other] == old(partialSigs[other])
      ensures r.Ok? ==> forall id :: id in partialSigs[requestId] <==> id in nodeIds
      ensures r.Ok? ==> forall id :: id in nodeIds ==>
        id in nodes && partialSigs[requestId][id] == mac(nodes[id].data, message + [nodes[id].index % 256])
    {
      if |nodeIds| < threshold {
        return Err(InsufficientParticipants);
      }
      var partials: map<string, bytes> := map[];
      for i := 0 to |nodeIds|
        invariant forall id :: id in partials <==> id in nodeIds[..i]
        invariant forall id :: id in partials ==> id in nodes && partials[id] == mac(nodes[id].data, message + [nodes[id].index % 256])
      {
        if nodeIds[i] !in nodes {
          return Err(UnknownNode);
        }
        var share := nodes[nodeIds[i]];
        partials := partials[nodeIds[i] := mac(share.data, message + [share.index % 256])];
      }
      assert nodeIds[..|nodeIds|] == nodeIds;
      partialSigs := partialSigs[requestId := partials];
      r := Ok(());
    }

    /** The key that combineThresholdSignature signs with. */
    method CombineKey(tables: Tables, requestId: string, participants: seq<string>)
      returns (r: Result<bytes, CoordinatorError>)
      requires tables.Valid()
      ensures r == CombinedKey(nodes, partialSigs.Keys, threshold, requestId, participants)
      ensures r == Err(UnknownRequest) <==> requestId !in partialSigs
      ensures r == Err(InsufficientParticipants) <==> requestId in partialSigs && |participants| < threshold
      ensures r == Err(UnknownNode) <==>
        requestId in partialSigs && |participants| >= threshold && exists i :: 0 <= i < threshold && participants[i] !in nodes
      ensures requestId in partialSigs && |participants| >= threshold ==> forall shares: seq<Share> ::
        |shares| == threshold && (forall i :: 0 <= i < threshold ==> participants[i] in nodes && shares[i] == nodes[participants[i]]) ==>
          r == (var key := Combine(shares); if key.Err? then Err(Sharing(key.error)) else Ok(key.value))
    {
      hide Combine;
      CombinedKeyOutcome(nodes, partialSigs.Keys, threshold, requestId, participants);
      forall shares: seq<Share> |
        && requestId in partialSigs && |participants| >= threshold && |shares| == threshold
        && (forall i :: 0 <= i < threshold ==> participants[i] in nodes && shares[i] == nodes[participants[i]])
        ensures CombinedKey(nodes, partialSigs.Keys, threshold, requestId, participants) ==
          var key := Combine(shares); if key.Err? then Err(Sharing(key.error)) else Ok(key.value)
      {
        CombinedKeyOf(nodes, partialSigs.Keys, threshold, requestId, participants, shares);
      }
      if requestId !in partialSigs {
        return Err(UnknownRequest);
      }
      if |participants| < threshold {
        return Err(InsufficientParticipants);
      }
      var chosen := participants[..threshold];
      var shares: seq<Share> := [];
      for i := 0 to |chosen|
        invariant Selected(nodes, chosen[..i]) == Ok(shares)
      {
        assert chosen[..i + 1][..i] == chosen[..i];
        if chosen[i] !in nodes {
          SelectedUnknown(nodes, chosen, i);
          return Err(UnknownNode);
        }
        shares := shares + [nodes[chosen[i]]];
      }
      assert chosen[..|chosen|] == chosen;
      var key := CombineShares(tables, shares);
      r := if key.Err? then Err(Sharing(key.error)) else Ok(key.value);
    }
  }

  lemma {:induction false} SelectedUnknown(nodes: map<string, Share>, ids: seq<string>, i: nat)
    requires i < |ids| && ids[i] !in nodes
    ensures Selected(nodes, ids) == Err(UnknownNode)
  {
    if i < |ids| - 1 {
      SelectedUnknown(nodes, ids[..|ids| - 1], i);
    }
  }

  lemma {:induction false} SelectedKnown(nodes: map<string, Share>, ids: seq<string>)
    requires forall id :: id in ids ==> id in nodes
    ensures Selected(nodes, ids).Ok? && |Selected(nodes, ids).value| == |ids|
    ensures forall i :: 0 <= i < |ids| ==> Selected(nodes, ids).value[i] == nodes[ids[i]]
  {
    if ids != [] {
      SelectedKnown(nodes, ids[..|ids| - 1]);
    }
  }

  /** The last place of a name decides which share its node holds. */
  lemma {:induction false} AssignedAt(nodes: map<string, Share>, ids: seq<string>, issued: seq<Share>, k: nat)
    requires k < |ids| <= |issued|
    requires forall j :: k < j < |ids| ==> ids[j] != ids[k]
    ensures ids[k] in Assigned(nodes, ids, issued) && Assigned(nodes, ids, issued)[ids[k]] == issued[k]
    decreases |ids|
  {
    if k < |ids| - 1 {
      AssignedAt(nodes, ids[..|ids| - 1], issued, k);
    }
  }

  lemma {:induction false} OthersKept(nodes: map<string, Share>, ids: seq<string>, issued: seq<Share>, id: string)
    requires |ids| <= |issued| && id !in ids
    ensures id in Assigned(nodes, ids, issued) <==> id in nodes
    ensures id in nodes ==> Assigned(nodes, ids, issued)[id] == nodes[id]
    decreases |ids|
  {
    if ids != [] {
      OthersKept(nodes, ids[..|ids| - 1], issued, id);
    }
  }

  /** When combining is refused, and which shares the key comes from otherwise. */
  lemma CombinedKeyOutcome(nodes: map<string, Share>, requests: set<string>, threshold: nat, request: string, ids: seq<string>)
    ensures
      var r := CombinedKey(nodes, requests, threshold, request, ids);
      && (r == Err(UnknownRequest) <==> request !in requests)
      && (r == Err(InsufficientParticipants) <==> request in requests && |ids| < threshold)
      && (r == Err(UnknownNode) <==> request in requests && |ids| >= threshold && exists i :: 0 <= i < threshold && ids[i] !in nodes)
  {
    hide Combine;
    if |ids| >= threshold {
      var chosen := ids[..threshold];
      if i :| 0 <= i < threshold && ids[i] !in nodes {
        assert chosen[i] == ids[i];
        SelectedUnknown(nodes, chosen, i);
      } else {
        assert forall id :: id in chosen ==> id in nodes;
        SelectedKnown(nodes, chosen);
      }
    }
  }

  lemma CombinedKeyOf(nodes: map<string, Share>, requests: set<string>, threshold: nat, request: string, ids: seq<string>, shares: seq<Share>)
    requires request in requests && |ids| >= threshold && |shares| == threshold
    requires forall i :: 0 <= i < threshold ==> ids[i] in nodes && shares[i] == nodes[ids[i]]
    ensures CombinedKey(nodes, requests, threshold, request, ids) ==
      var key := Combine(shares); if key.Err? then Err(Sharing(key.error)) else Ok(key.value)
  {
    hide Combine;
    SelectedKnown(nodes, ids[..threshold]);
    assert Selected(nodes, ids[..threshold]).value == shares;
  }

  /**
   * After distributing shares to differently named nodes, the combined key of a
   * known request is the master secret exactly when the first threshold names
   * are different and their share numbers fit in a byte. An empty secret is
   * recovered by any participants, a zero secret by any different ones.
   */
  lemma QuorumRecoversKey(before: map<string, Share>, requests: set<string>, threshold: nat, total: nat, master: bytes,
                          nodeIds: seq<string>, draw: Draw, request: string, participants: seq<string>)
    requires Split(master, threshold, total, draw).Ok? && |nodeIds| == total
    requires forall i, j :: 0 <= i < j < total ==> nodeIds[i] != nodeIds[j]
    requires request in requests && |participants| >= threshold
    requires forall i :: 0 <= i < threshold ==> participants[i] in nodeIds
    ensures
      var nodes := Assigned(before, nodeIds, Split(master, threshold, total, draw).value);
      CombinedKey(nodes, requests, threshold, request, participants) == Ok(master) <==>
        || master == []
        || (&& (forall i, j :: 0 <= i < j < threshold ==> participants[i] != participants[j])
            && ((forall i :: 0 <= i < threshold ==> participants[i] in nodes && nodes[participants[i]].index < 256) ||
                forall b :: 0 <= b < |master| ==> master[b] == 0))
  {
    hide Combine, ShareOf, Split, Selected, Assigned;
    QuorumOf(before, threshold, total, master, nodeIds, draw, participants);
    var issued := Split(master, threshold, total, draw).value;
    var nodes := Assigned(before, nodeIds, issued);
    SelectedKnown(nodes, participants[..threshold]);
    var quorum := Selected(nodes, participants[..threshold]).value;
    assert forall i :: 0 <= i < threshold ==> quorum[i] == nodes[participants[i]];
    if i, j :| 0 <= i < j < threshold && participants[i] == participants[j] {
      RepeatedShare(quorum, i, j, master, threshold, total, draw, issued);
    } else {
      QuorumRecoversSecret(master, threshold, total, draw, issued, quorum);
    }
  }

  /** The participants' shares are issued ones, and different for different names. */
  lemma QuorumOf(before: map<string, Share>, threshold: nat, total: nat, master: bytes, nodeIds: seq<string>, draw: Draw, participants: seq<string>)
    requires Split(master, threshold, total, draw).Ok? && |nodeIds| == total
    requires forall i, j :: 0 <= i < j < total ==> nodeIds[i] != nodeIds[j]
    requires |participants| >= threshold && forall i :: 0 <= i < threshold ==> participants[i] in nodeIds
    ensures |Split(master, threshold, total, draw).value| == total && 2 <= threshold
    ensures
      var issued := Split(master, threshold, total, draw).value;
      var nodes := Assigned(before, nodeIds, issued);
      && (forall i :: 0 <= i < threshold ==> participants[i] in nodes && nodes[participants[i]] in issued)
      && (forall i, j :: 0 <= i < j < threshold && participants[i] != participants[j] ==> nodes[participants[i]] != nodes[participants[j]])
  {
    hide ShareOf;
    var issued := Split(master, threshold, total, draw).value;
    var nodes := Assigned(before, nodeIds, issued);
    forall k | 0 <= k < total ensures nodeIds[k] in nodes && nodes[nodeIds[k]] == issued[k] {
      AssignedAt(before, nodeIds, issued, k);
    }
    forall i | 0 <= i < threshold ensures participants[i] in nodes && nodes[participants[i]] in issued {
      var k :| 0 <= k < total && nodeIds[k] == participants[i];
    }
    forall i, j | 0 <= i < j < threshold && participants[i] != participants[j]
      ensures nodes[participants[i]] != nodes[participants[j]]
    {
      var k :| 0 <= k < total && nodeIds[k] == participants[i];
      var l :| 0 <= l < total && nodeIds[l] == participants[j];
      IssuedDiffer(master, threshold, total, draw, issued, k, l);
    }
  }

  lemma IssuedDiffer(master: bytes, threshold: nat, total: nat, draw: Draw, issued: seq<Share>, k: nat, l: nat)
    requires Split(master, threshold, total, draw) == Ok(issued)
    requires k < total && l < total && k != l
    ensures issued[k].index != issued[l].index
  {
  }

  lemma RepeatedShare(quorum: seq<Share>, i: nat, j: nat, master: bytes, threshold: nat, total: nat, draw: Draw, issued: seq<Share>)
    requires Split(master, threshold, total, draw) == Ok(issued)
    requires i < j < |quorum| && quorum[i] == quorum[j] && quorum[0] in issued
    ensures Combine(quorum) == if master == [] then Ok([]) else Err(DivisionByZero)
  {
    assert |quorum[0].data| == |master|;
    assert Indices(quorum)[i] == Indices(quorum)[j];
  }
}
