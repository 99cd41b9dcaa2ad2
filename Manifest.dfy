/**
 * Pairing of a human manifest with an agent manifest. Two approvers
 * (Fuxi and Agent Z) each approve or decline; the pairing is active when
 * both approve, declined when either declines, pending otherwise. The
 * stored list of pairings is the state of a small store.
 */
module Manifest {
  import opened Common

  datatype Decision = Approved | Declined | PendingDecision

  datatype Approver = Fuxi | AgentZ

  datatype PairingStatus = Pending | Active | DeclinedPairing

  datatype Approval = Approval(status: Decision, timestamp: Option<string>, signature: Option<string>)

  datatype Approvals = Approvals(fuxi: Option<Approval>, agentZ: Option<Approval>)

  datatype PairingRecord = PairingRecord(
    pairingId: string,
    humanManifest: string,
    agentManifest: string,
    approvals: Approvals,
    status: PairingStatus)

  /** The parameters of `createOrUpdatePairing`; the decision is never `pending`. */
  datatype Request = Request(humanManifest: string, agentManifest: string, approver: Approver, decision: Decision, signature: Option<string>)

  function DecisionOf(a: Option<Approval>): Option<Decision>
  {
    if a.Some? then Some(a.value.status) else None
  }

  /** The status the two approvals give. */
  function StatusOf(approvals: Approvals): PairingStatus
  {
    var f := DecisionOf(approvals.fuxi);
    var z := DecisionOf(approvals.agentZ);
    if f == Some(Approved) && z == Some(Approved) then Active
    else if f == Some(Declined) || z == Some(Declined) then DeclinedPairing
    else Pending
  }

  /** Active iff both approved; declined iff one declined and not both approved; pending otherwise. */
  lemma StatusCases(approvals: Approvals)
    ensures var f := DecisionOf(approvals.fuxi);
            var z := DecisionOf(approvals.agentZ);
            (StatusOf(approvals) == Active <==> f == Some(Approved) && z == Some(Approved)) &&
            (StatusOf(approvals) == DeclinedPairing <==> (f == Some(Declined) || z == Some(Declined)) && !(f == Some(Approved) && z == Some(Approved))) &&
            (StatusOf(approvals) == Pending <==> f != Some(Declined) && z != Some(Declined) && !(f == Some(Approved) && z == Some(Approved)))
  {
  }

  /** A record of this pair that is still open (not declined). */
  predicate OpenFor(r: PairingRecord, human: string, agent: string)
  {
    r.humanManifest == human && r.agentManifest == agent && r.status != DeclinedPairing
  }

  /** `records.find(...)` as a position: the first open record of the pair, or -1. */
  function FindOpen(records: seq<PairingRecord>, human: string, agent: string): (i: int)
    ensures -1 <= i < |records|
    ensures i >= 0 ==> OpenFor(records[i], human, agent)
    ensures forall j :: 0 <= j < |records| && (i < 0 || j < i) ==> !OpenFor(records[j], human, agent)
  {
    if |records| == 0 then -1
    else
      var i := FindOpen(records[..|records| - 1], human, agent);
      if i >= 0 then i
      else if OpenFor(records[|records| - 1], human, agent) then |records| - 1
      else -1
  }

  /** `record.approvals[approver] = ...`: only the calling approver's entry is replaced. */
  function WithApproval(approvals: Approvals, who: Approver, a: Approval): (r: Approvals)
    ensures who == Fuxi ==> r.fuxi == Some(a) && r.agentZ == approvals.agentZ
    ensures who == AgentZ ==> r.agentZ == Some(a) && r.fuxi == approvals.fuxi
  {
    match who
    case Fuxi => approvals.(fuxi := Some(a))
    case AgentZ => approvals.(agentZ := Some(a))
  }

  /** The record after the approver's decision, its status recomputed. */
  function Decide(record: PairingRecord, req: Request, nowIso: string): PairingRecord
  {
    var approvals := WithApproval(record.approvals, req.approver, Approval(req.decision, Some(nowIso), req.signature));
    record.(approvals := approvals, status := StatusOf(approvals))
  }

  /**
   * `createOrUpdatePairing`: the first open record of the pair is updated,
   * or a new pending record (id `newId`) is appended and updated; returns
   * the new list and the position of the record.
   */
  function CreateOrUpdate(records: seq<PairingRecord>, req: Request, newId: string, nowIso: string): (r: (seq<PairingRecord>, nat))
    ensures r.1 < |r.0|
  {
    var i := FindOpen(records, req.humanManifest, req.agentManifest);
    if i >= 0 then (records[i := Decide(records[i], req, nowIso)], i)
    else
      var created := PairingRecord(newId, req.humanManifest, req.agentManifest, Approvals(None, None), Pending);
      (records + [Decide(created, req, nowIso)], |records|)
  }

  /**
   * An open record of the pair is reused, so no record is added; otherwise
   * one is appended. Every other record is unchanged, and in the record
   * only the caller's approval is replaced.
   */
  lemma CreateOrUpdateFacts(records: seq<PairingRecord>, req: Request, newId: string, nowIso: string)
    ensures var (rs, i) := CreateOrUpdate(records, req, newId, nowIso);
            var open := exists j :: 0 <= j < |records| && OpenFor(records[j], req.humanManifest, req.agentManifest);
            (open ==> |rs| == |records| && OpenFor(records[i], req.humanManifest, req.agentManifest)) &&
            (!open ==> |rs| == |records| + 1 && i == |records| && rs[i].pairingId == newId) &&
            (forall j :: 0 <= j < |records| && j != i ==> rs[j] == records[j]) &&
            rs[i].humanManifest == req.humanManifest && rs[i].agentManifest == req.agentManifest &&
            rs[i].status == StatusOf(rs[i].approvals) &&
            DecisionOf(if req.approver == Fuxi then rs[i].approvals.fuxi else rs[i].approvals.agentZ) == Some(req.decision) &&
            (i < |records| ==> if req.approver == Fuxi then rs[i].approvals.agentZ == records[i].approvals.agentZ
                                else rs[i].approvals.fuxi == records[i].approvals.fuxi)
  {
  }

  /** At most one open record per pair of manifests. */
  predicate OneOpenPerPair(records: seq<PairingRecord>)
  {
    forall i, j :: 0 <= i < j < |records| && records[i].status != DeclinedPairing && records[j].status != DeclinedPairing ==>
      (records[i].humanManifest, records[i].agentManifest) != (records[j].humanManifest, records[j].agentManifest)
  }

  /** Updating a pairing never leaves two open records for the same pair. */
  lemma CreateOrUpdateKeepsOneOpen(records: seq<PairingRecord>, req: Request, newId: string, nowIso: string)
    requires OneOpenPerPair(records)
    ensures OneOpenPerPair(CreateOrUpdate(records, req, newId, nowIso).0)
  {
    var (rs, i) := CreateOrUpdate(records, req, newId, nowIso);
    forall a, b | 0 <= a < b < |rs| && rs[a].status != DeclinedPairing && rs[b].status != DeclinedPairing
      ensures (rs[a].humanManifest, rs[a].agentManifest) != (rs[b].humanManifest, rs[b].agentManifest)
    {
      if a != i && b != i {
        assert rs[a] == records[a] && rs[b] == records[b];
      } else if a == i {
        assert rs[b] == records[b];
        assert !OpenFor(records[b], req.humanManifest, req.agentManifest) || i < |records|;
      } else {
        assert rs[a] == records[a];
      }
    }
  }

  /** `getActivePairing`: the first active record, if any. */
  function ActivePairing(records: seq<PairingRecord>): (r: Option<PairingRecord>)
    ensures r.None? <==> forall j :: 0 <= j < |records| ==> records[j].status != Active
    ensures r.Some? ==> exists i :: 0 <= i < |records| && r.value == records[i] && records[i].status == Active &&
                                    forall j :: 0 <= j < i ==> records[j].status != Active
  {
    if |records| == 0 then None
    else if records[0].status == Active then Some(records[0])
    else
      var r := ActivePairing(records[1..]);
      assert forall j :: 1 <= j < |records| ==> records[1..][j - 1] == records[j];
      assert r.Some? ==> exists i :: 1 <= i < |records| && r.value == records[i] && records[i].status == Active &&
                                    forall j :: 0 <= j < i ==> records[j].status != Active;
      r
  }

  /** The stored pairings (`pairings.json`); a missing file reads as the empty list. */
  class PairingStore {
    var records: seq<PairingRecord>

    constructor()
      ensures records == []
    {
      records := [];
    }

    /** `createOrUpdatePairing`; `newId` and `nowIso` stand for `randomUUID()` and the current ISO time. */
    method CreateOrUpdatePairing(req: Request, newId: string, nowIso: string) returns (record: PairingRecord)
      modifies this
      ensures var (rs, i) := CreateOrUpdate(old(records), req, newId, nowIso);
              records == rs && record == rs[i]
    {
      var i := FindOpen(records, req.humanManifest, req.agentManifest);
      if i < 0 {
        var created := PairingRecord(newId, req.humanManifest, req.agentManifest, Approvals(None, None), Pending);
        record := Decide(created, req, nowIso);
        records := records + [record];
      } else {
        record := Decide(records[i], req, nowIso);
        records := records[i := record];
      }
    }

    function GetActivePairing(): Option<PairingRecord>
      reads this
    {
      ActivePairing(records)
    }
  }
}
