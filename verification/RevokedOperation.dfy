/**
 What becomes of a queued operation once the credential behind it is revoked:
 Sentinel's own record may recognise an effect that already committed, and
 nothing may cause a new one.
 */
module RevokedOperation {
  import opened JsText
  import opened Options
  import opened DeviceTime
  import opened OfflineOperation

  datatype Disposition = Lost | Stolen | CompromisedKey

  datatype Evidence = Evidence(
    offlineOperationId: Text,
    operationFingerprint: Text,
    organisationId: Text,
    siteId: Text,
    committedAt: Text,
    domainRecordRef: Text)

  datatype Resolution = ResolveAsCommitted | RefuseNewEffect | RequiresHumanReentry | Conflict

  function Resolve(disposition: Disposition, offlineOperationId: Text, fingerprint: Text, organisationId: Text, siteId: Text,
                   evidence: Option<Evidence>): Resolution
  {
    if evidence.Some? && evidence.value.offlineOperationId == offlineOperationId
    then
      if evidence.value.operationFingerprint == fingerprint && evidence.value.organisationId == organisationId
         && evidence.value.siteId == siteId
      then ResolveAsCommitted
      else Conflict
    else if disposition.Lost? then RequiresHumanReentry
    else RefuseNewEffect
  }

  /** Evidence counts under its own id alone, and settles the matter only when everything else agrees too. */
  lemma ResolvesExactlyWhen(disposition: Disposition, id: Text, fingerprint: Text, organisationId: Text, siteId: Text,
                            evidence: Option<Evidence>)
    ensures var r := Resolve(disposition, id, fingerprint, organisationId, siteId, evidence);
            var about := evidence.Some? && evidence.value.offlineOperationId == id;
            && (r == ResolveAsCommitted <==>
                exists committedAt, ref :: evidence == Some(Evidence(id, fingerprint, organisationId, siteId, committedAt, ref)))
            && (r in {ResolveAsCommitted, Conflict} <==> about)
            && (r == RequiresHumanReentry <==> !about && disposition == Lost)
            && (r == RefuseNewEffect <==> !about && disposition in {Stolen, CompromisedKey})
  {
    if evidence.Some? {
      var e := evidence.value;
      assert e == Evidence(e.offlineOperationId, e.operationFingerprint, e.organisationId, e.siteId, e.committedAt, e.domainRecordRef);
    }
  }

  /** Sentinel's record of the effect of an envelope, under the profile the registry held for it. */
  function EvidenceOf(e: Envelope, profile: Text, committedAt: Text, domainRecordRef: Text): Evidence {
    Evidence(e.offlineOperationId, Fingerprint(e, profile), e.organisationId, e.siteId, committedAt, domainRecordRef)
  }

  function ResolveEnvelope(disposition: Disposition, e: Envelope, profile: Text, evidence: Option<Evidence>): Resolution {
    Resolve(disposition, e.offlineOperationId, Fingerprint(e, profile), e.organisationId, e.siteId, evidence)
  }

  /**
   Against the record of one committed envelope, a queued one is resolved as
   committed exactly when it is that operation, field for field; a reused id
   with anything else changed is a conflict; and an operation Sentinel has no
   record of is left to people or refused, by how the device was lost.
   */
  lemma CommittedOnlyAsItself(disposition: Disposition, e: Envelope, profile: Text,
                              f: Envelope, other: Text, committedAt: Text, domainRecordRef: Text)
    ensures var r := ResolveEnvelope(disposition, e, profile, Some(EvidenceOf(f, other, committedAt, domainRecordRef)));
            var same := e.(claimedSignatureProfile := []) == f.(claimedSignatureProfile := []) && profile == other;
            && (r == ResolveAsCommitted <==> same)
            && (r == Conflict <==> e.offlineOperationId == f.offlineOperationId && !same)
            && (r == RequiresHumanReentry <==> e.offlineOperationId != f.offlineOperationId && disposition.Lost?)
            && (r == RefuseNewEffect <==> e.offlineOperationId != f.offlineOperationId && !disposition.Lost?)
  {
    hide Fingerprint;
    StatementInjective(e, profile, f, other);
  }

  /** What Sentinel's domain records hold: the committed envelopes, each under the profile it was admitted with. */
  datatype Committed = Committed(envelope: Envelope, profile: Text, committedAt: Text, domainRecordRef: Text)

  predicate IsThatOperation(c: Committed, e: Envelope, profile: Text) {
    c.envelope.(claimedSignatureProfile := []) == e.(claimedSignatureProfile := []) && c.profile == profile
  }

  lemma SameOperationSameId(c: Committed, e: Envelope, profile: Text)
    requires IsThatOperation(c, e, profile)
    ensures c.envelope.offlineOperationId == e.offlineOperationId
  {
    assert c.envelope.(claimedSignatureProfile := []).offlineOperationId == e.(claimedSignatureProfile := []).offlineOperationId;
  }

  /** The evidence the records give for an operation id. */
  function Recorded(records: seq<Committed>, offlineOperationId: Text): Option<Evidence> {
    if records == [] then None
    else if records[0].envelope.offlineOperationId == offlineOperationId
    then Some(EvidenceOf(records[0].envelope, records[0].profile, records[0].committedAt, records[0].domainRecordRef))
    else Recorded(records[1..], offlineOperationId)
  }

  predicate DistinctIds(records: seq<Committed>) {
    forall i, j :: 0 <= i < j < |records| ==> records[i].envelope.offlineOperationId != records[j].envelope.offlineOperationId
  }

  /**
   Whatever the disposition, a queued operation is resolved as committed exactly
   when the records hold that very operation, and as a conflict exactly when they
   hold its id for another one; only work the records know nothing of is left to
   people or refused, and no answer is ever an effect.
   */
  lemma {:induction false} ResolvedExactlyFromRecords(disposition: Disposition, e: Envelope, profile: Text, records: seq<Committed>)
    requires DistinctIds(records)
    ensures var r := ResolveEnvelope(disposition, e, profile, Recorded(records, e.offlineOperationId));
            && (r == ResolveAsCommitted <==> exists c :: c in records && IsThatOperation(c, e, profile))
            && (r == Conflict <==> && (exists c :: c in records && c.envelope.offlineOperationId == e.offlineOperationId)
                                   && !exists c :: c in records && IsThatOperation(c, e, profile))
            && (r == RequiresHumanReentry ==> disposition.Lost?) && (r == RefuseNewEffect ==> !disposition.Lost?)
  {
    hide Fingerprint;
    if records != [] {
      var first, rest := records[0], records[1..];
      assert records == [first] + rest && first in records;
      forall c: Committed | IsThatOperation(c, e, profile)
        ensures c.envelope.offlineOperationId == e.offlineOperationId
      {
        SameOperationSameId(c, e, profile);
      }
      if first.envelope.offlineOperationId == e.offlineOperationId {
        CommittedOnlyAsItself(disposition, e, profile, first.envelope, first.profile, first.committedAt, first.domainRecordRef);
        forall c | c in rest
          ensures c.envelope.offlineOperationId != e.offlineOperationId
        {
          var i :| 0 <= i < |rest| && rest[i] == c;
          assert records[i + 1] == c;
        }
      } else {
        ResolvedExactlyFromRecords(disposition, e, profile, rest);
      }
    }
  }

  /**
   A revoked or replaced credential causes no new effect and confirms none through
   admission, whichever of the two records of the revocation has landed.
   */
  lemma RevokedCredentialIsRefused(dates: DateParse, input: Input)
    requires input.registeredKey.revokedAt.Some? || input.deviceRevokedAt.Some? || !input.registeredKey.status.Current?
    ensures Evaluate(dates, input).Refused?
  {
    hide Evaluate, Fingerprint, ReplayKey, LeaseCovers, Witnessed, InForceAt, EstablishingInstant;
    DecisionExact(dates, input);
  }
}
