/**
 Key changes of a device: routine rotation keeps the identity and its sequence
 namespace, anything without continuity of the credential needs a new identity,
 and a namespace can never be wound back.
 */
module DeviceLineage {
  import opened JsText
  import opened JsonValue
  import opened Options
  import opened FieldNames
  import opened SignedRecord

  /** The offline sequence namespace: a function of organisation and device id and of nothing else. */
  function NamespaceFields(organisationId: Text, deviceId: Text): (fields: seq<Field>)
    ensures |fields| == 3
  {
    [ Field(Name.Domain, Tag(SequenceNamespaceRecord)),
      Field(Name.OrganisationId, Str(organisationId)),
      Field(Name.DeviceId, Str(deviceId))
    ]
  }

  function NamespaceId(organisationId: Text, deviceId: Text): Text {
    Literal("device-seq:") + RecordText(NamespaceFields(organisationId, deviceId))
  }

  /** Two devices never share a namespace, in one organisation or across two. */
  lemma NamespaceInjective(organisationId: Text, deviceId: Text, other: Text, otherDevice: Text)
    ensures NamespaceId(organisationId, deviceId) == NamespaceId(other, otherDevice) <==>
            organisationId == other && deviceId == otherDevice
  {
    hide RecordText, Literal, TagSpelling;
    var a, b := NamespaceFields(organisationId, deviceId), NamespaceFields(other, otherDevice);
    var prefix := Literal("device-seq:");
    TextDecidesLeaves(a, b);
    if NamespaceId(organisationId, deviceId) == NamespaceId(other, otherDevice) {
      assert RecordText(a) == (prefix + RecordText(a))[|prefix|..];
      assert RecordText(b) == (prefix + RecordText(b))[|prefix|..];
      assert a[1] == b[1] && a[2] == b[2];
    }
  }

  // ----- one key change -----

  datatype LossReason = Wipe | ReProvision | ContinuityLoss | CompromiseRecovery | ReEnrolment

  datatype Subject = Subject(deviceId: Text, sequenceNamespaceId: Text, keyId: Text, keyVersion: int, thumbprint: Text)

  datatype Proposal = Proposal(subject: Subject, provedPossession: bool, loss: Option<LossReason>)

  datatype Classification =
    | Rotation(deviceId: Text, sequenceNamespaceId: Text, fromVersion: int, toVersion: int, invalidatesAtOrBelow: int)
    | NewIdentity(reason: LossReason)
    | NamespaceResetAttempted
    | VersionNotAdvanced

  function Classify(previous: Subject, next: Proposal): Classification {
    var lost := next.loss.Some? || !next.provedPossession;
    if next.subject.deviceId != previous.deviceId then NewIdentity(if next.loss.Some? then next.loss.value else ReEnrolment)
    else if lost then NewIdentity(if next.loss.Some? then next.loss.value else ContinuityLoss)
    else if next.subject.sequenceNamespaceId != previous.sequenceNamespaceId then NamespaceResetAttempted
    else if next.subject.keyVersion <= previous.keyVersion then VersionNotAdvanced
    else Rotation(previous.deviceId, previous.sequenceNamespaceId, previous.keyVersion, next.subject.keyVersion, previous.keyVersion)
  }

  predicate Continues(previous: Subject, next: Proposal) {
    next.subject.deviceId == previous.deviceId && next.provedPossession && next.loss.None?
  }

  /** A change is a rotation exactly when the credential continues, in its own namespace, at a higher version. */
  lemma ClassificationExact(previous: Subject, next: Proposal)
    ensures var c := Classify(previous, next);
            && (c.NewIdentity? <==> !Continues(previous, next))
            && (c.NewIdentity? ==> c.reason == if next.loss.Some? then next.loss.value
                                               else if next.subject.deviceId != previous.deviceId then ReEnrolment else ContinuityLoss)
            && (c.Rotation? <==> && Continues(previous, next)
                                 && next.subject.sequenceNamespaceId == previous.sequenceNamespaceId
                                 && next.subject.keyVersion > previous.keyVersion)
            && (c.NamespaceResetAttempted? <==> Continues(previous, next)
                                                && next.subject.sequenceNamespaceId != previous.sequenceNamespaceId)
            && (c.Rotation? ==> && c.deviceId == next.subject.deviceId == previous.deviceId
                                && c.sequenceNamespaceId == next.subject.sequenceNamespaceId
                                && c.invalidatesAtOrBelow == c.fromVersion == previous.keyVersion < c.toVersion == next.subject.keyVersion)
  {
  }

  // ----- every run of one organisation's registry -----

  /**
   The identities in use, those retired, and every key ever issued, in order.
   Enrolment and every change that loses continuity give a key to a device id
   never used before; its namespace is computed, not asked for.
   */
  datatype Registry = Registry(active: map<Text, Subject>, retired: set<Text>, issued: seq<Subject>)

  datatype Event =
    | Enrol(deviceId: Text, keyId: Text, thumbprint: Text)
    | Change(previous: Text, proposal: Proposal, replacement: Text)

  const NO_DEVICES := Registry(map[], {}, [])

  predicate Fresh(r: Registry, deviceId: Text) {
    deviceId !in r.active && deviceId !in r.retired
  }

  function Issue(r: Registry, s: Subject): Registry {
    r.(active := r.active[s.deviceId := s], issued := r.issued + [s])
  }

  function Retire(r: Registry, deviceId: Text): Registry {
    r.(active := r.active - {deviceId}, retired := r.retired + {deviceId})
  }

  function EnrolAs(organisationId: Text, r: Registry, deviceId: Text, keyId: Text, thumbprint: Text): Registry {
    if Fresh(r, deviceId)
    then Issue(r, Subject(deviceId, NamespaceId(organisationId, deviceId), keyId, 1, thumbprint))
    else r
  }

  function Apply(organisationId: Text, r: Registry, e: Event): Registry {
    match e
    case Enrol(deviceId, keyId, thumbprint) => EnrolAs(organisationId, r, deviceId, keyId, thumbprint)
    case Change(previous, proposal, replacement) =>
      if previous !in r.active then r
      else
        match Classify(r.active[previous], proposal)
        case Rotation(_, _, _, _, _) => Issue(r, proposal.subject)
        case NewIdentity(_) =>
          var left := if proposal.subject.deviceId == previous then Retire(r, previous) else r;
          EnrolAs(organisationId, left, replacement, proposal.subject.keyId, proposal.subject.thumbprint)
        case _ => r
  }

  function Run(organisationId: Text, events: seq<Event>): Registry {
    if events == [] then NO_DEVICES
    else Apply(organisationId, Run(organisationId, events[..|events| - 1]), events[|events| - 1])
  }

  ghost predicate Sound(organisationId: Text, r: Registry) {
    && (forall id :: id in r.active ==> && id !in r.retired && r.active[id].deviceId == id
                                        && r.active[id].sequenceNamespaceId == NamespaceId(organisationId, id))
    && (forall i :: 0 <= i < |r.issued| ==>
          && r.issued[i].sequenceNamespaceId == NamespaceId(organisationId, r.issued[i].deviceId)
          && !Fresh(r, r.issued[i].deviceId)
          && (r.issued[i].deviceId in r.active ==> r.issued[i].keyVersion <= r.active[r.issued[i].deviceId].keyVersion))
    && (forall i, j :: 0 <= i < j < |r.issued| && r.issued[i].deviceId == r.issued[j].deviceId ==>
          r.issued[i].keyVersion < r.issued[j].keyVersion)
  }

  lemma IssueSound(organisationId: Text, r: Registry, s: Subject)
    requires Sound(organisationId, r) && s.sequenceNamespaceId == NamespaceId(organisationId, s.deviceId)
    requires s.deviceId !in r.retired && (s.deviceId in r.active ==> r.active[s.deviceId].keyVersion < s.keyVersion)
    ensures Sound(organisationId, Issue(r, s))
  {
    hide NamespaceId;
    assert forall i :: 0 <= i < |r.issued| && r.issued[i].deviceId == s.deviceId ==> s.deviceId in r.active;
  }

  lemma RetireSound(organisationId: Text, r: Registry, deviceId: Text)
    requires Sound(organisationId, r)
    ensures Sound(organisationId, Retire(r, deviceId))
  {
    hide NamespaceId;
  }

  lemma ApplySound(organisationId: Text, r: Registry, e: Event)
    requires Sound(organisationId, r)
    ensures Sound(organisationId, Apply(organisationId, r, e)) && r.issued <= Apply(organisationId, r, e).issued
    ensures r.retired <= Apply(organisationId, r, e).retired
  {
    hide NamespaceId;
    match e
    case Enrol(deviceId, keyId, thumbprint) =>
      if Fresh(r, deviceId) {
        IssueSound(organisationId, r, Subject(deviceId, NamespaceId(organisationId, deviceId), keyId, 1, thumbprint));
      }
    case Change(previous, proposal, replacement) =>
      if previous in r.active {
        ClassificationExact(r.active[previous], proposal);
        var c := Classify(r.active[previous], proposal);
        if c.Rotation? {
          IssueSound(organisationId, r, proposal.subject);
        } else if c.NewIdentity? {
          RetireSound(organisationId, r, previous);
          var left := if proposal.subject.deviceId == previous then Retire(r, previous) else r;
          if Fresh(left, replacement) {
            IssueSound(organisationId, left, Subject(replacement, NamespaceId(organisationId, replacement),
                                                     proposal.subject.keyId, 1, proposal.subject.thumbprint));
          }
        }
      }
  }

  lemma {:induction false} RunSound(organisationId: Text, events: seq<Event>)
    ensures Sound(organisationId, Run(organisationId, events))
  {
    hide Sound, Apply;
    if events == [] {
      NothingIssued(organisationId);
    } else {
      RunSound(organisationId, events[..|events| - 1]);
      ApplySound(organisationId, Run(organisationId, events[..|events| - 1]), events[|events| - 1]);
    }
  }

  lemma NothingIssued(organisationId: Text)
    ensures Sound(organisationId, NO_DEVICES)
  {
    hide NamespaceId;
  }

  /**
   There is no sequence reset. Of two keys issued into one namespace, whatever
   was proposed in between, both belong to one device id and the later one has
   the higher version.
   */
  lemma NoSequenceReset(organisationId: Text, events: seq<Event>, i: nat, j: nat)
    requires var issued := Run(organisationId, events).issued;
             i < j < |issued| && issued[i].sequenceNamespaceId == issued[j].sequenceNamespaceId
    ensures var issued := Run(organisationId, events).issued;
            issued[i].deviceId == issued[j].deviceId && issued[i].keyVersion < issued[j].keyVersion
  {
    hide NamespaceId, Run;
    RunSound(organisationId, events);
    var issued := Run(organisationId, events).issued;
    NamespaceInjective(organisationId, issued[i].deviceId, organisationId, issued[j].deviceId);
  }

  /** An identity that was retired is never in use again, and gets no further key. */
  lemma {:induction false} RetiredIdentityIsGone(organisationId: Text, events: seq<Event>, later: seq<Event>, deviceId: Text)
    requires deviceId in Run(organisationId, events).retired
    ensures var before, after := Run(organisationId, events), Run(organisationId, events + later);
            && deviceId in after.retired && deviceId !in after.active && before.issued <= after.issued
            && forall i :: |before.issued| <= i < |after.issued| ==> after.issued[i].deviceId != deviceId
    decreases |later|
  {
    hide Apply, NamespaceId;
    RunSound(organisationId, events + later);
    if later == [] {
      assert events + later == events;
    } else {
      var front := later[..|later| - 1];
      RetiredIdentityIsGone(organisationId, events, front, deviceId);
      assert (events + later)[..|events + later| - 1] == events + front;
      RunSound(organisationId, events + front);
      ApplySound(organisationId, Run(organisationId, events + front), later[|later| - 1]);
      NoKeyForRetired(organisationId, Run(organisationId, events + front), later[|later| - 1], deviceId);
    }
  }

  lemma NoKeyForRetired(organisationId: Text, r: Registry, e: Event, deviceId: Text)
    requires Sound(organisationId, r) && deviceId in r.retired
    ensures var after := Apply(organisationId, r, e);
            forall i :: |r.issued| <= i < |after.issued| ==> after.issued[i].deviceId != deviceId
  {
    hide NamespaceId;
  }

  /**
   What a key change does to the registry, on every state of it: enrolment gives a
   device id never used before its first key; a change with continuity, in its own
   namespace and at a higher version, replaces the key; a change without
   continuity retires the identity it names and gives the key to a new one.
   Anything else changes nothing.
   */
  lemma ChangesTakeEffect(organisationId: Text, r: Registry, previous: Text, next: Proposal, replacement: Text)
    requires previous in r.active && r.active[previous].deviceId == previous
    ensures var before := r.active[previous];
            var after := Apply(organisationId, r, Change(previous, next, replacement));
            var subject := next.subject;
            var continues := subject.deviceId == previous && next.provedPossession && next.loss.None?;
            var successor := Subject(replacement, NamespaceId(organisationId, replacement), subject.keyId, 1, subject.thumbprint);
            && (continues && subject.sequenceNamespaceId == before.sequenceNamespaceId && subject.keyVersion > before.keyVersion ==>
                  after == Registry(r.active[previous := subject], r.retired, r.issued + [subject]))
            && (continues && (subject.sequenceNamespaceId != before.sequenceNamespaceId || subject.keyVersion <= before.keyVersion) ==>
                  after == r)
            && (!continues && subject.deviceId == previous ==>
                  && previous in after.retired && previous !in after.active
                  && (replacement !in r.active && replacement !in r.retired ==>
                        after == Registry((r.active - {previous})[replacement := successor], r.retired + {previous}, r.issued + [successor])))
            && (subject.deviceId != previous ==>
                  after == if replacement in r.active || replacement in r.retired then r
                           else Registry(r.active[replacement := successor], r.retired, r.issued + [successor]))
  {
    hide NamespaceId;
  }

  lemma EnrolmentTakesEffect(organisationId: Text, r: Registry, deviceId: Text, keyId: Text, thumbprint: Text)
    ensures var first := Subject(deviceId, NamespaceId(organisationId, deviceId), keyId, 1, thumbprint);
            Apply(organisationId, r, Enrol(deviceId, keyId, thumbprint)) ==
            if deviceId in r.active || deviceId in r.retired then r
            else Registry(r.active[deviceId := first], r.retired, r.issued + [first])
  {
    hide NamespaceId;
  }
}
