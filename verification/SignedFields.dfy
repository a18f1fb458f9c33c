/** Which fields of an entry the audit log and the certificate log sign, and which they leave open. */
module SignedFields {
  import opened Wrappers
  import opened ChainedLog
  import Texts

  datatype AuditEvent = AuditEvent(eventType: string, correlationId: Option<string>, peer: Option<string>, detail: Option<string>)

  datatype Certified = Certified(subject: string, fingerprint: string, signature: string)

  /** An absent detail is signed as an empty one. */
  function Detail(e: AuditEvent): string {
    if e.detail.Some? then e.detail.value else ""
  }

  function AuditSigner(mac: string -> string): Signer<AuditEvent> {
    (id, ts, e: AuditEvent, prev) => mac(id + "|" + ts + "|" + e.eventType + "|" + prev + "|" + Detail(e))
  }

  function CertificateSigner(mac: string -> string): Signer<Certified> {
    (id, ts, c: Certified, prev) => mac(id + "|" + ts + "|" + c.fingerprint + "|" + prev)
  }

  /** The keyed digest differs on different texts. */
  ghost predicate Keyed(mac: string -> string) {
    forall a, b :: mac(a) == mac(b) ==> a == b
  }

  lemma FourFields(id: string, ts: string, field: string, rest: string, id': string, ts': string, field': string, rest': string)
    requires '|' !in id + ts + field && '|' !in id' + ts' + field'
    ensures id + "|" + ts + "|" + field + "|" + rest == id' + "|" + ts' + "|" + field' + "|" + rest' <==>
      id == id' && ts == ts' && field == field' && rest == rest'
  {
    var a, b := field + "|" + rest, field' + "|" + rest';
    Texts.SplitAtFirst("|", field, rest, field', rest');
    Texts.SplitAtFirst("|", ts, a, ts', b);
    Texts.SplitAtFirst("|", id, ts + "|" + a, id', ts' + "|" + b);
    assert id + "|" + ts + "|" + field + "|" + rest == id + "|" + (ts + "|" + a);
    assert id' + "|" + ts' + "|" + field' + "|" + rest' == id' + "|" + (ts' + "|" + b);
  }

  /**
   * An audit entry altered under its old code verifies exactly when identifier, time,
   * type, detail and predecessor are unaltered: its peer and channel are not signed.
   */
  lemma AuditTampering(mac: string -> string, runs: seq<Recording<AuditEvent>>, k: nat, e: Entry<AuditEvent>)
    requires Keyed(mac)
    requires k < |Recorded(AuditSigner(mac), runs)|
    requires e.entryMac == Recorded(AuditSigner(mac), runs)[k].entryMac
    requires
      var was := Recorded(AuditSigner(mac), runs)[k];
      '|' !in was.id + was.ts + was.body.eventType && '|' !in e.id + e.ts + e.body.eventType
    ensures
      var log := Recorded(AuditSigner(mac), runs);
      var was := log[k];
      ChainErrors(AuditSigner(mac), log[k := e]) == [] <==>
        && e.id == was.id && e.ts == was.ts && e.prevEntryId == was.prevEntryId
        && e.body.eventType == was.body.eventType && Detail(e.body) == Detail(was.body)
  {
    hide Recorded, ChainErrors;
    var was := Recorded(AuditSigner(mac), runs)[k];
    AlteredVerifies(AuditSigner(mac), runs, k, e);
    var prev := if e.prevEntryId == "" then "GENESIS" else e.prevEntryId;
    FiveFields(e.id, e.ts, e.body.eventType, prev, Detail(e.body), was.id, was.ts, was.body.eventType, Detail(was.body));
    SameText(mac, e, was, prev);
    hide Detail, AuditSigner, Keyed;
  }

  lemma SameText(mac: string -> string, e: Entry<AuditEvent>, was: Entry<AuditEvent>, prev: string)
    requires Keyed(mac)
    ensures AuditSigner(mac)(e.id, e.ts, e.body, prev) == AuditSigner(mac)(was.id, was.ts, was.body, prev) <==>
      e.id + "|" + e.ts + "|" + e.body.eventType + "|" + prev + "|" + Detail(e.body) ==
        was.id + "|" + was.ts + "|" + was.body.eventType + "|" + prev + "|" + Detail(was.body)
  {
    hide Detail;
  }

  lemma FiveFields(id: string, ts: string, field: string, prev: string, rest: string, id': string, ts': string, field': string, rest': string)
    requires '|' !in id + ts + field && '|' !in id' + ts' + field'
    ensures id + "|" + ts + "|" + field + "|" + prev + "|" + rest == id' + "|" + ts' + "|" + field' + "|" + prev + "|" + rest' <==>
      id == id' && ts == ts' && field == field' && rest == rest'
  {
    FourFields(id, ts, field, prev + "|" + rest, id', ts', field', prev + "|" + rest');
    Texts.SamePrefix(prev + "|", rest, rest');
    assert id + "|" + ts + "|" + field + "|" + prev + "|" + rest == id + "|" + ts + "|" + field + "|" + (prev + "|" + rest);
    assert id' + "|" + ts' + "|" + field' + "|" + prev + "|" + rest' == id' + "|" + ts' + "|" + field' + "|" + (prev + "|" + rest');
  }

  /**
   * A certificate entry altered under its old code verifies exactly when identifier, time,
   * fingerprint and predecessor are unaltered: its subject and signature are not signed.
   */
  lemma CertificateTampering(mac: string -> string, runs: seq<Recording<Certified>>, k: nat, e: Entry<Certified>)
    requires Keyed(mac)
    requires k < |Recorded(CertificateSigner(mac), runs)|
    requires e.entryMac == Recorded(CertificateSigner(mac), runs)[k].entryMac
    requires
      var was := Recorded(CertificateSigner(mac), runs)[k];
      '|' !in was.id + was.ts + was.body.fingerprint && '|' !in e.id + e.ts + e.body.fingerprint
    ensures
      var log := Recorded(CertificateSigner(mac), runs);
      var was := log[k];
      ChainErrors(CertificateSigner(mac), log[k := e]) == [] <==>
        e.id == was.id && e.ts == was.ts && e.prevEntryId == was.prevEntryId && e.body.fingerprint == was.body.fingerprint
  {
    hide Recorded, ChainErrors;
    var was := Recorded(CertificateSigner(mac), runs)[k];
    AlteredVerifies(CertificateSigner(mac), runs, k, e);
    var prev := if e.prevEntryId == "" then "GENESIS" else e.prevEntryId;
    FourFields(e.id, e.ts, e.body.fingerprint, prev, was.id, was.ts, was.body.fingerprint, prev);
  }

  /** Whatever peer and channel are written into a recorded audit entry, the log still verifies. */
  lemma PeerUnsigned(mac: string -> string, runs: seq<Recording<AuditEvent>>, k: nat, peer: Option<string>, correlationId: Option<string>)
    requires k < |Recorded(AuditSigner(mac), runs)|
    ensures
      var log := Recorded(AuditSigner(mac), runs);
      var e := log[k].body.(peer := peer, correlationId := correlationId);
      ChainErrors(AuditSigner(mac), log[k := log[k].(body := e)]) == []
  {
    var sign := AuditSigner(mac);
    var was := Recorded(sign, runs)[k];
    hide Recorded, ChainErrors;
    var e := was.body.(peer := peer, correlationId := correlationId);
    assert Detail(e) == Detail(was.body);
    assert forall prev :: sign(was.id, was.ts, e, prev) == sign(was.id, was.ts, was.body, prev);
    AlteredVerifies(sign, runs, k, was.(body := e));
  }

  /** Whatever subject and signature are written into a recorded certificate entry, the log still verifies. */
  lemma SubjectUnsigned(mac: string -> string, runs: seq<Recording<Certified>>, k: nat, subject: string, signature: string)
    requires k < |Recorded(CertificateSigner(mac), runs)|
    ensures
      var log := Recorded(CertificateSigner(mac), runs);
      var c := log[k].body.(subject := subject, signature := signature);
      ChainErrors(CertificateSigner(mac), log[k := log[k].(body := c)]) == []
  {
    var sign := CertificateSigner(mac);
    var was := Recorded(sign, runs)[k];
    hide Recorded, ChainErrors;
    var c := was.body.(subject := subject, signature := signature);
    assert forall prev :: sign(was.id, was.ts, c, prev) == sign(was.id, was.ts, was.body, prev);
    AlteredVerifies(sign, runs, k, was.(body := c));
  }
}
