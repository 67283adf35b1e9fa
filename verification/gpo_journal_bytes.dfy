/**
 The bytes of a saved GPO journal: the record's document as canonical JSON. The
 job, the result and the approval are kept as the JSON values they came as, so
 how those are read is a parameter here.
 */
module GpoJournalBytes {
  import opened Wrappers
  import opened GpoRecord
  import J = ManagementJsonText
  import G = ManagementJsonGrammar
  import L = ManagementJsonLaws

  /** How the nested documents are written and read. */
  datatype Nested = Nested(
    writeJob: Job -> J.Value, readJob: J.Value -> Option<Job>,
    writeResult: Option<Receipt> -> J.Value, readResult: J.Value -> Option<Option<Receipt>>,
    writeApproval: Option<Approval> -> J.Value, readApproval: J.Value -> Option<Option<Approval>>)

  /** The nested documents of this record read back. */
  predicate ReadsBack(n: Nested, r: Record) {
    && n.readJob(n.writeJob(r.assignment)) == Some(r.assignment)
    && n.readResult(n.writeResult(r.result)) == Some(r.result)
    && n.readApproval(n.writeApproval(r.approval)) == Some(r.approval)
  }

  function FieldValue(n: Nested, f: Field): J.Value {
    match f
    case Number(k) => if -0x8000_0000_0000_0000 <= k <= 0x7fff_ffff_ffff_ffff then J.Int(k) else J.Null
    case Text(s) => J.Str(s)
    case JobField(j) => n.writeJob(j)
    case ResultField(receipt) => n.writeResult(receipt)
    case ApprovalField(approval) => n.writeApproval(approval)
  }

  function ReadField(n: Nested, key: string, v: J.Value): Option<Field> {
    if key == "schema" || key == "grant_deadline_tick" then if v.Int? then Some(Number(v.number)) else None
    else if key == "device_uri" || key == "phase" || key == "gpo_guid" then if v.Str? then Some(Text(v.text)) else None
    else if key == "job" then (match n.readJob(v) case Some(j) => Some(JobField(j)) case None => None)
    else if key == "result" then (match n.readResult(v) case Some(r) => Some(ResultField(r)) case None => None)
    else if key == "portal_approval" then (match n.readApproval(v) case Some(a) => Some(ApprovalField(a)) case None => None)
    else None
  }

  function Values(n: Nested, d: map<string, Field>): map<string, J.Value> {
    map key | key in d :: FieldValue(n, d[key])
  }

  function ReadFields(n: Nested, m: map<string, J.Value>): Option<map<string, Field>> {
    if forall key | key in m :: ReadField(n, key, m[key]).Some?
    then Some(map key | key in m :: ReadField(n, key, m[key]).value)
    else None
  }

  /** What is written to disk; None where the save throws. */
  function JournalBytes(n: Nested, r: Record): Option<string> {
    if !ValidRecord(r) || Document(r).None? then None
    else
      var v := J.Obj(Values(n, Document(r).value));
      if J.Serializable(v, J.MAXIMUM) then Some(J.Text(v)) else None
  }

  function ReadJournal(n: Nested, bytes: string): Option<Record> {
    match G.ReadDocument(bytes, J.MAXIMUM)
    case Some(Obj(m)) => (match ReadFields(n, m) case Some(d) => ParseJournal(d) case None => None)
    case _ => None
  }

  lemma FieldReadsBack(n: Nested, r: Record, key: string)
    requires ReadsBack(n, r) && ValidRecord(r) && Document(r).Some? && key in Document(r).value
    ensures ReadField(n, key, FieldValue(n, Document(r).value[key])) == Some(Document(r).value[key])
  {
    hide ValidApproval, ValidManagedJob, ValidCompletion, UsableGpo, Clean, PhaseName, CommonFields;
    FieldsOf(r);
  }

  lemma FieldsReadBack(n: Nested, r: Record)
    requires ReadsBack(n, r) && ValidRecord(r) && Document(r).Some?
    ensures ReadFields(n, Values(n, Document(r).value)) == Some(Document(r).value)
  {
    hide ValidRecord, Document, ReadField, FieldValue, ReadsBack;
    var d := Document(r).value;
    var m := Values(n, d);
    forall key | key in m ensures ReadField(n, key, m[key]) == Some(d[key]) { FieldReadsBack(n, r, key); }
    assert (map key | key in m :: ReadField(n, key, m[key]).value) == d;
  }

  /** Main result: the bytes of a saved record are read back as that record. */
  lemma ReadAfterWrite(n: Nested, r: Record)
    requires ReadsBack(n, r) && JournalBytes(n, r).Some?
    ensures ReadJournal(n, JournalBytes(n, r).value) == Some(r)
  {
    hide ValidRecord, Document, ReadFields, Values, ParseJournal, J.Serializable, J.Text, G.ReadDocument, ReadsBack;
    L.ParseAfterSerialize(J.Obj(Values(n, Document(r).value)), J.MAXIMUM);
    FieldsReadBack(n, r);
    ParseAfterDocument(r);
  }

  /** Two records that were saved as the same bytes are the same record, so comparing receipts by bytes compares records. */
  lemma BytesNameTheRecord(n: Nested, r: Record, s: Record)
    requires ReadsBack(n, r) && ReadsBack(n, s) && JournalBytes(n, r).Some? && JournalBytes(n, r) == JournalBytes(n, s)
    ensures r == s
  {
    hide JournalBytes, ReadJournal, ReadsBack;
    ReadAfterWrite(n, r);
    ReadAfterWrite(n, s);
  }

  /** Nested documents are kept as they are: writing what was read gives the same value. */
  predicate Kept(n: Nested, m: map<string, J.Value>) {
    && ("job" in m && n.readJob(m["job"]).Some? ==> n.writeJob(n.readJob(m["job"]).value) == m["job"])
    && ("result" in m && n.readResult(m["result"]).Some? ==> n.writeResult(n.readResult(m["result"]).value) == m["result"])
    && ("portal_approval" in m && n.readApproval(m["portal_approval"]).Some? ==>
          n.writeApproval(n.readApproval(m["portal_approval"]).value) == m["portal_approval"])
  }

  lemma ValuesOfRead(n: Nested, m: map<string, J.Value>)
    requires ReadFields(n, m).Some? && Kept(n, m)
    ensures Values(n, ReadFields(n, m).value) == m
  {
    var d := ReadFields(n, m).value;
    forall key | key in m ensures FieldValue(n, d[key]) == m[key] {
      assert ReadField(n, key, m[key]).Some?;
    }
  }

  /** What is read from disk is a valid record whose own bytes are the canonical form of what was read, and no longer. */
  lemma WriteAfterRead(n: Nested, bytes: string)
    requires ReadJournal(n, bytes).Some? && Kept(n, G.ReadDocument(bytes, J.MAXIMUM).value.fields)
    ensures var r := ReadJournal(n, bytes).value;
            && ValidRecord(r) && JournalBytes(n, r).Some? && |JournalBytes(n, r).value| <= |bytes|
            && JournalBytes(n, r).value == J.Text(G.ReadDocument(bytes, J.MAXIMUM).value)
  {
    hide ValidRecord, Document, ReadFields, Values, ParseJournal, J.Serializable, J.Text, G.ReadDocument, Kept;
    var v := G.ReadDocument(bytes, J.MAXIMUM).value;
    DocumentAfterParse(ReadFields(n, v.fields).value);
    ValuesOfRead(n, v.fields);
    L.SerializeAfterParse(bytes, J.MAXIMUM);
  }
}
