/**
 The evidence embedded in a signed PDF: how `sign` builds the records and their manifest hash, and
 how the command-line verifier checks them. `sha` is the hexadecimal SHA-256 of a text.
 */
module EvidenceManifest {
  import opened Options
  import opened CanonicalJson

  type Hash = string -> string

  const HASH_KEY := "evidence_sha256"

  /** `evidence_sha256` */
  function EvidenceHash(sha: Hash, payload: Fields): string {
    sha(Canonical(Object(payload)))
  }

  function Join(parts: seq<string>): string {
    if parts == [] then "" else if |parts| == 1 then parts[0] else parts[0] + "|" + Join(parts[1..])
  }

  /** Parts one after the other, with a bar between any two. */
  lemma {:induction false} JoinAppends(parts: seq<string>, last: string)
    ensures Join([]) == "" && Join([last]) == last
    ensures parts != [] ==> Join(parts + [last]) == Join(parts) + "|" + last
  {
    if |parts| > 1 {
      JoinAppends(parts[1..], last);
      assert (parts + [last])[1..] == parts[1..] + [last];
    } else if |parts| == 1 {
      assert (parts + [last])[1..] == [last];
    }
  }

  // ----- The producer -----

  /** A signature row: the evidence and the hash stored with it, which old rows do not have. */
  datatype Row = Row(evidence: Fields, hash: Option<string>)

  function RowHash(sha: Hash, row: Row): string {
    if row.hash.Some? && row.hash.value != "" then row.hash.value else EvidenceHash(sha, row.evidence)
  }

  function Record(sha: Hash, row: Row): Fields {
    Put(row.evidence, HASH_KEY, Text(RowHash(sha, row)))
  }

  function Records(sha: Hash, rows: seq<Row>): seq<Fields> {
    seq(|rows|, i requires 0 <= i < |rows| => Record(sha, rows[i]))
  }

  function Manifest(sha: Hash, rows: seq<Row>): string {
    sha(Join(seq(|rows|, i requires 0 <= i < |rows| => RowHash(sha, rows[i]))))
  }

  function ListOf(records: seq<Fields>): Items {
    if records == [] then NoItems else Item(Object(records[0]), ListOf(records[1..]))
  }

  /** The text `sign` embeds. */
  function Embedded(sha: Hash, rows: seq<Row>): string {
    Canonical(List(ListOf(Records(sha, rows))))
  }

  /** The row `sign` adds for new evidence. */
  function SignedRow(sha: Hash, evidence: Fields): Row {
    Row(evidence, Some(EvidenceHash(sha, evidence)))
  }

  // ----- The verifier -----

  /** `str(item.get("evidence_sha256", ""))`; what is neither text nor a number never reads as a digest. */
  function StoredHash(item: Fields): string {
    match Lookup(item, HASH_KEY)
    case Missing => ""
    case Found(Text(text)) => text
    case Found(Number(literal)) => literal
    case Found(_) => "None"
  }

  function StoredHashes(evidence: seq<Fields>): seq<string> {
    seq(|evidence|, i requires 0 <= i < |evidence| => StoredHash(evidence[i]))
  }

  predicate Genuine(sha: Hash, item: Fields) {
    StoredHash(item) == EvidenceHash(sha, Remove(item, HASH_KEY))
  }

  predicate Accepts(sha: Hash, evidence: seq<Fields>, manifest: string) {
    (forall i | 0 <= i < |evidence| :: Genuine(sha, evidence[i])) && sha(Join(StoredHashes(evidence))) == manifest
  }

  datatype Verdict = Verified | InvalidEvidence(index: nat) | InvalidManifest

  /** The loop of `main` over the evidence, and the check of the manifest after it. */
  method Verify(sha: Hash, evidence: seq<Fields>, manifest: string) returns (verdict: Verdict)
    ensures verdict.Verified? <==> Accepts(sha, evidence, manifest)
    ensures verdict.InvalidEvidence? ==>
              verdict.index < |evidence| && !Genuine(sha, evidence[verdict.index])
              && forall i | 0 <= i < verdict.index :: Genuine(sha, evidence[i])
    ensures verdict.InvalidManifest? <==>
              (forall i | 0 <= i < |evidence| :: Genuine(sha, evidence[i]))
                  && sha(Join(StoredHashes(evidence))) != manifest
  {
    var verifiedHashes: seq<string> := [];
    for k := 0 to |evidence|
      invariant forall i | 0 <= i < k :: Genuine(sha, evidence[i])
      invariant verifiedHashes == StoredHashes(evidence[..k])
    {
      var storedHash := StoredHash(evidence[k]);
      var calculatedHash := EvidenceHash(sha, Remove(evidence[k], HASH_KEY));
      if storedHash != calculatedHash {
        return InvalidEvidence(k);
      }
      verifiedHashes := verifiedHashes + [storedHash];
    }
    assert evidence[..|evidence|] == evidence;
    return if sha(Join(verifiedHashes)) == manifest then Verified else InvalidManifest;
  }

  // ----- The verifier accepts what the producer builds -----

  lemma {:induction false} PutLooksUp(fields: Fields, key: string, value: Json, k: string)
    ensures Lookup(Put(fields, key, value), k) == if k == key then Found.Found(value) else Lookup(fields, k)
    ensures HasKey(Put(fields, key, value), k) <==> k == key || HasKey(fields, k)
  {
    if fields.Field? && fields.key != key {
      PutLooksUp(fields.rest, key, value, k);
    }
  }

  lemma {:induction false} PutValid(fields: Fields, key: string, value: Json)
    requires ValidFields(fields) && Valid(value)
    ensures ValidFields(Put(fields, key, value))
  {
    if fields.Field? && fields.key != key {
      PutValid(fields.rest, key, value);
      PutLooksUp(fields.rest, key, value, fields.key);
    }
  }

  lemma {:induction false} RemoveLooksUp(fields: Fields, key: string, k: string)
    ensures Lookup(Remove(fields, key), k) == if k == key then Missing else Lookup(fields, k)
    ensures HasKey(Remove(fields, key), k) <==> k != key && HasKey(fields, k)
  {
    if fields.Field? {
      RemoveLooksUp(fields.rest, key, k);
    }
  }

  lemma {:induction false} RemoveAbove(fields: Fields, key: string, low: string)
    requires AllAbove(low, fields)
    ensures AllAbove(low, Remove(fields, key))
  {
    if fields.Field? {
      RemoveAbove(fields.rest, key, low);
    }
  }

  lemma {:induction false} RemoveNormal(fields: Fields, key: string)
    requires NormalFields(fields)
    ensures NormalFields(Remove(fields, key))
  {
    if fields.Field? {
      RemoveNormal(fields.rest, key);
      RemoveAbove(fields.rest, key, fields.key);
    }
  }

  lemma {:induction false} RemoveValid(fields: Fields, key: string)
    requires ValidFields(fields)
    ensures ValidFields(Remove(fields, key))
  {
    if fields.Field? {
      RemoveValid(fields.rest, key);
      RemoveLooksUp(fields.rest, key, fields.key);
    }
  }

  /** Inserting the hash, writing, reading and stripping the hash again gives the evidence back, sorted. */
  lemma StripUndoesInsert(evidence: Fields, value: Json)
    requires ValidFields(evidence) && Valid(value)
    ensures Remove(SortedFields(Put(evidence, HASH_KEY, value)), HASH_KEY) == SortedFields(evidence)
        <==> !HasKey(evidence, HASH_KEY)
  {
    var record := Put(evidence, HASH_KEY, value);
    var stripped := Remove(SortedFields(record), HASH_KEY);
    PutValid(evidence, HASH_KEY, value);
    SortedFieldsNormal(record);
    RemoveNormal(SortedFields(record), HASH_KEY);
    SortedFieldsNormal(evidence);
    RemoveLooksUp(SortedFields(record), HASH_KEY, HASH_KEY);
    SortedLooksUp(evidence, HASH_KEY);
    if !HasKey(evidence, HASH_KEY) {
      LookupHasKey(evidence, HASH_KEY);
      forall k ensures Lookup(stripped, k) == Lookup(SortedFields(evidence), k) {
        RemoveLooksUp(SortedFields(record), HASH_KEY, k);
        SortedLooksUp(record, k);
        SortedLooksUp(evidence, k);
        PutLooksUp(evidence, HASH_KEY, value, k);
      }
      NormalUnique(stripped, SortedFields(evidence));
    }
  }

  /** A record reads back with the hash it was given, and it is genuine exactly when that hash is right. */
  lemma RecordReadsBack(sha: Hash, row: Row)
    requires ValidFields(row.evidence) && !HasKey(row.evidence, HASH_KEY)
    ensures StoredHash(SortedFields(Record(sha, row))) == RowHash(sha, row)
    ensures Genuine(sha, SortedFields(Record(sha, row))) <==> RowHash(sha, row) == EvidenceHash(sha, row.evidence)
  {
    var hash := Text(RowHash(sha, row));
    PutValid(row.evidence, HASH_KEY, hash);
    SortedLooksUp(Record(sha, row), HASH_KEY);
    PutLooksUp(row.evidence, HASH_KEY, hash, HASH_KEY);
    StripUndoesInsert(row.evidence, hash);
    SortedFieldsNormal(row.evidence);
    NormalFieldsSorted(SortedFields(row.evidence));
  }

  lemma {:induction false} ListSorts(records: seq<Fields>)
    requires forall i | 0 <= i < |records| :: ValidFields(records[i])
    ensures ValidItems(ListOf(records))
    ensures SortedItems(ListOf(records)) == ListOf(seq(|records|,
        i requires 0 <= i < |records| => SortedFields(records[i])))
  {
    if records != [] {
      ListSorts(records[1..]);
      assert seq(|records|, i requires 0 <= i < |records| => SortedFields(records[i]))[1..]
          == seq(|records[1..]|, i requires 0 <= i < |records[1..]| => SortedFields(records[1..][i]));
    }
  }

  /** What the verifier reads from the text `sign` embeds. */
  function ReadRecords(sha: Hash, rows: seq<Row>): seq<Fields> {
    seq(|rows|, i requires 0 <= i < |rows| => SortedFields(Record(sha, rows[i])))
  }

  lemma EmbeddedReadsBack(sha: Hash, rows: seq<Row>)
    requires forall r | r in rows :: ValidFields(r.evidence)
    ensures Read(Embedded(sha, rows)) == Parsed(List(ListOf(ReadRecords(sha, rows))), "")
  {
    hide Read, Write;
    var records := Records(sha, rows);
    forall i | 0 <= i < |records| ensures ValidFields(records[i]) {
      PutValid(rows[i].evidence, HASH_KEY, Text(RowHash(sha, rows[i])));
    }
    ListSorts(records);
    CanonicalReadsBack(List(ListOf(records)));
    assert ReadRecords(sha, rows) == seq(|records|, i requires 0 <= i < |records| => SortedFields(records[i]));
  }

  /**
   The verifier accepts the text and the manifest built from any rows exactly when every hash stored
   with a row is the hash of its evidence (or there is none).
   */
  lemma AcceptsExactly(sha: Hash, rows: seq<Row>)
    requires forall r | r in rows :: ValidFields(r.evidence) && !HasKey(r.evidence, HASH_KEY)
    ensures Read(Embedded(sha, rows)) == Parsed(List(ListOf(ReadRecords(sha, rows))), "")
    ensures Accepts(sha, ReadRecords(sha, rows), Manifest(sha, rows)) <==>
            forall r | r in rows :: r.hash.None? || r.hash.value == "" || r.hash.value == EvidenceHash(sha, r.evidence)
  {
    hide Read, Genuine, EvidenceHash, Record;
    EmbeddedReadsBack(sha, rows);
    var evidence := ReadRecords(sha, rows);
    forall i | 0 <= i < |rows|
      ensures StoredHash(evidence[i]) == RowHash(sha, rows[i])
      ensures Genuine(sha, evidence[i]) <==> RowHash(sha, rows[i]) == EvidenceHash(sha, rows[i].evidence)
    {
      RecordReadsBack(sha, rows[i]);
    }
    assert StoredHashes(evidence) == seq(|rows|, i requires 0 <= i < |rows| => RowHash(sha, rows[i]));
    if forall i | 0 <= i < |evidence| :: Genuine(sha, evidence[i]) {
      forall r | r in rows ensures RowHash(sha, r) == EvidenceHash(sha, r.evidence) {
        var i :| 0 <= i < |rows| && rows[i] == r;
        assert Genuine(sha, evidence[i]);
      }
    }
  }

  /** For any number of signers the verifier accepts what a run of `sign` has built. */
  lemma AcceptsSigned(sha: Hash, evidences: seq<Fields>)
    requires forall e | e in evidences :: ValidFields(e) && !HasKey(e, HASH_KEY)
    ensures var rows := seq(|evidences|, i requires 0 <= i < |evidences| => SignedRow(sha, evidences[i]));
            && Read(Embedded(sha, rows)) == Parsed(List(ListOf(ReadRecords(sha, rows))), "")
            && Accepts(sha, ReadRecords(sha, rows), Manifest(sha, rows))
  {
    hide Read, Accepts, EvidenceHash, Embedded, ReadRecords, Manifest;
    AcceptsExactly(sha, seq(|evidences|, i requires 0 <= i < |evidences| => SignedRow(sha, evidences[i])));
  }

  // ----- The manifest binds the evidence -----

  const DIGEST_LENGTH := 64

  ghost predicate IsDigest(sha: Hash) {
    forall text :: |sha(text)| == DIGEST_LENGTH
  }

  ghost predicate CollisionFree(sha: Hash, texts: set<string>) {
    forall x, y | x in texts && y in texts && sha(x) == sha(y) :: x == y
  }

  /** The texts the verifier hashes for a list of evidence. */
  ghost function Hashed(evidence: seq<Fields>): set<string> {
    (set i | 0 <= i < |evidence| :: Canonical(Object(Remove(evidence[i], HASH_KEY)))) + {Join(StoredHashes(evidence))}
  }

  /** Joining digests loses nothing: they all have the same length. */
  lemma {:induction false} JoinInjective(a: seq<string>, b: seq<string>)
    requires forall s | s in a :: |s| == DIGEST_LENGTH
    requires forall s | s in b :: |s| == DIGEST_LENGTH
    requires Join(a) == Join(b)
    ensures a == b
  {
    if a != [] {
      assert a[0] in a;
      assert Join(a)[..DIGEST_LENGTH] == a[0];
    }
    if b != [] {
      assert b[0] in b;
      assert Join(b)[..DIGEST_LENGTH] == b[0];
    }
    if a != [] && b != [] {
      if |a| > 1 && |b| > 1 {
        assert Join(a)[DIGEST_LENGTH + 1..] == Join(a[1..]);
        assert Join(b)[DIGEST_LENGTH + 1..] == Join(b[1..]);
        JoinInjective(a[1..], b[1..]);
        assert a == [a[0]] + a[1..] && b == [b[0]] + b[1..];
      }
    }
  }

  lemma HashesAreDigests(sha: Hash, evidence: seq<Fields>, manifest: string)
    requires IsDigest(sha) && Accepts(sha, evidence, manifest)
    ensures forall s | s in StoredHashes(evidence) :: |s| == DIGEST_LENGTH
  {
    forall i | 0 <= i < |evidence| ensures |StoredHashes(evidence)[i]| == DIGEST_LENGTH {
      assert Genuine(sha, evidence[i]);
    }
  }

  /** Whether an item keeps its hash as text, as every item `sign` writes does. */
  predicate HashIsText(item: Fields) {
    Lookup(item, HASH_KEY).Found? && Lookup(item, HASH_KEY).value.Text?
  }

  /** Two items with the same stripped fields and the same hash text are the same. */
  lemma SameItem(a: Fields, b: Fields)
    requires ValidFields(a) && ValidFields(b) && HashIsText(a) && HashIsText(b) && StoredHash(a) == StoredHash(b)
    requires SortedFields(Remove(a, HASH_KEY)) == SortedFields(Remove(b, HASH_KEY))
    ensures SortedFields(a) == SortedFields(b)
  {
    SortedFieldsNormal(a);
    SortedFieldsNormal(b);
    RemoveValid(a, HASH_KEY);
    RemoveValid(b, HASH_KEY);
    forall k ensures Lookup(SortedFields(a), k) == Lookup(SortedFields(b), k) {
      SortedLooksUp(a, k);
      SortedLooksUp(b, k);
      SortedLooksUp(Remove(a, HASH_KEY), k);
      SortedLooksUp(Remove(b, HASH_KEY), k);
      RemoveLooksUp(a, HASH_KEY, k);
      RemoveLooksUp(b, HASH_KEY, k);
    }
    NormalUnique(SortedFields(a), SortedFields(b));
  }

  /**
   When the hash has no collision among the texts hashed for two accepted lists with one manifest,
   the lists have the same items in the same order.
   */
  lemma ManifestBinds(sha: Hash, a: seq<Fields>, b: seq<Fields>, manifest: string)
    requires IsDigest(sha) && CollisionFree(sha, Hashed(a) + Hashed(b))
    requires forall i | 0 <= i < |a| :: ValidFields(a[i])
    requires forall i | 0 <= i < |b| :: ValidFields(b[i])
    requires Accepts(sha, a, manifest) && Accepts(sha, b, manifest)
    ensures |a| == |b| && StoredHashes(a) == StoredHashes(b)
    ensures forall i | 0 <= i < |a| :: SortedFields(Remove(a[i], HASH_KEY)) == SortedFields(Remove(b[i], HASH_KEY))
    ensures forall i | 0 <= i < |a| && HashIsText(a[i]) && HashIsText(b[i]) :: SortedFields(a[i]) == SortedFields(b[i])
  {
    hide Canonical, Join, StoredHash, ValidFields;
    HashesAreDigests(sha, a, manifest);
    HashesAreDigests(sha, b, manifest);
    assert Join(StoredHashes(a)) == Join(StoredHashes(b));
    JoinInjective(StoredHashes(a), StoredHashes(b));
    assert |StoredHashes(a)| == |a| && |StoredHashes(b)| == |b|;
    forall i | 0 <= i < |a|
      ensures SortedFields(Remove(a[i], HASH_KEY)) == SortedFields(Remove(b[i], HASH_KEY))
      ensures HashIsText(a[i]) && HashIsText(b[i]) ==> SortedFields(a[i]) == SortedFields(b[i])
    {
      assert StoredHashes(a)[i] == StoredHashes(b)[i];
      assert Genuine(sha, a[i]) && Genuine(sha, b[i]);
      RemoveValid(a[i], HASH_KEY);
      RemoveValid(b[i], HASH_KEY);
      SamePayload(Remove(a[i], HASH_KEY), Remove(b[i], HASH_KEY));
      if HashIsText(a[i]) && HashIsText(b[i]) {
        SameItem(a[i], b[i]);
      }
    }
  }

  lemma SamePayload(a: Fields, b: Fields)
    requires ValidFields(a) && ValidFields(b)
    ensures Canonical(Object(a)) == Canonical(Object(b)) <==> SortedFields(a) == SortedFields(b)
  {
    hide Canonical;
    CanonicalInjective(Object(a), Object(b));
  }
}
