/**
 The signature workflow over the database: documents with immutable versions, signature requests,
 signers, signatures, the audit table and the object store.

 Every public method is one transaction, given here as a function from the state before to an
 outcome. New ids, tokens and storage keys are arguments, and so is what the model does not look
 into: a gate is the error code of the access, team, plan or configuration checks (`None` when
 they pass), a fault is where the transaction breaks, `now` and `signedAt` are readings of the clock.
 */
module Workflow {
  import opened Options

  type Id = nat
  type Key = nat
  type Token = nat
  type Bytes = string
  type Digest = string
  type Gate = Option<nat>

  const FREE_SIGNATURES: nat := 5

  // ----- Tables -----

  datatype RequestStatus = Draft | Open | Completed | Cancelled
  datatype SignerStatus = Pending | Viewed | Signed | Declined
  datatype Mode = Evidence | SerproTimestamp | SerproId

  datatype Document = Document(tenant: Id, version: nat, sha: Digest, key: Key, deleted: bool)
  datatype Version = Version(sha: Digest, key: Key)
  datatype Request = Request(document: Id, version: nat, sha: Digest, status: RequestStatus, expiresAt: nat,
                             mode: Mode, completedAt: Option<nat>)
  datatype Signer = Signer(request: Id, user: string, status: SignerStatus, revoked: bool, signedAt: Option<nat>)
  datatype Signature = Signature(request: Id, sha: Digest, signedAt: nat, artifact: Key)
  datatype Account = Account(limit: nat, used: nat)

  datatype Action =
    | DocumentUploaded | VersionCreated | DocumentDeleted
    | RequestCreated | RequestOpened | RequestCompleted | RequestCancelled | RequestLinkCreated
    | SignerLinkCreated | SignerLinkRevoked | DocumentViewed | SignatureDeclined | SignatureCompleted

  datatype Event = Event(request: Option<Id>, action: Action, entity: Id)

  /** Documents, their versions by (document, number), and the objects of the store. */
  datatype Library = Library(documents: map<Id, Document>, versions: map<(Id, nat), Version>, stored: map<Key, Bytes>)

  /** Requests and signers, with the unique indexes on (request, user) and on the signing token. */
  datatype Desk = Desk(requests: map<Id, Request>, signers: map<Id, Signer>, roster: map<(Id, string), Id>,
                       links: map<Token, Id>)

  /** Signatures by signer and the counters of each tenant; `unpaid` is history: who signed without paid access. */
  datatype Ledger = Ledger(signatures: map<Id, Signature>, accounts: map<Id, Account>, unpaid: set<Id>)

  datatype State = State(library: Library, desk: Desk, ledger: Ledger, audit: seq<Event>)

  const START: State := State(Library(map[], map[], map[]), Desk(map[], map[], map[], map[]), Ledger(map[], map[], {}),
      [])

  // ----- Outcomes and faults -----

  datatype Outcome = Done(state: State) | Failed(state: State, code: nat)

  /**
   Where a transaction that stores an object breaks: not at all, before the object is written,
   inside the write (the key is never returned), after it, or in the commit, when the rows are
   written but the answer is lost. In the last two the object is discarded unless the store refuses.
   */
  datatype Fault =
    | NoFault | BeforePut | TornPut(partial: Bytes) | AfterPut(discarded: bool) | LostAnswer(discarded: bool)

  function StoreObject(s: State, key: Key, content: Bytes): State {
    s.(library := s.library.(stored := s.library.stored[key := content]))
  }

  /** The rows are written, whether or not the caller learns it. */
  predicate TakesEffect(fault: Fault) {
    fault.NoFault? || fault.LostAnswer?
  }

  /** The object is written and stays. */
  predicate KeepsObject(fault: Fault) {
    fault.NoFault? || fault.TornPut? || ((fault.AfterPut? || fault.LostAnswer?) && !fault.discarded)
  }

  /** Write `content` under `key` and commit `after`, or roll back to `s`. */
  function Commit(s: State, after: State, key: Key, content: Bytes, fault: Fault): Outcome {
    match fault
    case NoFault => Done(StoreObject(after, key, content))
    case BeforePut => Failed(s, 500)
    case TornPut(partial) => Failed(StoreObject(s, key, partial), 500)
    case AfterPut(discarded) => Failed(if discarded then s else StoreObject(s, key, content), 500)
    case LostAnswer(discarded) => Failed(if discarded then after else StoreObject(after, key, content), 500)
  }

  // ----- Documents -----

  predicate LiveDocument(s: State, document: Id) {
    document in s.library.documents && !s.library.documents[document].deleted
  }

  predicate Frozen(s: State, document: Id) {
    exists r :: r in s.desk.requests && s.desk.requests[r].document == document
        && s.desk.requests[r].status in {Open, Completed}
  }

  /** The rows `create_document` writes. */
  function WithDocument(sha: Bytes -> Digest, s: State, document: Id, tenant: Id, content: Bytes, key: Key): State {
    var digest := sha(content);
    s.(library := s.library.(documents := s.library.documents[document := Document(tenant, 1, digest, key, false)],
                             versions := s.library.versions[(document, 1) := Version(digest, key)]),
       audit := s.audit + [Event(None, DocumentUploaded, document)])
  }

  function CreateDocument(sha: Bytes -> Digest, s: State, document: Id, tenant: Id, content: Bytes, gate: Gate,
                          key: Key, fault: Fault): Outcome {
    if content == "" then Failed(s, 400)
    else if gate.Some? then Failed(s, gate.value)
    else Commit(s, WithDocument(sha, s, document, tenant, content, key), key, content, fault)
  }

  /** The rows `add_version` writes: the next version, which becomes the head. */
  function WithVersion(sha: Bytes -> Digest, s: State, document: Id, content: Bytes, key: Key): State
    requires document in s.library.documents
  {
    var digest, item := sha(content), s.library.documents[document];
    var head := item.(version := item.version + 1, sha := digest, key := key);
    s.(library := s.library.(documents := s.library.documents[document := head],
                             versions := s.library.versions[(document, head.version) := Version(digest, key)]),
       audit := s.audit + [Event(None, VersionCreated, document)])
  }

  function AddVersion(sha: Bytes -> Digest, s: State, document: Id, content: Bytes, gate: Gate, key: Key,
                      fault: Fault): Outcome {
    if content == "" then Failed(s, 400)
    else if !LiveDocument(s, document) then Failed(s, 404)
    else if gate.Some? then Failed(s, gate.value)
    else if Frozen(s, document) then Failed(s, 409)
    else Commit(s, WithVersion(sha, s, document, content, key), key, content, fault)
  }

  /** `get_content` after its access check: the bytes of a version, or `None` for each of its errors. */
  function GetContent(sha: Bytes -> Digest, s: State, document: Id, number: nat): Option<Bytes> {
    if !LiveDocument(s, document) || (document, number) !in s.library.versions then None
    else
      var version := s.library.versions[(document, number)];
      if version.key in s.library.stored && sha(s.library.stored[version.key]) == version.sha then
        Some(s.library.stored[version.key])
      else None
  }

  function ActiveRequests(s: State, document: Id): set<Id> {
    set r | r in s.desk.requests && s.desk.requests[r].document == document
        && s.desk.requests[r].status in {Draft, Open}
  }

  function SetStatus(s: State, request: Id, status: RequestStatus, action: Action): State
    requires request in s.desk.requests
  {
    s.(desk := s.desk.(requests := s.desk.requests[request := s.desk.requests[request].(status := status)]),
       audit := s.audit + [Event(Some(request), action, request)])
  }

  function CancelAll(s: State, rows: seq<Id>): State
    requires forall r | r in rows :: r in s.desk.requests
    decreases |rows|
  {
    if rows == [] then s
    else CancelAll(SetStatus(s, rows[0], RequestStatus.Cancelled, RequestCancelled), rows[1..])
  }

  /** `rows` are the requests in progress, in the order the query returns them. */
  function DeleteDocument(s: State, document: Id, gate: Gate, force: bool, rows: seq<Id>): Outcome
    requires forall r :: r in rows <==> r in ActiveRequests(s, document)
  {
    if !LiveDocument(s, document) then Failed(s, 404)
    else if gate.Some? then Failed(s, gate.value)
    else if rows != [] && !force then Failed(s, 409)
    else
      var cancelled := CancelAll(s, rows);
      var item := s.library.documents[document];
      Done(cancelled.(library := s.library.(documents := s.library.documents[document := item.(deleted := true)]),
                      audit := cancelled.audit + [Event(None, DocumentDeleted, document)]))
  }

  // ----- Requests and signers -----

  function CreateRequest(s: State, request: Id, document: Id, expiresAt: nat, now: nat, gate: Gate): Outcome {
    if expiresAt <= now then Failed(s, 400)
    else if !LiveDocument(s, document) then Failed(s, 404)
    else if gate.Some? then Failed(s, gate.value)
    else
      var item := s.library.documents[document];
      var draft := Request(document, item.version, item.sha, Draft, expiresAt, Evidence, None);
      Done(s.(desk := s.desk.(requests := s.desk.requests[request := draft]),
              audit := s.audit + [Event(Some(request), RequestCreated, request)]))
  }

  /** `gate` is the access check, `role` the checks on a representative of the company. */
  function AddSigner(s: State, signer: Id, request: Id, user: string, gate: Gate, role: Gate): Outcome {
    if request !in s.desk.requests then Failed(s, 404)
    else if gate.Some? then Failed(s, gate.value)
    else if s.desk.requests[request].status != Draft then Failed(s, 409)
    else if role.Some? then Failed(s, role.value)
    else if (request, user) in s.desk.roster then Failed(s, 409)
    else
      Done(s.(desk := s.desk.(signers := s.desk.signers[signer := Signer(request, user, Pending, false, None)],
                              roster := s.desk.roster[(request, user) := signer]),
              audit := s.audit + [Event(Some(request), SignerLinkCreated, signer)]))
  }

  /** A request has one signing token at a time; a new one replaces it. */
  function Relinked(links: map<Token, Id>, token: Token, request: Id): map<Token, Id> {
    (map t | t in links && links[t] != request :: links[t])[token := request]
  }

  function CreateLink(s: State, request: Id, token: Token, gate: Gate): Outcome {
    if request !in s.desk.requests then Failed(s, 404)
    else if gate.Some? then Failed(s, gate.value)
    else if s.desk.requests[request].status !in {Open, Completed} then Failed(s, 409)
    else if !LiveDocument(s, s.desk.requests[request].document) then Failed(s, 404)
    else
      Done(s.(desk := s.desk.(links := Relinked(s.desk.links, token, request)),
              audit := s.audit + [Event(Some(request), RequestLinkCreated, request)]))
  }

  function SignersOf(desk: Desk, request: Id): set<Id> {
    set i | i in desk.signers && desk.signers[i].request == request
  }

  function SetSigner(s: State, signer: Id, row: Signer, action: Action): State {
    s.(desk := s.desk.(signers := s.desk.signers[signer := row]),
       audit := s.audit + [Event(Some(row.request), action, signer)])
  }

  function RevokeSignerLink(s: State, request: Id, signer: Id, gate: Gate): Outcome {
    if request !in s.desk.requests then Failed(s, 404)
    else if gate.Some? then Failed(s, gate.value)
    else if signer !in s.desk.signers || s.desk.signers[signer].request != request then Failed(s, 404)
    else if s.desk.signers[signer].status == Signed then Failed(s, 409)
    else if s.desk.signers[signer].revoked then Done(s)
    else Done(SetSigner(s, signer, s.desk.signers[signer].(revoked := true), SignerLinkRevoked))
  }

  /** `ready` is the configuration and identity check of the chosen mode. */
  function OpenRequest(s: State, request: Id, mode: Mode, gate: Gate, ready: Gate): Outcome {
    if request !in s.desk.requests then Failed(s, 404)
    else if gate.Some? then Failed(s, gate.value)
    else
      var item := s.desk.requests[request];
      if item.status != Draft then Failed(s, 409)
      else if SignersOf(s.desk, request) == {} then Failed(s, 409)
      else if mode != Evidence && ready.Some? then Failed(s, ready.value)
      else if mode == SerproId && |SignersOf(s.desk, request)| != 1 then Failed(s, 409)
      else if !LiveDocument(s, item.document) then Failed(s, 404)
      else if s.library.documents[item.document].version != item.version
          || s.library.documents[item.document].sha != item.sha then
        Failed(s, 409)
      else
        Done(s.(desk := s.desk.(requests := s.desk.requests[request := item.(status := Open, mode := mode)]),
                audit := s.audit + [Event(Some(request), RequestOpened, request)]))
  }

  function CancelRequest(s: State, request: Id, gate: Gate): Outcome {
    if request !in s.desk.requests then Failed(s, 404)
    else if gate.Some? then Failed(s, gate.value)
    else if s.desk.requests[request].status !in {Draft, Open} then Failed(s, 409)
    else Done(SetStatus(s, request, RequestStatus.Cancelled, RequestCancelled))
  }

  // ----- Signing -----

  datatype Access = Granted(signer: Id, request: Id) | Refused(code: nat)

  /** `_resolve_request` for `view`, `sign` and `decline`. */
  function Resolve(s: State, token: Token, user: string, now: nat): Access {
    if token !in s.desk.links || s.desk.links[token] !in s.desk.requests then Refused(404)
    else
      var request := s.desk.links[token];
      if (request, user) !in s.desk.roster || s.desk.roster[(request, user)] !in s.desk.signers then Refused(403)
      else
        var signer := s.desk.roster[(request, user)];
        if s.desk.signers[signer].revoked then Refused(410)
        else if s.desk.requests[request].expiresAt <= now then Refused(410)
        else if s.desk.requests[request].status != Open then Refused(409)
        else Granted(signer, request)
  }

  function View(s: State, token: Token, user: string, now: nat): Outcome {
    match Resolve(s, token, user, now)
    case Refused(code) => Failed(s, code)
    case Granted(signer, _) =>
      var row := s.desk.signers[signer];
      if row.status != Pending then Done(s)
      else Done(SetSigner(s, signer, row.(status := Viewed), DocumentViewed))
  }

  function Decline(s: State, token: Token, user: string, now: nat): Outcome {
    match Resolve(s, token, user, now)
    case Refused(code) => Failed(s, code)
    case Granted(signer, _) =>
      var row := s.desk.signers[signer];
      if row.status in {Signed, SignerStatus.Declined} then Failed(s, 409)
      else Done(SetSigner(s, signer, row.(status := SignerStatus.Declined), SignatureDeclined))
  }

  function AccountOf(ledger: Ledger, tenant: Id): Account {
    if tenant in ledger.accounts then ledger.accounts[tenant] else Account(FREE_SIGNATURES, 0)
  }

  function Unsigned(desk: Desk, request: Id): set<Id> {
    set i | i in SignersOf(desk, request) && desk.signers[i].status != Signed
  }

  /**
   The checks of `sign` after the link resolved, in the order of the code. `represents` is the
   check on a company representative, `paid` whether the tenant has paid or lifetime access, `pdf`
   the validation of the stored file.
   */
  function SignRefusal(sha: Bytes -> Digest, s: State, signer: Id, request: Id, certificate: bool, represents: Gate,
                       paid: bool, pdf: Gate): Gate
    requires signer in s.desk.signers && request in s.desk.requests
  {
    var row, item := s.desk.signers[signer], s.desk.requests[request];
    var version := (item.document, item.version);
    if row.status == Signed then Some(409)
    else if (item.mode == SerproId) != certificate then Some(409)
    else if certificate && row.status !in {Pending, Viewed} then Some(409)
    else if certificate && |Unsigned(s.desk, request)| != 1 then Some(409)
    else if version !in s.library.versions || s.library.versions[version].sha != item.sha then Some(409)
    else if !LiveDocument(s, item.document) then Some(404)
    else if represents.Some? then represents
    else if !paid && AccountOf(s.ledger, s.library.documents[item.document].tenant).used >= AccountOf(s.ledger,
        s.library.documents[item.document].tenant).limit then
      Some(402)
    else if s.library.versions[version].key !in s.library.stored then Some(500)
    else if sha(s.library.stored[s.library.versions[version].key]) != item.sha then Some(409)
    else pdf
  }

  function Charged(ledger: Ledger, tenant: Id, paid: bool): map<Id, Account> {
    var account := AccountOf(ledger, tenant);
    ledger.accounts[tenant := if paid then account else account.(used := account.used + 1)]
  }

  /** The rows `sign` writes. */
  function WithSignature(s: State, signer: Id, request: Id, signedAt: nat, paid: bool, key: Key): State
    requires signer in s.desk.signers && request in s.desk.requests
        && s.desk.requests[request].document in s.library.documents
  {
    var row, item := s.desk.signers[signer], s.desk.requests[request];
    var tenant := s.library.documents[item.document].tenant;
    var ledger := Ledger(
      s.ledger.signatures[signer := Signature(request, item.sha, signedAt, key)],
      Charged(s.ledger, tenant, paid),
      if paid then s.ledger.unpaid else s.ledger.unpaid + {signer});
    var desk := s.desk.(signers := s.desk.signers[signer := row.(status := Signed, signedAt := Some(signedAt))]);
    var audit := s.audit + [Event(Some(request), SignatureCompleted, signer)];
    if Unsigned(desk, request) != {} then s.(desk := desk, ledger := ledger, audit := audit)
    else
      var completed := item.(status := RequestStatus.Completed, completedAt := Some(signedAt));
      s.(desk := desk.(requests := desk.requests[request := completed]),
         ledger := ledger,
         audit := audit + [Event(Some(request), RequestCompleted, request)])
  }

  /** The link is resolved at `now`; the rows are dated by a second reading of the clock. */
  function Sign(sha: Bytes -> Digest, s: State, token: Token, user: string, consent: bool, now: nat, signedAt: nat,
                certificate: bool, represents: Gate, paid: bool, pdf: Gate, artifact: Bytes, key: Key,
                fault: Fault): Outcome
  {
    if !consent then Failed(s, 400)
    else
      match Resolve(s, token, user, now)
      case Refused(code) => Failed(s, code)
      case Granted(signer, request) =>
        var refusal := SignRefusal(sha, s, signer, request, certificate, represents, paid, pdf);
        if refusal.Some? then Failed(s, refusal.value)
        else Commit(s, WithSignature(s, signer, request, signedAt, paid, key), key, artifact, fault)
  }
}
